/**
 Pipeline definitions: the depth-first cycle check, validation, and the layered execution order.
 */
module Pipeline {

  import opened Wrappers
  import opened StageGraph

  datatype Stage = Stage(name: Name, model: string, dependsOn: seq<Name>, loopTo: Option<Name>, maxIterations: int)

  /** The name-to-dependencies dictionary; a later stage with the same name replaces an earlier one. */
  function DepsMap(stages: seq<Stage>): Graph {
    if stages == [] then map[]
    else DepsMap(stages[..|stages| - 1])[stages[|stages| - 1].name := stages[|stages| - 1].dependsOn]
  }

  function StageMap(stages: seq<Stage>): (m: map<Name, Stage>)
    ensures m.Keys == DepsMap(stages).Keys
    ensures forall n :: n in m ==> m[n] in stages && m[n].name == n && m[n].dependsOn == DepsMap(stages)[n]
  {
    if stages == [] then map[]
    else StageMap(stages[..|stages| - 1])[stages[|stages| - 1].name := stages[|stages| - 1]]
  }

  /** The dictionary's iteration order: each name where it was first inserted. */
  function KeyOrder(stages: seq<Stage>): (order: seq<Name>)
    ensures Distinct(order)
    ensures forall n :: n in order <==> n in DepsMap(stages)
  {
    if stages == [] then []
    else
      var order := KeyOrder(stages[..|stages| - 1]);
      var n := stages[|stages| - 1].name;
      if n in order then order else order + [n]
  }

  /** The stage at k is the last of its name. */
  ghost predicate IsLastOf(stages: seq<Stage>, n: Name, k: nat) {
    k < |stages| && stages[k].name == n && forall j :: k < j < |stages| ==> stages[j].name != n
  }

  /** Of several stages with one name both dictionaries hold the last. */
  lemma {:induction false} LastStageCounts(stages: seq<Stage>, n: Name, k: nat)
    requires IsLastOf(stages, n, k)
    ensures n in DepsMap(stages) && StageMap(stages)[n] == stages[k] && DepsMap(stages)[n] == stages[k].dependsOn
  {
    if k < |stages| - 1 {
      LastStageCounts(stages[..|stages| - 1], n, k);
    }
  }

  /** The name first appears at p, and the other one does not appear up to there. */
  ghost predicate AppearsAt(stages: seq<Stage>, n: Name, other: Name, p: nat) {
    p < |stages| && stages[p].name == n && forall q :: 0 <= q <= p ==> stages[q].name != other
  }

  /** A key that comes before another in the iteration order appears before it in the list. */
  lemma {:induction false} KeysAppearInOrder(stages: seq<Stage>, i: nat, j: nat) returns (p: nat)
    requires i < j < |KeyOrder(stages)|
    ensures AppearsAt(stages, KeyOrder(stages)[i], KeyOrder(stages)[j], p)
  {
    var rest, last := stages[..|stages| - 1], stages[|stages| - 1];
    KeyOrderGrows(stages, i);
    if j < |KeyOrder(rest)| {
      KeyOrderGrows(stages, j);
      p := KeysAppearInOrder(rest, i, j);
    } else {
      p := AppearsBeforeNew(rest, KeyOrder(rest)[i], last.name);
    }
    AppearsStays(stages, KeyOrder(stages)[i], KeyOrder(stages)[j], p);
  }

  lemma KeyOrderGrows(stages: seq<Stage>, i: nat)
    requires stages != [] && i < |KeyOrder(stages)|
    ensures var rest, last := stages[..|stages| - 1], stages[|stages| - 1];
      if i < |KeyOrder(rest)| then KeyOrder(stages)[i] == KeyOrder(rest)[i] && KeyOrder(rest)[i] in DepsMap(rest)
      else i == |KeyOrder(rest)| && KeyOrder(stages)[i] == last.name && last.name !in DepsMap(rest)
  {
    var order := KeyOrder(stages[..|stages| - 1]);
    assert i < |order| ==> order[i] in order;
  }

  lemma AppearsStays(stages: seq<Stage>, n: Name, other: Name, p: nat)
    requires stages != [] && AppearsAt(stages[..|stages| - 1], n, other, p)
    ensures AppearsAt(stages, n, other, p)
  {
    forall q | 0 <= q <= p ensures stages[q].name != other {
      assert stages[..|stages| - 1][q] == stages[q];
    }
  }

  lemma AppearsBeforeNew(rest: seq<Stage>, n: Name, other: Name) returns (p: nat)
    requires n in DepsMap(rest) && other !in DepsMap(rest)
    ensures AppearsAt(rest, n, other, p)
  {
    p := KeyHasStage(rest, n);
    forall q | 0 <= q <= p ensures rest[q].name != other {
      StageIsKey(rest, q);
    }
  }

  ghost predicate DistinctNames(stages: seq<Stage>) {
    forall i, j :: 0 <= i < j < |stages| ==> stages[i].name != stages[j].name
  }

  lemma {:induction false} StageIsKey(stages: seq<Stage>, i: nat)
    requires i < |stages|
    ensures stages[i].name in DepsMap(stages)
    ensures DistinctNames(stages) ==> DepsMap(stages)[stages[i].name] == stages[i].dependsOn
  {
    if i < |stages| - 1 {
      StageIsKey(stages[..|stages| - 1], i);
    }
  }

  lemma {:induction false} KeysFit(stages: seq<Stage>)
    ensures |DepsMap(stages)| <= |stages|
  {
    if stages != [] {
      var prev := DepsMap(stages[..|stages| - 1]);
      KeysFit(stages[..|stages| - 1]);
      assert DepsMap(stages).Keys == prev.Keys + {stages[|stages| - 1].name};
      assert |DepsMap(stages)| == |DepsMap(stages).Keys| && |prev| == |prev.Keys|;
    }
  }

  // ---------------------------------------------------------------------------
  // Validation
  // ---------------------------------------------------------------------------

  /** The two sets the nested function shares between all its calls. */
  class CycleSearch {
    const g: Graph
    var visiting: set<Name>
    var visited: set<Name>

    constructor (g: Graph)
      ensures this.g == g && visiting == {} && visited == {}
    {
      this.g := g;
      visiting, visited := {}, {};
    }

    method HasCycle(name: Name) returns (found: bool)
      requires visiting !! visited && Explored(g, visited)
      requires forall v :: v in visiting ==> Reaches(g, v, name)
      modifies this
      ensures found <==> ReachesCycle(g, name)
      ensures !found ==> visiting == old(visiting) && visiting !! visited
      ensures !found ==> old(visited) + {name} <= visited && Explored(g, visited)
      decreases g.Keys - visiting
    {
      if name in visiting {
        return true;
      }
      if name in visited {
        ExploredHasNoCycleBelow(g, visited, name);
        return false;
      }
      visiting := visiting + {name};
      var deps := Deps(g, name);
      var i := 0;
      while i < |deps|
        invariant 0 <= i <= |deps|
        invariant visiting == old(visiting) + {name} && visiting !! visited
        invariant old(visited) <= visited && Explored(g, visited)
        invariant forall j :: 0 <= j < i ==> deps[j] in visited
      {
        forall v | v in visiting ensures Reaches(g, v, deps[i]) {
          EdgeReaches(g, name, deps[i]);
          if v != name {
            ReachesTransitive(g, v, name, deps[i]);
          }
        }
        var below := HasCycle(deps[i]);
        if below {
          StepToCycle(g, name, deps[i]);
          return true;
        }
        i := i + 1;
      }
      ExploredGrows(g, visited, name);
      visiting := visiting - {name};
      visited := visited + {name};
      ExploredHasNoCycleBelow(g, visited, name);
      return false;
    }
  }

  datatype ValidationError =
    | UnknownDependency(stage: Name, dependency: Name)
    | DependencyCycle(stage: Name)
    | InvalidModel(stage: Name, model: string)

  const VALID_MODELS: set<string> := {"opus", "sonnet", "haiku"}

  /** The dangling references of one stage, in the order they are listed. */
  function UnknownDeps(name: Name, deps: seq<Name>, known: set<Name>): seq<ValidationError> {
    if deps == [] then []
    else
      UnknownDeps(name, deps[..|deps| - 1], known) +
      if deps[|deps| - 1] in known then [] else [UnknownDependency(name, deps[|deps| - 1])]
  }

  function AllUnknownDeps(stages: seq<Stage>, known: set<Name>): seq<ValidationError> {
    if stages == [] then []
    else
      var s := stages[|stages| - 1];
      AllUnknownDeps(stages[..|stages| - 1], known) + UnknownDeps(s.name, s.dependsOn, known)
  }

  function InvalidModels(stages: seq<Stage>): seq<ValidationError> {
    if stages == [] then []
    else
      var s := stages[|stages| - 1];
      InvalidModels(stages[..|stages| - 1]) + if s.model in VALID_MODELS then [] else [InvalidModel(s.name, s.model)]
  }

  // What the two lists of errors are: those of the stages one after the other, and of each stage its own.

  lemma {:induction false} InvalidModelsOfParts(a: seq<Stage>, b: seq<Stage>)
    ensures InvalidModels(a + b) == InvalidModels(a) + InvalidModels(b)
  {
    if b == [] {
      assert a + b == a;
    } else {
      var rest := b[..|b| - 1];
      assert (a + b)[..|a + b| - 1] == a + rest;
      InvalidModelsOfParts(a, rest);
    }
  }

  lemma {:induction false} AllUnknownDepsOfParts(a: seq<Stage>, b: seq<Stage>, known: set<Name>)
    ensures AllUnknownDeps(a + b, known) == AllUnknownDeps(a, known) + AllUnknownDeps(b, known)
  {
    if b == [] {
      assert a + b == a;
    } else {
      var rest := b[..|b| - 1];
      assert (a + b)[..|a + b| - 1] == a + rest;
      AllUnknownDepsOfParts(a, rest, known);
    }
  }

  lemma {:induction false} UnknownDepsOfParts(name: Name, a: seq<Name>, b: seq<Name>, known: set<Name>)
    ensures UnknownDeps(name, a + b, known) == UnknownDeps(name, a, known) + UnknownDeps(name, b, known)
  {
    if b == [] {
      assert a + b == a;
    } else {
      var rest := b[..|b| - 1];
      assert (a + b)[..|a + b| - 1] == a + rest;
      UnknownDepsOfParts(name, a, rest, known);
    }
  }

  lemma ErrorsOfOne(s: Stage, d: Name, known: set<Name>)
    ensures InvalidModels([s]) == if s.model in {"opus", "sonnet", "haiku"} then [] else [InvalidModel(s.name, s.model)]
    ensures AllUnknownDeps([s], known) == UnknownDeps(s.name, s.dependsOn, known)
    ensures UnknownDeps(s.name, [d], known) == if d in known then [] else [UnknownDependency(s.name, d)]
  {
    assert [s][..0] == [] && [d][..0] == [];
    assert AllUnknownDeps([], known) == [] && UnknownDeps(s.name, [], known) == [];
  }

  /** Validation reports no model exactly when all are known ones. */
  lemma {:induction false} InvalidModelsEmpty(stages: seq<Stage>)
    ensures InvalidModels(stages) == []
      <==> forall i :: 0 <= i < |stages| ==> stages[i].model in {"opus", "sonnet", "haiku"}
  {
    if stages != [] {
      InvalidModelsEmpty(stages[..|stages| - 1]);
      assert forall i :: 0 <= i < |stages| - 1 ==> stages[..|stages| - 1][i] == stages[i];
    }
  }

  /** The cycle report: at most one, naming the first stage of the list that has a cycle at or below it. */
  ghost predicate IsCycleReport(stages: seq<Stage>, report: seq<ValidationError>) {
    var g := DepsMap(stages);
    if Cyclic(g) then
      exists i :: 0 <= i < |stages| && report == [DependencyCycle(stages[i].name)] && ReachesCycle(g, stages[i].name)
        && forall j :: 0 <= j < i ==> !ReachesCycle(g, stages[j].name)
    else report == []
  }

  method UnknownDependencyErrors(stages: seq<Stage>) returns (errors: seq<ValidationError>)
    ensures errors == AllUnknownDeps(stages, DepsMap(stages).Keys)
  {
    var known := DepsMap(stages).Keys;
    errors := [];
    for i := 0 to |stages|
      invariant errors == AllUnknownDeps(stages[..i], known)
    {
      var s := stages[i];
      ghost var before := errors;
      for k := 0 to |s.dependsOn|
        invariant errors == before + UnknownDeps(s.name, s.dependsOn[..k], known)
      {
        assert s.dependsOn[..k + 1][..k] == s.dependsOn[..k];
        if s.dependsOn[k] !in known {
          errors := errors + [UnknownDependency(s.name, s.dependsOn[k])];
        }
      }
      assert s.dependsOn[..|s.dependsOn|] == s.dependsOn;
      assert stages[..i + 1][..i] == stages[..i];
    }
    assert stages[..|stages|] == stages;
  }

  method CycleErrors(stages: seq<Stage>) returns (report: seq<ValidationError>)
    ensures IsCycleReport(stages, report)
  {
    var g := DepsMap(stages);
    var search := new CycleSearch(g);
    report := [];
    var i := 0;
    while i < |stages|
      invariant 0 <= i <= |stages|
      invariant fresh(search) && search.g == g && search.visiting == {} && Explored(g, search.visited)
      invariant report == []
      invariant forall j :: 0 <= j < i ==> !ReachesCycle(g, stages[j].name)
    {
      var found := search.HasCycle(stages[i].name);
      if found {
        report := [DependencyCycle(stages[i].name)];
        break;
      }
      i := i + 1;
    }
    CycleReportFound(stages, i, report);
  }

  method ModelErrors(stages: seq<Stage>) returns (errors: seq<ValidationError>)
    ensures errors == InvalidModels(stages)
  {
    errors := [];
    for i := 0 to |stages|
      invariant errors == InvalidModels(stages[..i])
    {
      assert stages[..i + 1][..i] == stages[..i];
      if stages[i].model !in VALID_MODELS {
        errors := errors + [InvalidModel(stages[i].name, stages[i].model)];
      }
    }
    assert stages[..|stages|] == stages;
  }

  ghost predicate IsValidation(stages: seq<Stage>, errors: seq<ValidationError>) {
    exists report :: IsCycleReport(stages, report)
      && errors == AllUnknownDeps(stages, DepsMap(stages).Keys) + report + InvalidModels(stages)
  }

  method Validate(stages: seq<Stage>) returns (errors: seq<ValidationError>)
    ensures IsValidation(stages, errors)
  {
    var unknown := UnknownDependencyErrors(stages);
    var report := CycleErrors(stages);
    var models := ModelErrors(stages);
    errors := unknown + report + models;
  }

  /** What the search over the roots has established when it stops at root `i` or runs out of roots. */
  lemma CycleReportFound(stages: seq<Stage>, i: nat, report: seq<ValidationError>)
    requires i <= |stages|
    requires forall j :: 0 <= j < i ==> !ReachesCycle(DepsMap(stages), stages[j].name)
    requires if i < |stages|
             then ReachesCycle(DepsMap(stages), stages[i].name) && report == [DependencyCycle(stages[i].name)]
             else report == []
    ensures IsCycleReport(stages, report)
  {
    var g := DepsMap(stages);
    CyclicIffSomeDeclared(g);
    if i < |stages| {
      assert Cyclic(g);
    } else if Cyclic(g) {
      var n :| n in g && ReachesCycle(g, n);
      var k := KeyHasStage(stages, n);
      assert false;
    }
  }

  lemma {:induction false} KeyHasStage(stages: seq<Stage>, n: Name) returns (k: nat)
    requires n in DepsMap(stages)
    ensures k < |stages| && stages[k].name == n
  {
    k := |stages| - 1;
    if stages[k].name != n {
      k := KeyHasStage(stages[..k], n);
    }
  }

  lemma {:induction false} UnknownDepsEmpty(name: Name, deps: seq<Name>, known: set<Name>)
    ensures UnknownDeps(name, deps, known) == [] <==> forall d :: d in deps ==> d in known
  {
    if deps != [] {
      var rest := deps[..|deps| - 1];
      UnknownDepsEmpty(name, rest, known);
      assert deps == rest + [deps[|deps| - 1]];
    }
  }

  lemma {:induction false} AllUnknownDepsEmpty(stages: seq<Stage>, known: set<Name>)
    ensures AllUnknownDeps(stages, known) == [] <==>
      forall i, d :: 0 <= i < |stages| && d in stages[i].dependsOn ==> d in known
  {
    if stages != [] {
      AllUnknownDepsEmpty(stages[..|stages| - 1], known);
      UnknownDepsEmpty(stages[|stages| - 1].name, stages[|stages| - 1].dependsOn, known);
      assert forall i :: 0 <= i < |stages| - 1 ==> stages[..|stages| - 1][i] == stages[i];
    }
  }

  // ---------------------------------------------------------------------------
  // Ordering
  // ---------------------------------------------------------------------------

  ghost function Names(batch: seq<Stage>): set<Name> {
    set s | s in batch :: s.name
  }

  predicate IsReady(s: Stage, done: set<Name>) {
    s.name !in done && forall d :: d in s.dependsOn ==> d in done
  }

  /** The stages of one round: unplaced, with every dependency placed, in dictionary order. */
  function Ready(order: seq<Name>, named: map<Name, Stage>, done: set<Name>): seq<Stage>
    requires forall n :: n in order ==> n in named
  {
    if order == [] then []
    else
      var s := named[order[|order| - 1]];
      Ready(order[..|order| - 1], named, done) + if IsReady(s, done) then [s] else []
  }

  lemma {:induction false} ReadyMembers(order: seq<Name>, named: map<Name, Stage>, done: set<Name>)
    requires forall n :: n in order ==> n in named && named[n].name == n
    ensures forall s :: s in Ready(order, named, done) <==> exists n :: n in order && s == named[n] && IsReady(s, done)
  {
    if order != [] {
      var rest := order[..|order| - 1];
      ReadyMembers(rest, named, done);
      assert order == rest + [order[|order| - 1]];
    }
  }

  /** `x` was inserted into the dictionary before `y`. */
  ghost predicate Precedes(order: seq<Name>, x: Name, y: Name) {
    exists i, j :: 0 <= i < j < |order| && order[i] == x && order[j] == y
  }

  ghost predicate InOrder(order: seq<Name>, batch: seq<Stage>) {
    forall i, j :: 0 <= i < j < |batch| ==> Precedes(order, batch[i].name, batch[j].name)
  }

  /** One round of the ordering: the stages that layer k + 1 adds to layer k, each once, in dictionary order. */
  ghost predicate IsBatch(stages: seq<Stage>, batch: seq<Stage>, k: nat) {
    var g := DepsMap(stages);
    && batch != []
    && (forall n :: n in Names(batch) <==> n in Layer(g, k + 1) && n !in Layer(g, k))
    && (forall s :: s in batch ==> s in stages && s.name in g && s.dependsOn == g[s.name])
    && InOrder(KeyOrder(stages), batch)
  }

  ghost predicate AreBatches(stages: seq<Stage>, batches: seq<seq<Stage>>) {
    forall i :: 0 <= i < |batches| ==> IsBatch(stages, batches[i], i)
  }

  lemma AppendBatch(stages: seq<Stage>, batches: seq<seq<Stage>>, ready: seq<Stage>)
    requires AreBatches(stages, batches) && IsBatch(stages, ready, |batches|)
    ensures AreBatches(stages, batches + [ready])
  {
    forall i | 0 <= i < |batches + [ready]| ensures IsBatch(stages, (batches + [ready])[i], i) {
      if i < |batches| {
        assert (batches + [ready])[i] == batches[i];
        assert IsBatch(stages, batches[i], i);
      } else {
        assert (batches + [ready])[i] == ready;
      }
    }
  }

  /** Batches are the successive layers of the graph, and the last one left nothing more to place. */
  ghost predicate IsLayering(stages: seq<Stage>, batches: seq<seq<Stage>>) {
    && AreBatches(stages, batches)
    && Layer(DepsMap(stages), |batches|) == Layer(DepsMap(stages), |batches| + 1)
  }

  lemma {:induction false} ReadyInOrder(order: seq<Name>, named: map<Name, Stage>, done: set<Name>)
    requires forall n :: n in order ==> n in named && named[n].name == n
    ensures InOrder(order, Ready(order, named, done))
  {
    if order != [] {
      var rest := order[..|order| - 1];
      ReadyInOrder(rest, named, done);
      ReadyMembers(rest, named, done);
      var batch, before := Ready(order, named, done), Ready(rest, named, done);
      forall i, j | 0 <= i < j < |batch| ensures Precedes(order, batch[i].name, batch[j].name) {
        assert batch[i] == before[i] && before[i] in before;
        if j < |before| {
          assert batch[j] == before[j];
          assert Precedes(rest, before[i].name, before[j].name);
          var x, y :| 0 <= x < y < |rest| && rest[x] == before[i].name && rest[y] == before[j].name;
          assert order[x] == rest[x] && order[y] == rest[y];
        } else {
          var x :| 0 <= x < |rest| && rest[x] == before[i].name;
          assert order[x] == rest[x] && order[|order| - 1] == batch[j].name;
        }
      }
    }
  }

  method ReadyStages(order: seq<Name>, named: map<Name, Stage>, completed: set<Name>) returns (ready: seq<Stage>)
    requires forall n :: n in order ==> n in named
    ensures ready == Ready(order, named, completed)
  {
    ready := [];
    for i := 0 to |order|
      invariant ready == Ready(order[..i], named, completed)
    {
      assert order[..i + 1][..i] == order[..i];
      if IsReady(named[order[i]], completed) {
        ready := ready + [named[order[i]]];
      }
    }
    assert order[..|order|] == order;
  }

  method MarkCompleted(ready: seq<Stage>, before: set<Name>) returns (completed: set<Name>)
    ensures completed == before + Names(ready)
  {
    completed := before;
    for i := 0 to |ready|
      invariant completed == before + Names(ready[..i])
    {
      assert ready[..i + 1] == ready[..i] + [ready[i]];
      completed := completed + {ready[i].name};
    }
    assert ready[..|ready|] == ready;
  }

  method TopologicalOrder(stages: seq<Stage>) returns (batches: seq<seq<Stage>>)
    ensures IsLayering(stages, batches)
  {
    var order, named := KeyOrder(stages), StageMap(stages);
    var completed: set<Name> := {};
    batches := [];
    while |completed| < |stages|
      invariant UpTo(stages, batches, completed)
      decreases DepsMap(stages).Keys - completed
    {
      var ready := ReadyStages(order, named, completed);
      if ready == [] {
        break;
      }
      NextRound(stages, batches, completed, ready);
      completed := MarkCompleted(ready, completed);
      batches := batches + [ready];
    }
    LastRound(stages, batches, completed);
  }

  /** The state between two rounds. */
  ghost predicate UpTo(stages: seq<Stage>, batches: seq<seq<Stage>>, completed: set<Name>) {
    AreBatches(stages, batches) && completed == Layer(DepsMap(stages), |batches|)
  }

  lemma NextRound(stages: seq<Stage>, batches: seq<seq<Stage>>, completed: set<Name>, ready: seq<Stage>)
    requires UpTo(stages, batches, completed)
    requires ready == Ready(KeyOrder(stages), StageMap(stages), completed) && ready != []
    ensures UpTo(stages, batches + [ready], completed + Names(ready))
    ensures DepsMap(stages).Keys - (completed + Names(ready)) < DepsMap(stages).Keys - completed
  {
    RoundCompletesLayer(stages, |batches|);
    RoundIsBatch(stages, |batches|, ready);
    BatchAddsNames(stages, ready, |batches|);
    AppendBatch(stages, batches, ready);
  }

  /** The loop stops on an empty round or on a full count; either way another round would place nothing. */
  lemma LastRound(stages: seq<Stage>, batches: seq<seq<Stage>>, completed: set<Name>)
    requires UpTo(stages, batches, completed)
    requires |completed| >= |stages| || Ready(KeyOrder(stages), StageMap(stages), completed) == []
    ensures IsLayering(stages, batches)
  {
    if |completed| >= |stages| {
      EverythingPlaced(stages, |batches|);
    } else {
      RoundCompletesLayer(stages, |batches|);
    }
  }

  /** A round places exactly the names that the next layer adds. */
  lemma RoundNames(stages: seq<Stage>, k: nat, n: Name)
    ensures n in Names(Ready(KeyOrder(stages), StageMap(stages), Layer(DepsMap(stages), k)))
       <==> n in Layer(DepsMap(stages), k + 1) && n !in Layer(DepsMap(stages), k)
  {
    var g, named := DepsMap(stages), StageMap(stages);
    var ready := Ready(KeyOrder(stages), named, Layer(g, k));
    ReadyMembers(KeyOrder(stages), named, Layer(g, k));
    assert n in Layer(g, k + 1) <==> n in Settled(g, Layer(g, k));
    if n in Layer(g, k + 1) && n !in Layer(g, k) {
      assert named[n] in ready;
    }
  }

  lemma RoundStages(stages: seq<Stage>, done: set<Name>)
    ensures forall s :: s in Ready(KeyOrder(stages), StageMap(stages), done) ==>
      s in stages && s.name in DepsMap(stages) && s.dependsOn == DepsMap(stages)[s.name]
  {
    ReadyMembers(KeyOrder(stages), StageMap(stages), done);
  }

  lemma RoundIsBatch(stages: seq<Stage>, k: nat, ready: seq<Stage>)
    requires ready == Ready(KeyOrder(stages), StageMap(stages), Layer(DepsMap(stages), k)) && ready != []
    ensures IsBatch(stages, ready, k)
  {
    forall n ensures n in Names(ready) <==> n in Layer(DepsMap(stages), k + 1) && n !in Layer(DepsMap(stages), k) {
      RoundNames(stages, k, n);
    }
    RoundStages(stages, Layer(DepsMap(stages), k));
    ReadyInOrder(KeyOrder(stages), StageMap(stages), Layer(DepsMap(stages), k));
  }

  lemma RoundCompletesLayer(stages: seq<Stage>, k: nat)
    ensures var g := DepsMap(stages);
      Layer(g, k) + Names(Ready(KeyOrder(stages), StageMap(stages), Layer(g, k))) == Layer(g, k + 1)
  {
    var g := DepsMap(stages);
    var added := Names(Ready(KeyOrder(stages), StageMap(stages), Layer(g, k)));
    LayerMonotone(g, k);
    forall n ensures n in Layer(g, k) + added <==> n in Layer(g, k + 1) {
      RoundNames(stages, k, n);
    }
  }

  /** A batch brings the layering strictly closer to the declared names. */
  lemma BatchAddsNames(stages: seq<Stage>, batch: seq<Stage>, k: nat)
    requires IsBatch(stages, batch, k)
    ensures DepsMap(stages).Keys - Layer(DepsMap(stages), k + 1) < DepsMap(stages).Keys - Layer(DepsMap(stages), k)
  {
    var g := DepsMap(stages);
    LayerMonotone(g, k);
    assert batch[0] in batch;
    assert batch[0].name in Names(batch);
    assert batch[0].name in g.Keys - Layer(g, k) && batch[0].name !in g.Keys - Layer(g, k + 1);
  }

  /** Only declared names are ever completed, so a full count means that all of them are. */
  lemma EverythingPlaced(stages: seq<Stage>, k: nat)
    requires |Layer(DepsMap(stages), k)| >= |stages|
    ensures Layer(DepsMap(stages), k) == Layer(DepsMap(stages), k + 1)
  {
    var g := DepsMap(stages);
    LayerMonotone(g, k);
    KeysFit(stages);
    FullSubset(Layer(g, k), g.Keys);
  }

  lemma FullSubset<T>(a: set<T>, b: set<T>)
    requires a <= b && |b| <= |a|
    ensures a == b
  {
    assert b == a + (b - a);
    assert |b| == |a| + |b - a|;
  }

  ghost predicate InBatch(batches: seq<seq<Stage>>, i: nat, n: Name)
    requires i < |batches|
  {
    exists s :: s in batches[i] && s.name == n
  }

  lemma BatchIsLayerDifference(stages: seq<Stage>, batches: seq<seq<Stage>>, i: nat, n: Name)
    requires IsLayering(stages, batches) && i < |batches|
    ensures InBatch(batches, i, n) <==> n in Layer(DepsMap(stages), i + 1) && n !in Layer(DepsMap(stages), i)
  {
    assert IsBatch(stages, batches[i], i);
    assert InBatch(batches, i, n) <==> n in Names(batches[i]);
  }

  /** The batches as seen through their names only: the i-th holds what layer i + 1 adds to layer i. */
  ghost predicate SplitsLayers(g: Graph, batches: seq<seq<Stage>>) {
    forall i, n {:trigger InBatch(batches, i, n)} ::
      0 <= i < |batches| ==> (InBatch(batches, i, n) <==> n in Layer(g, i + 1) && n !in Layer(g, i))
  }

  lemma LayeringSplitsLayers(stages: seq<Stage>, batches: seq<seq<Stage>>)
    requires IsLayering(stages, batches)
    ensures SplitsLayers(DepsMap(stages), batches)
  {
    var g := DepsMap(stages);
    forall i: nat, n {:trigger InBatch(batches, i, n)} | i < |batches|
      ensures InBatch(batches, i, n) <==> n in Layer(g, i + 1) && n !in Layer(g, i)
    {
      BatchIsLayerDifference(stages, batches, i, n);
    }
  }

  lemma InOneBatch(g: Graph, batches: seq<seq<Stage>>, i: nat, k: nat, n: Name)
    requires SplitsLayers(g, batches) && i < |batches| && k < |batches|
    requires InBatch(batches, i, n) && InBatch(batches, k, n)
    ensures i == k
  {
    if i < k {
      LayerMonotoneFar(g, i + 1, k);
    } else if k < i {
      LayerMonotoneFar(g, k + 1, i);
    }
  }

  lemma {:induction false} LayerIsUnionOfBatches(g: Graph, batches: seq<seq<Stage>>, k: nat, n: Name)
    requires SplitsLayers(g, batches) && k <= |batches|
    ensures n in Layer(g, k) <==> exists i :: 0 <= i < k && InBatch(batches, i, n)
  {
    if k > 0 {
      LayerIsUnionOfBatches(g, batches, k - 1, n);
      LayerMonotone(g, k - 1);
      assert InBatch(batches, k - 1, n) <==> n in Layer(g, k) && n !in Layer(g, k - 1);
    }
  }

  lemma BatchNamesDistinct(stages: seq<Stage>, batch: seq<Stage>, k: nat)
    requires IsBatch(stages, batch, k)
    ensures forall i, j :: 0 <= i < j < |batch| ==> batch[i].name != batch[j].name
  {
    forall i, j | 0 <= i < j < |batch| ensures batch[i].name != batch[j].name {
      assert Precedes(KeyOrder(stages), batch[i].name, batch[j].name);
    }
  }

  /** No stage is placed twice, in the same batch or in two. */
  lemma PlacedOnce(stages: seq<Stage>, batches: seq<seq<Stage>>, i: nat, j: nat, k: nat, l: nat)
    requires IsLayering(stages, batches)
    requires i < |batches| && j < |batches[i]| && k < |batches| && l < |batches[k]|
    requires batches[i][j].name == batches[k][l].name
    ensures i == k && j == l
  {
    assert i == k by {
      LayeringSplitsLayers(stages, batches);
      InOneBatch(DepsMap(stages), batches, i, k, batches[i][j].name);
    }
    BatchNamesDistinct(stages, batches[i], i);
  }

  /** With or without validation, the stages placed are those with nothing undeclared and no cycle below them. */
  lemma PlacedIffGrounded(stages: seq<Stage>, batches: seq<seq<Stage>>, n: Name)
    requires IsLayering(stages, batches)
    ensures (exists i :: 0 <= i < |batches| && InBatch(batches, i, n)) <==> Grounded(DepsMap(stages), n)
  {
    var g := DepsMap(stages);
    LayeredIffGrounded(g, n);
    LayeringSplitsLayers(stages, batches);
    LayerIsUnionOfBatches(g, batches, |batches|, n);
    if |g| >= |batches| {
      LayerFixpoint(g, |batches|, |g|);
    } else {
      LayerMonotoneFar(g, |g|, |batches|);
    }
  }

  /** The batch number counts the longest chain of dependencies that starts at the stage. */
  lemma BatchNumberIsLongestChain(stages: seq<Stage>, batches: seq<seq<Stage>>, i: nat, n: Name)
    requires IsLayering(stages, batches) && i < |batches| && InBatch(batches, i, n)
    ensures forall p :: PathFrom(DepsMap(stages), n, p) ==> |p| <= i + 1
    ensures exists p :: PathFrom(DepsMap(stages), n, p) && |p| == i + 1
  {
    var g := DepsMap(stages);
    BatchIsLayerDifference(stages, batches, i, n);
    LayerIffChainsBounded(g, i + 1, n);
    var p := UnlayeredHasLongChain(g, i, n);
    LayerBoundsChains(g, i + 1, n, p);
  }

  /** Every dependency of a placed stage sits in a strictly earlier batch. */
  lemma DependenciesPlacedEarlier(stages: seq<Stage>, batches: seq<seq<Stage>>, i: nat, s: Stage, d: Name)
    requires IsLayering(stages, batches) && i < |batches| && s in batches[i] && d in s.dependsOn
    ensures exists k :: 0 <= k < i && InBatch(batches, k, d)
  {
    assert IsBatch(stages, batches[i], i);
    assert s.name in Names(batches[i]);
    LayeringSplitsLayers(stages, batches);
    LayerIsUnionOfBatches(DepsMap(stages), batches, i, d);
  }

  ghost predicate AllPlaced(stages: seq<Stage>, batches: seq<seq<Stage>>) {
    forall n :: n in DepsMap(stages) ==> exists i :: 0 <= i < |batches| && InBatch(batches, i, n)
  }

  /**
   The two algorithms agree. When validation reports neither a dangling reference nor a cycle, the ordering places
   every stage; with distinct names, an ordering that places every stage means validation would report neither.
   */
  lemma ValidationMeetsOrdering(stages: seq<Stage>, batches: seq<seq<Stage>>)
    requires IsLayering(stages, batches)
    ensures AllUnknownDeps(stages, DepsMap(stages).Keys) == [] && IsCycleReport(stages, []) ==>
      AllPlaced(stages, batches)
    ensures DistinctNames(stages) && AllPlaced(stages, batches) ==>
      AllUnknownDeps(stages, DepsMap(stages).Keys) == [] && IsCycleReport(stages, [])
  {
    var g := DepsMap(stages);
    AllLayeredIffSound(g);
    AllUnknownDepsEmpty(stages, g.Keys);
    forall n | n in g
      ensures n in Layer(g, |g|) <==> exists i :: 0 <= i < |batches| && InBatch(batches, i, n)
    {
      PlacedIffGrounded(stages, batches, n);
      LayeredIffGrounded(g, n);
    }
    forall i | 0 <= i < |stages|
      ensures stages[i].name in g && (DistinctNames(stages) ==> g[stages[i].name] == stages[i].dependsOn)
    {
      StageIsKey(stages, i);
    }
    if AllUnknownDeps(stages, g.Keys) == [] {
      forall n, d | n in g && d in g[n] ensures d in g {
        assert StageMap(stages)[n] in stages;
      }
    }
  }
}
