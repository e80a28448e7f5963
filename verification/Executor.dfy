/**
 Executing a pipeline: batch by batch, with the generator-verifier loop for a batch of one stage.

 A run is a trace of starts and finishes. Whether a stage completes or fails, and how the stages of one batch
 interleave, is left open, so the theorems hold for every outcome of the dispatched work.
 */
module Executor {

  import opened Wrappers
  import opened StageGraph
  import opened Pipeline

  /** Why a stage was executed: in its own batch, as the target of a loop, or again after a failed attempt. */
  datatype Kind = InBatch | Generator | Verifier

  datatype Event =
    | Started(stage: Name, kind: Kind)
    | Finished(stage: Name, kind: Kind, completed: bool)

  type Trace = seq<Event>

  // ---------------------------------------------------------------------------
  // What a run looks like
  // ---------------------------------------------------------------------------

  ghost predicate StageRun(n: Name, kind: Kind, t: Trace, ok: bool) {
    t == [Started(n, kind), Finished(n, kind, ok)]
  }

  /** The rounds of the loop from `iteration` on, entered because the last attempt failed. */
  ghost predicate Retries(s: Stage, target: Name, iteration: int, t: Trace, ok: bool)
    decreases s.maxIterations - iteration
  {
    if iteration >= s.maxIterations then t == [] && !ok
    else
      && |t| >= 4
      && (exists g :: StageRun(target, Generator, t[..2], g))
      && exists v :: StageRun(s.name, Verifier, t[2..4], v) &&
           if v then t[4..] == [] && ok else Retries(s, target, iteration + 1, t[4..], ok)
  }

  predicate CanLoop(stages: seq<Stage>, s: Stage) {
    s.loopTo.Some? && s.loopTo.value.text != "" && exists i :: 0 <= i < |stages| && stages[i].name == s.loopTo.value
  }

  ghost predicate SingleRun(stages: seq<Stage>, s: Stage, t: Trace, ok: bool) {
    && |t| >= 2
    && exists first :: StageRun(s.name, InBatch, t[..2], first) &&
         if !first && CanLoop(stages, s) then Retries(s, s.loopTo.value, 1, t[2..], ok)
         else t[2..] == [] && ok == first
  }

  predicate HasFinished(t: Trace, n: Name) {
    Finished(n, InBatch, true) in t || Finished(n, InBatch, false) in t
  }

  /** Every stage of the batch starts once and then finishes once, in any interleaving. */
  ghost predicate ParallelRun(batch: seq<Stage>, t: Trace, ok: bool) {
    && |t| == 2 * |batch|
    && (forall e :: e in t ==> e.kind == InBatch && e.stage in Names(batch))
    && (forall i, j :: 0 <= i < j < |t| && t[i].stage == t[j].stage ==> t[i].Started? && t[j].Finished?)
    && (forall n :: n in Names(batch) ==> HasFinished(t, n))
    && (ok <==> forall e :: e in t && e.Finished? ==> e.completed)
  }

  ghost predicate BatchRun(stages: seq<Stage>, batch: seq<Stage>, t: Trace, ok: bool) {
    if |batch| == 1 then SingleRun(stages, batch[0], t, ok) else ParallelRun(batch, t, ok)
  }

  /** One trace per batch, for the first batches of the list, none of which failed. */
  ghost predicate CleanRun(stages: seq<Stage>, batches: seq<seq<Stage>>, parts: seq<Trace>) {
    |parts| <= |batches| && forall i :: 0 <= i < |parts| ==> BatchRun(stages, batches[i], parts[i], true)
  }

  /** As a clean run, but the last batch ended as `ok` says. */
  ghost predicate PartialRun(stages: seq<Stage>, batches: seq<seq<Stage>>, parts: seq<Trace>, ok: bool) {
    && |parts| <= |batches|
    && forall i :: 0 <= i < |parts| ==> BatchRun(stages, batches[i], parts[i], ok || i < |parts| - 1)
  }

  /** All batches ran cleanly, or the run stopped at the first batch that failed. */
  ghost predicate IsRun(stages: seq<Stage>, batches: seq<seq<Stage>>, parts: seq<Trace>, ok: bool) {
    PartialRun(stages, batches, parts, ok) && if ok then |parts| == |batches| else parts != []
  }

  /** The whole trace of a run. */
  function Join(parts: seq<Trace>): Trace {
    if parts == [] then [] else Join(parts[..|parts| - 1]) + parts[|parts| - 1]
  }

  // ---------------------------------------------------------------------------
  // The executor
  // ---------------------------------------------------------------------------

  /** Dispatching one stage: the outcome is not known to the pipeline. */
  method ExecuteStage(n: Name, kind: Kind) returns (t: Trace, ok: bool)
    ensures StageRun(n, kind, t, ok)
  {
    ok := *;
    t := [Started(n, kind), Finished(n, kind, ok)];
  }

  method RunSingle(stages: seq<Stage>, s: Stage) returns (t: Trace, ok: bool)
    ensures SingleRun(stages, s, t, ok)
  {
    t, ok := ExecuteStage(s.name, InBatch);
    if !ok && CanLoop(stages, s) {
      var again;
      again, ok := RunRetries(s, s.loopTo.value);
      assert (t + again)[..2] == t && (t + again)[2..] == again;
      t := t + again;
    } else {
      assert t[..2] == t;
    }
  }

  /** The generator-verifier loop, entered because the stage has just failed. */
  method RunRetries(s: Stage, target: Name) returns (t: Trace, ok: bool)
    ensures Retries(s, target, 1, t, ok)
  {
    t, ok := [], false;
    var iteration := 1;
    assert forall rest: Trace :: t + rest == rest;
    while !ok && iteration < s.maxIterations
      invariant 1 <= iteration
      invariant ok ==> Retries(s, target, 1, t, true)
      invariant !ok ==> forall rest, v :: Retries(s, target, iteration, rest, v) ==> Retries(s, target, 1, t + rest, v)
      decreases s.maxIterations - iteration
    {
      var g, gOk := ExecuteStage(target, Generator);
      var v, vOk := ExecuteStage(s.name, Verifier);
      assert (g + v)[..2] == g && (g + v)[2..] == v;
      RoundExtends(s, target, iteration, t, g + v, vOk);
      t := t + (g + v);
      ok := vOk;
      iteration := iteration + 1;
    }
    assert t + [] == t;
  }

  /** One round of the loop in front of whatever follows it. */
  lemma RoundExtends(s: Stage, target: Name, iteration: int, before: Trace, round: Trace, ok: bool)
    requires 1 <= iteration < s.maxIterations && |round| == 4
    requires exists g :: StageRun(target, Generator, round[..2], g)
    requires StageRun(s.name, Verifier, round[2..], ok)
    requires forall rest, v :: Retries(s, target, iteration, rest, v) ==> Retries(s, target, 1, before + rest, v)
    ensures ok ==> Retries(s, target, 1, before + round, true)
    ensures !ok ==> forall rest, v :: Retries(s, target, iteration + 1, rest, v) ==>
      Retries(s, target, 1, before + round + rest, v)
  {
    if ok {
      assert round[2..4] == round[2..] && round[4..] == [];
      assert Retries(s, target, iteration, round, true);
    } else {
      forall rest, v | Retries(s, target, iteration + 1, rest, v)
        ensures Retries(s, target, 1, before + round + rest, v)
      {
        var all := round + rest;
        assert all[..2] == round[..2] && all[2..4] == round[2..] && all[4..] == rest;
        assert Retries(s, target, iteration, all, v);
        assert before + round + rest == before + all;
      }
    }
  }

  /** A batch part of the way: some stages have not started, some are running, the others have finished. */
  ghost predicate Underway(all: set<Name>, waiting: set<Name>, running: set<Name>, t: Trace, ok: bool) {
    && waiting + running <= all && waiting !! running
    && |t| + 2 * |waiting| + |running| == 2 * |all|
    && (forall e :: e in t ==> e.kind == InBatch && e.stage in all - waiting && (e.stage in running ==> e.Started?))
    && (forall i, j :: 0 <= i < j < |t| && t[i].stage == t[j].stage ==> t[i].Started? && t[j].Finished?)
    && (forall n :: n in all - waiting - running ==> HasFinished(t, n))
    && (ok <==> forall e :: e in t && e.Finished? ==> e.completed)
  }

  lemma StartOne(all: set<Name>, waiting: set<Name>, running: set<Name>, t: Trace, ok: bool, n: Name)
    requires Underway(all, waiting, running, t, ok) && n in waiting
    ensures Underway(all, waiting - {n}, running + {n}, t + [Started(n, InBatch)], ok)
  {
    var t' := t + [Started(n, InBatch)];
    assert |waiting - {n}| == |waiting| - 1 && |running + {n}| == |running| + 1;
    forall i, j | 0 <= i < j < |t'| && t'[i].stage == t'[j].stage ensures t'[i].Started? && t'[j].Finished? {
      assert t[i] in t;
    }
    forall m | m in all - (waiting - {n}) - (running + {n}) ensures HasFinished(t', m) {
      assert HasFinished(t, m);
    }
    forall e | e in t ensures e in t' {
    }
  }

  lemma FinishOne(all: set<Name>, waiting: set<Name>, running: set<Name>, t: Trace, ok: bool, n: Name, completed: bool)
    requires Underway(all, waiting, running, t, ok) && n in running
    ensures Underway(all, waiting, running - {n}, t + [Finished(n, InBatch, completed)], ok && completed)
  {
    var t' := t + [Finished(n, InBatch, completed)];
    assert |running - {n}| == |running| - 1;
    forall i, j | 0 <= i < j < |t'| && t'[i].stage == t'[j].stage ensures t'[i].Started? && t'[j].Finished? {
      assert t[i] in t;
    }
    assert t'[|t|] in t';
    forall m | m in all - waiting - (running - {n}) ensures HasFinished(t', m) {
      assert m == n || HasFinished(t, m);
    }
    forall e | e in t ensures e in t' {
    }
  }

  method RunParallel(batch: seq<Stage>) returns (t: Trace, ok: bool)
    requires forall i, j :: 0 <= i < j < |batch| ==> batch[i].name != batch[j].name
    ensures ParallelRun(batch, t, ok)
  {
    var waiting := set s | s in batch :: s.name;
    var running: set<Name> := {};
    ghost var all := waiting;
    NamesCount(batch);
    t, ok := [], true;
    while waiting != {} || running != {}
      invariant Underway(all, waiting, running, t, ok)
      decreases 2 * |waiting| + |running|
    {
      var startNext: bool := *;
      if waiting != {} && (running == {} || startNext) {
        var n :| n in waiting;
        StartOne(all, waiting, running, t, ok, n);
        waiting, running, t := waiting - {n}, running + {n}, t + [Started(n, InBatch)];
      } else {
        var n :| n in running;
        var completed: bool := *;
        FinishOne(all, waiting, running, t, ok, n, completed);
        running, t, ok := running - {n}, t + [Finished(n, InBatch, completed)], ok && completed;
      }
    }
  }

  lemma {:induction false} NamesCount(batch: seq<Stage>)
    requires forall i, j :: 0 <= i < j < |batch| ==> batch[i].name != batch[j].name
    ensures |Names(batch)| == |batch|
  {
    if batch != [] {
      var rest := batch[..|batch| - 1];
      NamesCount(rest);
      assert batch == rest + [batch[|batch| - 1]];
      assert Names(batch) == Names(rest) + {batch[|batch| - 1].name};
    }
  }

  /** The executor: nothing runs unless validation is clean; then the batches run until one fails. */
  method Execute(stages: seq<Stage>) returns (errors: seq<ValidationError>, parts: seq<Trace>, ok: bool)
    ensures IsValidation(stages, errors)
    ensures errors != [] ==> parts == [] && !ok
    ensures errors == [] ==> exists batches :: IsLayering(stages, batches) && IsRun(stages, batches, parts, ok)
  {
    parts, ok := [], false;
    errors := Validate(stages);
    if errors == [] {
      var batches := TopologicalOrder(stages);
      parts, ok := RunBatches(stages, batches);
    }
  }

  method RunBatch(stages: seq<Stage>, batch: seq<Stage>, ghost k: nat) returns (part: Trace, ok: bool)
    requires IsBatch(stages, batch, k)
    ensures BatchRun(stages, batch, part, ok)
  {
    if |batch| == 1 {
      part, ok := RunSingle(stages, batch[0]);
    } else {
      BatchNamesDistinct(stages, batch, k);
      part, ok := RunParallel(batch);
    }
  }

  method RunBatches(stages: seq<Stage>, batches: seq<seq<Stage>>) returns (parts: seq<Trace>, ok: bool)
    requires forall k :: 0 <= k < |batches| ==> IsBatch(stages, batches[k], k)
    ensures IsRun(stages, batches, parts, ok)
  {
    parts := [];
    while |parts| < |batches|
      invariant |parts| <= |batches| && CleanRun(stages, batches, parts)
    {
      var part: Trace;
      part, ok := RunBatch(stages, batches[|parts|], |parts|);
      OneMoreRun(stages, batches, parts, part, ok);
      parts := parts + [part];
      if !ok {
        return;
      }
    }
    ok := true;
  }

  lemma OneMoreRun(stages: seq<Stage>, batches: seq<seq<Stage>>, parts: seq<Trace>, part: Trace, ok: bool)
    requires CleanRun(stages, batches, parts) && |parts| < |batches|
    requires BatchRun(stages, batches[|parts|], part, ok)
    ensures if ok then CleanRun(stages, batches, parts + [part]) else IsRun(stages, batches, parts + [part], false)
  {
  }

  // ---------------------------------------------------------------------------
  // What every run guarantees
  // ---------------------------------------------------------------------------

  /** How the last run of a stage on its own account ended; re-runs as a loop target do not count. */
  function Outcome(t: Trace, n: Name): Option<bool> {
    if t == [] then None
    else
      var e := t[|t| - 1];
      if e.Finished? && e.stage == n && e.kind != Generator then Some(e.completed) else Outcome(t[..|t| - 1], n)
  }

  /** Only these stages run on their own account. */
  ghost predicate OwnRunsIn(t: Trace, names: set<Name>) {
    forall e :: e in t && e.kind != Generator ==> e.stage in names
  }

  lemma {:induction false} OutcomeConcat(a: Trace, b: Trace, n: Name)
    ensures Outcome(a + b, n) == if Outcome(b, n).Some? then Outcome(b, n) else Outcome(a, n)
  {
    if b == [] {
      assert a + b == a;
    } else {
      assert (a + b)[..|a + b| - 1] == a + b[..|b| - 1];
      OutcomeConcat(a, b[..|b| - 1], n);
    }
  }

  lemma {:induction false} OutcomeElsewhere(t: Trace, names: set<Name>, n: Name)
    requires OwnRunsIn(t, names) && n !in names
    ensures Outcome(t, n) == None
  {
    if t != [] {
      assert t[|t| - 1] in t;
      assert OwnRunsIn(t[..|t| - 1], names);
      OutcomeElsewhere(t[..|t| - 1], names, n);
    }
  }

  lemma {:induction false} RetriesOutcome(s: Stage, target: Name, iteration: int, t: Trace, ok: bool)
    requires Retries(s, target, iteration, t, ok)
    ensures Outcome(t, s.name) == if t == [] then None else Some(ok)
    ensures t == [] ==> !ok
    ensures OwnRunsIn(t, {s.name})
    ensures forall e :: e in t ==> e.kind != InBatch
    ensures |t| <= 4 * if iteration < s.maxIterations then s.maxIterations - iteration else 0
    decreases s.maxIterations - iteration
  {
    if iteration < s.maxIterations {
      var round, rest := t[..4], t[4..];
      var g :| StageRun(target, Generator, t[..2], g);
      var v :| StageRun(s.name, Verifier, t[2..4], v) &&
        if v then rest == [] && ok else Retries(s, target, iteration + 1, rest, ok);
      assert round == [Started(target, Generator), Finished(target, Generator, g),
                       Started(s.name, Verifier), Finished(s.name, Verifier, v)];
      assert Outcome(round, s.name) == Some(v);
      assert t == round + rest;
      OutcomeConcat(round, rest, s.name);
      if !v {
        RetriesOutcome(s, target, iteration + 1, rest, ok);
      }
    }
  }

  /** A stage that failed and may loop is retried until it completes or its iterations are used up. */
  lemma SingleRunOutcome(stages: seq<Stage>, s: Stage, t: Trace, ok: bool)
    requires SingleRun(stages, s, t, ok)
    ensures Outcome(t, s.name) == Some(ok)
    ensures OwnRunsIn(t, {s.name}) && t[0] == Started(s.name, InBatch)
    ensures forall i :: 1 <= i < |t| && t[i].Started? ==> t[i].kind != InBatch
    ensures |t| <= 2 * StageBudget(s)
  {
    var first, rest := t[..2], t[2..];
    var c :| StageRun(s.name, InBatch, first, c) &&
      if !c && CanLoop(stages, s) then Retries(s, s.loopTo.value, 1, rest, ok) else rest == [] && ok == c;
    assert Outcome(first, s.name) == Some(c);
    assert t == first + rest;
    OutcomeConcat(first, rest, s.name);
    if !c && CanLoop(stages, s) {
      RetriesOutcome(s, s.loopTo.value, 1, rest, ok);
    }
    forall i | 2 <= i < |t| ensures t[i] in rest {
      assert t[i] == rest[i - 2];
    }
  }

  lemma {:induction false} LastFinishDecides(t: Trace, i: nat)
    requires i < |t| && t[i].Finished? && t[i].kind != Generator
    requires forall j :: i < j < |t| ==> t[j].stage != t[i].stage
    ensures Outcome(t, t[i].stage) == Some(t[i].completed)
  {
    if i < |t| - 1 {
      LastFinishDecides(t[..|t| - 1], i);
    }
  }

  lemma ParallelRunOutcome(batch: seq<Stage>, t: Trace, ok: bool, e: Event)
    requires ParallelRun(batch, t, ok) && e in t && e.Finished?
    ensures Outcome(t, e.stage) == Some(e.completed)
  {
    var i :| 0 <= i < |t| && t[i] == e;
    LastFinishDecides(t, i);
  }

  /** What a batch leaves behind, whichever way it ran. */
  lemma BatchRunOutcome(stages: seq<Stage>, batch: seq<Stage>, t: Trace, ok: bool)
    requires BatchRun(stages, batch, t, ok)
    ensures OwnRunsIn(t, Names(batch))
    ensures ok ==> forall n :: n in Names(batch) ==> Outcome(t, n) == Some(true)
    ensures !ok ==> exists n :: n in Names(batch) && Outcome(t, n) == Some(false)
  {
    if |batch| == 1 {
      SingleRunOutcome(stages, batch[0], t, ok);
      assert batch[0] in batch;
      assert Names(batch) == {batch[0].name};
    } else if ok {
      forall n | n in Names(batch) ensures Outcome(t, n) == Some(true) {
        assert HasFinished(t, n);
        var c :| Finished(n, InBatch, c) in t;
        ParallelRunOutcome(batch, t, ok, Finished(n, InBatch, c));
      }
    } else {
      var e :| e in t && e.Finished? && !e.completed;
      ParallelRunOutcome(batch, t, ok, e);
    }
  }

  /** When no batch failed, the last own run of every stage completed. */
  lemma {:induction false} CleanRunOutcome(stages: seq<Stage>, batches: seq<seq<Stage>>, parts: seq<Trace>,
    i: nat, n: Name)
    requires CleanRun(stages, batches, parts) && i < |parts| && n in Names(batches[i])
    ensures Outcome(Join(parts), n) == Some(true)
  {
    var last := |parts| - 1;
    BatchRunOutcome(stages, batches[last], parts[last], true);
    OutcomeConcat(Join(parts[..last]), parts[last], n);
    if n !in Names(batches[last]) {
      OutcomeElsewhere(parts[last], Names(batches[last]), n);
      CleanRunOutcome(stages, batches, parts[..last], i, n);
    }
  }

  ghost predicate Placed(batches: seq<seq<Stage>>, n: Name) {
    exists i :: 0 <= i < |batches| && n in Names(batches[i])
  }

  /** A run ends as completed exactly when the last own run of every placed stage completed. */
  lemma CompletedIffEveryStageCompleted(stages: seq<Stage>, batches: seq<seq<Stage>>, parts: seq<Trace>, ok: bool)
    requires IsRun(stages, batches, parts, ok)
    ensures ok <==> forall n :: Placed(batches, n) ==> Outcome(Join(parts), n) == Some(true)
  {
    if ok {
      forall n | Placed(batches, n) ensures Outcome(Join(parts), n) == Some(true) {
        var i :| 0 <= i < |batches| && n in Names(batches[i]);
        CleanRunOutcome(stages, batches, parts, i, n);
      }
    } else {
      var last := |parts| - 1;
      BatchRunOutcome(stages, batches[last], parts[last], false);
      var n :| n in Names(batches[last]) && Outcome(parts[last], n) == Some(false);
      OutcomeConcat(Join(parts[..last]), parts[last], n);
      assert Placed(batches, n);
    }
  }

  // What the loop executes, and how long it goes on.

  /** A stage of this name is declared. */
  predicate IsDeclared(stages: seq<Stage>, n: Name) {
    exists s :: s in stages && s.name == n
  }

  /**
   The rounds of the loop: the target as generator and then the stage as verifier, over and over; a verifier that
   completes is the last; and if none does, the rounds are as many as the iterations left.
   */
  lemma {:induction false} RetriesRounds(s: Stage, target: Name, iteration: int, t: Trace, ok: bool)
    requires Retries(s, target, iteration, t, ok)
    ensures forall i :: 0 <= i < |t| ==>
      if i % 4 < 2 then t[i].stage == target && t[i].kind == Generator
      else t[i].stage == s.name && t[i].kind == Verifier
    ensures forall i :: 0 <= i < |t| && t[i] == Finished(s.name, Verifier, true) ==> i == |t| - 1
    ensures !ok ==> |t| == 4 * if iteration < s.maxIterations then s.maxIterations - iteration else 0
    decreases s.maxIterations - iteration
  {
    if iteration < s.maxIterations {
      var rest := t[4..];
      var g :| StageRun(target, Generator, t[..2], g);
      var v :| StageRun(s.name, Verifier, t[2..4], v) &&
        if v then rest == [] && ok else Retries(s, target, iteration + 1, rest, ok);
      assert t[..4] == t[..2] + t[2..4];
      assert t[0] == t[..2][0] && t[1] == t[..2][1] && t[2] == t[2..4][0] && t[3] == t[2..4][1];
      if !v {
        RetriesRounds(s, target, iteration + 1, rest, ok);
      }
      forall i | 4 <= i < |t| ensures t[i] == rest[i - 4] && i % 4 == (i - 4) % 4 {
      }
    }
  }

  /** A stage whose loop target is declared, and is not the empty name, fails only after all its iterations. */
  lemma FailsAfterAllIterations(stages: seq<Stage>, s: Stage, t: Trace)
    requires SingleRun(stages, s, t, false)
    requires s.loopTo.Some? && s.loopTo.value.text != "" && IsDeclared(stages, s.loopTo.value)
    ensures |t| == 2 * StageBudget(s)
  {
    var declared :| declared in stages && declared.name == s.loopTo.value;
    var i :| 0 <= i < |stages| && stages[i] == declared;
    assert stages[i].name == s.loopTo.value;
    RetriesRounds(s, s.loopTo.value, 1, t[2..], false);
  }

  /** A stage whose loop target is not declared runs once, and its failure is the end. */
  lemma NoLoopToUndeclared(stages: seq<Stage>, s: Stage, t: Trace, ok: bool)
    requires SingleRun(stages, s, t, ok)
    requires s.loopTo.None? || s.loopTo.value.text == "" || !IsDeclared(stages, s.loopTo.value)
    ensures |t| == 2 && StageRun(s.name, InBatch, t, ok)
  {
    forall i | 0 <= i < |stages|
      ensures s.loopTo.None? || s.loopTo.value.text == "" || stages[i].name != s.loopTo.value
    {
      assert stages[i] in stages;
    }
    assert t[..2] + t[2..] == t;
  }

  lemma SingleRunIsDeclared(stages: seq<Stage>, s: Stage, t: Trace, ok: bool)
    requires SingleRun(stages, s, t, ok) && s in stages
    ensures forall i :: 0 <= i < |t| ==> IsDeclared(stages, t[i].stage)
  {
    if s.loopTo.Some? && s.loopTo.value.text != "" && IsDeclared(stages, s.loopTo.value) {
      var first, rest := t[..2], t[2..];
      var c :| StageRun(s.name, InBatch, first, c) &&
        if !c && CanLoop(stages, s) then Retries(s, s.loopTo.value, 1, rest, ok) else rest == [] && ok == c;
      if rest != [] {
        RetriesRounds(s, s.loopTo.value, 1, rest, ok);
      }
      forall i | 0 <= i < |t| ensures IsDeclared(stages, t[i].stage) {
        assert t[i] == if i < 2 then first[i] else rest[i - 2];
      }
    } else {
      NoLoopToUndeclared(stages, s, t, ok);
    }
  }

  lemma BatchRunIsDeclared(stages: seq<Stage>, batch: seq<Stage>, t: Trace, ok: bool)
    requires BatchRun(stages, batch, t, ok) && forall s :: s in batch ==> s in stages
    ensures forall i :: 0 <= i < |t| ==> IsDeclared(stages, t[i].stage)
  {
    if |batch| == 1 {
      assert batch[0] in batch;
      SingleRunIsDeclared(stages, batch[0], t, ok);
    } else {
      forall i | 0 <= i < |t| ensures IsDeclared(stages, t[i].stage) {
        assert t[i] in t;
        var s :| s in batch && s.name == t[i].stage;
      }
    }
  }

  /** Whatever a run executes, in a batch or in a loop, is a stage of the list. */
  lemma {:induction false} OnlyDeclaredRun(stages: seq<Stage>, batches: seq<seq<Stage>>, parts: seq<Trace>, ok: bool)
    requires IsLayering(stages, batches) && PartialRun(stages, batches, parts, ok)
    ensures forall i :: 0 <= i < |Join(parts)| ==> IsDeclared(stages, Join(parts)[i].stage)
  {
    if parts != [] {
      var last := |parts| - 1;
      OnlyDeclaredRun(stages, batches, parts[..last], true);
      assert IsBatch(stages, batches[last], last);
      BatchRunIsDeclared(stages, batches[last], parts[last], ok || last < |parts| - 1);
    }
  }

  // A stage starts only after its dependencies completed.

  lemma BatchStartBelongs(stages: seq<Stage>, batch: seq<Stage>, t: Trace, ok: bool, i: nat)
    requires BatchRun(stages, batch, t, ok) && i < |t| && t[i].Started? && t[i].kind == InBatch
    ensures t[i].stage in Names(batch) && OwnRunsIn(t[..i], Names(batch))
  {
    BatchRunOutcome(stages, batch, t, ok);
    assert t[i] in t;
  }

  lemma NotPlacedAgain(stages: seq<Stage>, batches: seq<seq<Stage>>, j: nat, m: nat, n: Name)
    requires IsLayering(stages, batches) && j < m < |batches| && Pipeline.InBatch(batches, j, n)
    ensures n !in Names(batches[m])
  {
    var g := DepsMap(stages);
    BatchIsLayerDifference(stages, batches, j, n);
    LayerMonotoneFar(g, j + 1, m);
    BatchIsLayerDifference(stages, batches, m, n);
    assert Pipeline.InBatch(batches, m, n) <==> n in Names(batches[m]);
  }

  lemma StartInBatchAfter(stages: seq<Stage>, batches: seq<seq<Stage>>, before: seq<Trace>, t: Trace, ok: bool,
    i: nat, d: Name)
    requires IsLayering(stages, batches) && CleanRun(stages, batches, before)
    requires |before| < |batches| && BatchRun(stages, batches[|before|], t, ok)
    requires i < |t| && t[i].Started? && t[i].kind == InBatch && d in Deps(DepsMap(stages), t[i].stage)
    ensures Outcome(Join(before) + t[..i], d) == Some(true)
  {
    var m := |before|;
    BatchStartBelongs(stages, batches[m], t, ok, i);
    assert IsBatch(stages, batches[m], m);
    var s :| s in batches[m] && s.name == t[i].stage;
    DependenciesPlacedEarlier(stages, batches, m, s, d);
    var j :| 0 <= j < m && Pipeline.InBatch(batches, j, d);
    assert d in Names(batches[j]);
    CleanRunOutcome(stages, batches, before, j, d);
    NotPlacedAgain(stages, batches, j, m, d);
    OutcomeElsewhere(t[..i], Names(batches[m]), d);
    OutcomeConcat(Join(before), t[..i], d);
  }

  /** In `t`, run after `before`, a stage starts in its batch only once its dependencies have completed. */
  ghost predicate StartsOrdered(g: Graph, before: Trace, t: Trace) {
    forall i, d :: 0 <= i < |t| && t[i].Started? && t[i].kind == InBatch && d in Deps(g, t[i].stage) ==>
      Outcome(before + t[..i], d) == Some(true)
  }

  lemma StartsOrderedConcat(g: Graph, a: Trace, b: Trace)
    requires StartsOrdered(g, [], a) && StartsOrdered(g, a, b)
    ensures StartsOrdered(g, [], a + b)
  {
    var t := a + b;
    forall i, d | 0 <= i < |t| && t[i].Started? && t[i].kind == InBatch && d in Deps(g, t[i].stage)
      ensures Outcome([] + t[..i], d) == Some(true)
    {
      if i < |a| {
        assert [] + t[..i] == [] + a[..i];
      } else {
        assert t[i] == b[i - |a|];
        assert [] + t[..i] == a + b[..i - |a|];
      }
    }
  }

  lemma BatchStartsOrdered(stages: seq<Stage>, batches: seq<seq<Stage>>, before: seq<Trace>, t: Trace, ok: bool)
    requires IsLayering(stages, batches) && CleanRun(stages, batches, before)
    requires |before| < |batches| && BatchRun(stages, batches[|before|], t, ok)
    ensures StartsOrdered(DepsMap(stages), Join(before), t)
  {
    forall i, d | 0 <= i < |t| && t[i].Started? && t[i].kind == InBatch && d in Deps(DepsMap(stages), t[i].stage)
      ensures Outcome(Join(before) + t[..i], d) == Some(true)
    {
      StartInBatchAfter(stages, batches, before, t, ok, i, d);
    }
  }

  lemma {:induction false} RunStartsOrdered(stages: seq<Stage>, batches: seq<seq<Stage>>, parts: seq<Trace>, ok: bool)
    requires IsLayering(stages, batches) && PartialRun(stages, batches, parts, ok)
    ensures StartsOrdered(DepsMap(stages), [], Join(parts))
  {
    if parts != [] {
      var before, last := parts[..|parts| - 1], parts[|parts| - 1];
      RunStartsOrdered(stages, batches, before, true);
      BatchStartsOrdered(stages, batches, before, last, ok);
      StartsOrderedConcat(DepsMap(stages), Join(before), last);
    }
  }

  /** Whenever a stage starts in its batch, the last own run of each of its dependencies has completed. */
  lemma StartsAfterDependencies(stages: seq<Stage>, batches: seq<seq<Stage>>, parts: seq<Trace>, ok: bool,
    i: nat, d: Name)
    requires IsLayering(stages, batches) && IsRun(stages, batches, parts, ok)
    requires i < |Join(parts)| && Join(parts)[i].Started? && Join(parts)[i].kind == InBatch
    requires d in Deps(DepsMap(stages), Join(parts)[i].stage)
    ensures Outcome(Join(parts)[..i], d) == Some(true)
  {
    RunStartsOrdered(stages, batches, parts, ok);
    assert [] + Join(parts)[..i] == Join(parts)[..i];
  }

  // The number of executions.

  /** One execution, and two for every further iteration the stage allows. */
  function StageBudget(s: Stage): nat {
    1 + 2 * if s.maxIterations > 1 then s.maxIterations - 1 else 0
  }

  function BatchBudget(batch: seq<Stage>): nat {
    if batch == [] then 0 else BatchBudget(batch[..|batch| - 1]) + StageBudget(batch[|batch| - 1])
  }

  /** The budget of the first m batches. */
  function Budget(batches: seq<seq<Stage>>, m: nat): nat
    requires m <= |batches|
  {
    if m == 0 then 0 else Budget(batches, m - 1) + BatchBudget(batches[m - 1])
  }

  lemma {:induction false} BudgetCoversBatch(batch: seq<Stage>)
    ensures |batch| <= BatchBudget(batch)
  {
    if batch != [] {
      BudgetCoversBatch(batch[..|batch| - 1]);
    }
  }

  lemma BatchRunWithinBudget(stages: seq<Stage>, batch: seq<Stage>, t: Trace, ok: bool)
    requires BatchRun(stages, batch, t, ok)
    ensures |t| <= 2 * BatchBudget(batch)
  {
    BudgetCoversBatch(batch);
    if |batch| == 1 {
      SingleRunOutcome(stages, batch[0], t, ok);
      assert batch[..0] == [];
    }
  }

  lemma {:induction false} RunWithinBudget(stages: seq<Stage>, batches: seq<seq<Stage>>, parts: seq<Trace>, ok: bool)
    requires PartialRun(stages, batches, parts, ok)
    ensures |Join(parts)| <= 2 * Budget(batches, |parts|)
  {
    if parts != [] {
      var last := |parts| - 1;
      RunWithinBudget(stages, batches, parts[..last], true);
      BatchRunWithinBudget(stages, batches[last], parts[last], ok);
    }
  }

  // The budget of the batches is covered by the budget of the stage list, because no stage is placed twice.

  function Flatten(batches: seq<seq<Stage>>, m: nat): seq<Stage>
    requires m <= |batches|
  {
    if m == 0 then [] else Flatten(batches, m - 1) + batches[m - 1]
  }

  lemma {:induction false} BatchBudgetConcat(a: seq<Stage>, b: seq<Stage>)
    ensures BatchBudget(a + b) == BatchBudget(a) + BatchBudget(b)
  {
    if b == [] {
      assert a + b == a;
    } else {
      assert (a + b)[..|a + b| - 1] == a + b[..|b| - 1];
      BatchBudgetConcat(a, b[..|b| - 1]);
    }
  }

  lemma {:induction false} FlattenBudget(batches: seq<seq<Stage>>, m: nat)
    requires m <= |batches|
    ensures BatchBudget(Flatten(batches, m)) == Budget(batches, m)
  {
    if m > 0 {
      FlattenBudget(batches, m - 1);
      BatchBudgetConcat(Flatten(batches, m - 1), batches[m - 1]);
    }
  }

  lemma {:induction false} FlattenDistinct(stages: seq<Stage>, batches: seq<seq<Stage>>, m: nat)
    requires IsLayering(stages, batches) && m <= |batches|
    ensures DistinctNames(Flatten(batches, m))
    ensures forall s :: s in Flatten(batches, m) ==> s in stages && s.name in Layer(DepsMap(stages), m)
  {
    if m > 0 {
      FlattenDistinct(stages, batches, m - 1);
      var before, batch := Flatten(batches, m - 1), batches[m - 1];
      assert IsBatch(stages, batch, m - 1);
      BatchNamesDistinct(stages, batch, m - 1);
      LayerMonotone(DepsMap(stages), m - 1);
      forall s | s in batch
        ensures s.name in Layer(DepsMap(stages), m) && s.name !in Layer(DepsMap(stages), m - 1)
      {
        assert s.name in Names(batch);
      }
      var all := before + batch;
      forall i, j | 0 <= i < j < |all| ensures all[i].name != all[j].name {
        if i < |before| <= j {
          assert before[i] in before && batch[j - |before|] in batch;
        }
      }
    }
  }

  lemma {:induction false} BudgetWithout(stages: seq<Stage>, i: nat)
    requires i < |stages|
    ensures BatchBudget(stages) == BatchBudget(stages[..i] + stages[i + 1..]) + StageBudget(stages[i])
  {
    var prefix := stages[..|stages| - 1];
    var others := stages[..i] + stages[i + 1..];
    if i < |prefix| {
      BudgetWithout(prefix, i);
      assert others[..|others| - 1] == prefix[..i] + prefix[i + 1..];
    } else {
      assert others == prefix;
    }
  }

  lemma {:induction false} DistinctBudget(chosen: seq<Stage>, stages: seq<Stage>)
    requires DistinctNames(chosen) && forall s :: s in chosen ==> s in stages
    ensures BatchBudget(chosen) <= BatchBudget(stages)
  {
    if chosen != [] {
      var last, rest := chosen[|chosen| - 1], chosen[..|chosen| - 1];
      assert last in chosen;
      var i :| 0 <= i < |stages| && stages[i] == last;
      var others := stages[..i] + stages[i + 1..];
      forall s | s in rest ensures s in others {
        assert s in chosen && s != last;
        assert stages == stages[..i] + [last] + stages[i + 1..];
      }
      DistinctBudget(rest, others);
      BudgetWithout(stages, i);
    }
  }

  /** Two trace events per execution: every run makes at most one execution per stage plus two per extra iteration. */
  lemma ExecutionsBounded(stages: seq<Stage>, batches: seq<seq<Stage>>, parts: seq<Trace>, ok: bool)
    requires IsLayering(stages, batches) && IsRun(stages, batches, parts, ok)
    ensures |Join(parts)| <= 2 * BatchBudget(stages)
  {
    RunWithinBudget(stages, batches, parts, ok);
    FlattenBudget(batches, |parts|);
    FlattenDistinct(stages, batches, |parts|);
    DistinctBudget(Flatten(batches, |parts|), stages);
  }

  // ---------------------------------------------------------------------------
  // What a completed run does not say
  // ---------------------------------------------------------------------------

  /** How the last execution of a stage ended, of whatever kind it was. */
  function LastExecution(t: Trace, n: Name): Option<bool> {
    if t == [] then None
    else
      var e := t[|t| - 1];
      if e.Finished? && e.stage == n then Some(e.completed) else LastExecution(t[..|t| - 1], n)
  }

  ghost predicate EndsWell(batches: seq<seq<Stage>>, t: Trace) {
    forall n :: Placed(batches, n) ==> LastExecution(t, n) == Some(true)
  }

  /** The i-th batch is one stage that can loop back to a stage of an earlier batch. */
  ghost predicate LoopsBack(stages: seq<Stage>, batches: seq<seq<Stage>>, i: nat, j: nat) {
    && j < i < |batches| && |batches[i]| == 1
    && CanLoop(stages, batches[i][0]) && batches[i][0].maxIterations > 1
    && batches[i][0].loopTo.value in Names(batches[j])
  }

  lemma {:induction false} LastConcat(a: Trace, b: Trace, n: Name)
    ensures LastExecution(a + b, n) == if LastExecution(b, n).Some? then LastExecution(b, n) else LastExecution(a, n)
  {
    if b == [] {
      assert a + b == a;
    } else {
      assert (a + b)[..|a + b| - 1] == a + b[..|b| - 1];
      LastConcat(a, b[..|b| - 1], n);
    }
  }

  lemma {:induction false} LastElsewhere(t: Trace, n: Name)
    requires forall i :: 0 <= i < |t| ==> t[i].stage != n
    ensures LastExecution(t, n) == None
  {
    if t != [] {
      LastElsewhere(t[..|t| - 1], n);
    }
  }

  lemma {:induction false} LastDecides(t: Trace, i: nat)
    requires i < |t| && t[i].Finished? && forall j :: i < j < |t| ==> t[j].stage != t[i].stage
    ensures LastExecution(t, t[i].stage) == Some(t[i].completed)
  {
    if i < |t| - 1 {
      LastDecides(t[..|t| - 1], i);
    }
  }

  /** A loop that succeeds ends with the verifier's success, and executes no stage but the two. */
  lemma {:induction false} RetriesEnd(s: Stage, target: Name, iteration: int, t: Trace)
    requires Retries(s, target, iteration, t, true)
    ensures iteration < s.maxIterations && |t| >= 1 && t[|t| - 1] == Finished(s.name, Verifier, true)
    ensures forall i :: 0 <= i < |t| ==> t[i].stage == s.name || t[i].stage == target
    decreases s.maxIterations - iteration
  {
    var round, rest := t[..4], t[4..];
    var v :| StageRun(s.name, Verifier, t[2..4], v) &&
      if v then rest == [] else Retries(s, target, iteration + 1, rest, true);
    var g :| StageRun(target, Generator, t[..2], g);
    assert t == t[..2] + t[2..4] + rest;
    if !v {
      RetriesEnd(s, target, iteration + 1, rest);
    }
  }

  /** A batch that did not fail: its stages ended well, and only the target of a loop was executed besides them. */
  lemma BatchEnd(stages: seq<Stage>, batch: seq<Stage>, t: Trace, n: Name)
    requires BatchRun(stages, batch, t, true)
    ensures n in Names(batch) ==> LastExecution(t, n) == Some(true)
    ensures n !in Names(batch) && LastExecution(t, n).Some? ==>
      |batch| == 1 && CanLoop(stages, batch[0]) && batch[0].maxIterations > 1 && batch[0].loopTo.value == n
  {
    if |batch| == 1 {
      SingleEnd(stages, batch[0], t, n);
      assert batch[0] in batch;
      assert Names(batch) == {batch[0].name};
    } else if n in Names(batch) {
      assert HasFinished(t, n);
      var c :| Finished(n, InBatch, c) in t;
      var i :| 0 <= i < |t| && t[i] == Finished(n, InBatch, c);
      LastDecides(t, i);
    } else {
      forall i | 0 <= i < |t| ensures t[i].stage != n {
        assert t[i] in t;
      }
      LastElsewhere(t, n);
    }
  }

  lemma SingleEnd(stages: seq<Stage>, s: Stage, t: Trace, n: Name)
    requires SingleRun(stages, s, t, true)
    ensures n == s.name ==> LastExecution(t, n) == Some(true)
    ensures n != s.name && LastExecution(t, n).Some? ==>
      CanLoop(stages, s) && s.maxIterations > 1 && s.loopTo.value == n
  {
    var first, rest := t[..2], t[2..];
    var c :| StageRun(s.name, InBatch, first, c) &&
      if !c && CanLoop(stages, s) then Retries(s, s.loopTo.value, 1, rest, true) else rest == [] && c;
    assert t == first + rest;
    if !c {
      RetriesEnd(s, s.loopTo.value, 1, rest);
      if n != s.name && n != s.loopTo.value {
        LastElsewhere(t, n);
      }
    } else if n != s.name {
      LastElsewhere(t, n);
    }
    if n == s.name {
      LastDecides(t, |t| - 1);
    }
  }

  lemma {:induction false} RunEndsWell(stages: seq<Stage>, batches: seq<seq<Stage>>, parts: seq<Trace>, i: nat, n: Name)
    requires CleanRun(stages, batches, parts) && i < |parts| && n in Names(batches[i])
    requires forall k, j :: !LoopsBack(stages, batches, k, j)
    ensures LastExecution(Join(parts), n) == Some(true)
  {
    var last := |parts| - 1;
    BatchEnd(stages, batches[last], parts[last], n);
    LastConcat(Join(parts[..last]), parts[last], n);
    if n !in Names(batches[last]) {
      assert !LoopsBack(stages, batches, last, i);
      RunEndsWell(stages, batches, parts[..last], i, n);
    }
  }

  // A run in which the loop goes back to a stage that fails this time.

  /** Every stage of the batch runs and completes, one after the other. */
  function AllWell(batch: seq<Stage>): Trace {
    if batch == [] then []
    else
      var n := batch[|batch| - 1].name;
      AllWell(batch[..|batch| - 1]) + [Started(n, InBatch), Finished(n, InBatch, true)]
  }

  lemma OneWell(all: set<Name>, waiting: set<Name>, t: Trace, n: Name)
    requires Underway(all, waiting, {}, t, true) && n in waiting
    ensures Underway(all, waiting - {n}, {}, t + [Started(n, InBatch), Finished(n, InBatch, true)], true)
  {
    StartOne(all, waiting, {}, t, true, n);
    assert {} + {n} - {n} == {};
    FinishOne(all, waiting - {n}, {} + {n}, t + [Started(n, InBatch)], true, n, true);
    assert t + [Started(n, InBatch)] + [Finished(n, InBatch, true)]
      == t + [Started(n, InBatch), Finished(n, InBatch, true)];
  }

  lemma {:induction false} AllWellUnderway(all: set<Name>, batch: seq<Stage>, waiting: set<Name>, t: Trace)
    requires forall i, j :: 0 <= i < j < |batch| ==> batch[i].name != batch[j].name
    requires all == Names(batch) + waiting && Names(batch) !! waiting && t == AllWell(batch)
    ensures Underway(all, waiting, {}, t, true)
  {
    if batch != [] {
      var rest, n := batch[..|batch| - 1], batch[|batch| - 1].name;
      LastName(batch, n);
      AllWellUnderway(all, rest, waiting + {n}, AllWell(rest));
      assert (waiting + {n}) - {n} == waiting;
      OneWell(all, waiting + {n}, AllWell(rest), n);
    }
  }

  lemma LastName(batch: seq<Stage>, n: Name)
    requires batch != [] && n == batch[|batch| - 1].name
    requires forall i, j :: 0 <= i < j < |batch| ==> batch[i].name != batch[j].name
    ensures Names(batch) == Names(batch[..|batch| - 1]) + {n} && n !in Names(batch[..|batch| - 1])
  {
    assert batch == batch[..|batch| - 1] + [batch[|batch| - 1]];
  }

  lemma AllWellIsRun(batch: seq<Stage>)
    requires forall i, j :: 0 <= i < j < |batch| ==> batch[i].name != batch[j].name
    ensures ParallelRun(batch, AllWell(batch), true)
  {
    AllWellUnderway(Names(batch), batch, {}, AllWell(batch));
    NamesCount(batch);
  }

  lemma AllWellIsBatchRun(stages: seq<Stage>, batch: seq<Stage>)
    requires forall i, j :: 0 <= i < j < |batch| ==> batch[i].name != batch[j].name
    ensures BatchRun(stages, batch, AllWell(batch), true)
    ensures forall i :: 0 <= i < |AllWell(batch)| ==> AllWell(batch)[i].stage in Names(batch)
  {
    AllWellIsRun(batch);
    forall i | 0 <= i < |AllWell(batch)| ensures AllWell(batch)[i].stage in Names(batch) {
      assert AllWell(batch)[i] in AllWell(batch);
    }
    if |batch| == 1 {
      assert batch[..0] == [];
      assert AllWell(batch) == [Started(batch[0].name, InBatch), Finished(batch[0].name, InBatch, true)];
      assert StageRun(batch[0].name, InBatch, AllWell(batch)[..2], true);
    }
  }

  /** The stage fails, the target fails on its re-run, and the stage then completes. */
  function LoopedBack(s: Name, target: Name): Trace {
    [Started(s, InBatch), Finished(s, InBatch, false), Started(target, Generator), Finished(target, Generator, false),
     Started(s, Verifier), Finished(s, Verifier, true)]
  }

  lemma LoopedBackIsRun(stages: seq<Stage>, s: Stage)
    requires CanLoop(stages, s) && s.maxIterations > 1
    ensures SingleRun(stages, s, LoopedBack(s.name, s.loopTo.value), true)
    ensures s.loopTo.value != s.name ==>
      LastExecution(LoopedBack(s.name, s.loopTo.value), s.loopTo.value) == Some(false)
  {
    var t := LoopedBack(s.name, s.loopTo.value);
    var again := t[2..];
    assert StageRun(s.loopTo.value, Generator, again[..2], false);
    assert StageRun(s.name, Verifier, again[2..4], true);
    assert Retries(s, s.loopTo.value, 1, again, true);
    assert StageRun(s.name, InBatch, t[..2], false);
    if s.loopTo.value != s.name {
      LastDecides(t, 3);
    }
  }

  /** The k-th part of a run in which all batches run well but for the i-th, which loops back. */
  function LoopingPart(batches: seq<seq<Stage>>, i: nat, target: Name, k: nat): Trace
    requires i < |batches| && |batches[i]| == 1 && k < |batches|
  {
    if k == i then LoopedBack(batches[i][0].name, target) else AllWell(batches[k])
  }

  function LoopingParts(batches: seq<seq<Stage>>, i: nat, target: Name, m: nat): (parts: seq<Trace>)
    requires i < |batches| && |batches[i]| == 1 && m <= |batches|
    ensures |parts| == m && forall k :: 0 <= k < m ==> parts[k] == LoopingPart(batches, i, target, k)
  {
    if m == 0 then [] else LoopingParts(batches, i, target, m - 1) + [LoopingPart(batches, i, target, m - 1)]
  }

  ghost predicate Untouched(t: Trace, n: Name) {
    LastExecution(t, n) == None
  }

  /** The last part that touches a stage decides. */
  lemma {:induction false} LastOfJoin(parts: seq<Trace>, i: nat, n: Name)
    requires i < |parts| && LastExecution(parts[i], n).Some?
    requires forall k :: i < k < |parts| ==> Untouched(parts[k], n)
    ensures LastExecution(Join(parts), n) == LastExecution(parts[i], n)
  {
    var last := |parts| - 1;
    LastConcat(Join(parts[..last]), parts[last], n);
    if last > i {
      assert Untouched(parts[last], n);
      LastOfJoin(parts[..last], i, n);
    }
  }

  /** The batches before and after the one that loops back run well, and those after it leave its target alone. */
  lemma LoopingPartIsRun(stages: seq<Stage>, batches: seq<seq<Stage>>, i: nat, j: nat, k: nat)
    requires IsLayering(stages, batches) && LoopsBack(stages, batches, i, j) && k < |batches|
    ensures BatchRun(stages, batches[k], LoopingPart(batches, i, batches[i][0].loopTo.value, k), true)
    ensures k > i ==> Untouched(LoopingPart(batches, i, batches[i][0].loopTo.value, k), batches[i][0].loopTo.value)
  {
    var target := batches[i][0].loopTo.value;
    assert IsBatch(stages, batches[k], k);
    BatchNamesDistinct(stages, batches[k], k);
    AllWellIsBatchRun(stages, batches[k]);
    LoopedBackIsRun(stages, batches[i][0]);
    if k > i {
      assert Pipeline.InBatch(batches, j, target);
      NotPlacedAgain(stages, batches, j, k, target);
      LastElsewhere(AllWell(batches[k]), target);
    }
  }

  /** If some batch loops back, there is a completed run after which the target's last execution failed. */
  lemma LoopBackCanEndBadly(stages: seq<Stage>, batches: seq<seq<Stage>>, i: nat, j: nat) returns (parts: seq<Trace>)
    requires IsLayering(stages, batches) && LoopsBack(stages, batches, i, j)
    ensures IsRun(stages, batches, parts, true)
    ensures Placed(batches, batches[i][0].loopTo.value)
    ensures LastExecution(Join(parts), batches[i][0].loopTo.value) == Some(false)
  {
    var s := batches[i][0];
    var target := s.loopTo.value;
    assert s in batches[i];
    assert s.name in Names(batches[i]);
    assert Pipeline.InBatch(batches, j, target);
    NotPlacedAgain(stages, batches, j, i, target);
    LoopedBackIsRun(stages, s);
    parts := LoopingParts(batches, i, target, |batches|);
    forall k | 0 <= k < |batches|
      ensures BatchRun(stages, batches[k], parts[k], true)
      ensures k > i ==> Untouched(parts[k], target)
    {
      LoopingPartIsRun(stages, batches, i, j, k);
    }
    LastOfJoin(parts, i, target);
  }

  /**
   When completing means that everything last ran well: every completed run leaves every placed stage with its last
   execution completed, of whatever kind that was, if and only if no stage that is alone in its batch can loop back to
   a stage of an earlier batch.
   */
  lemma CompletedEndsWellIffNoLoopBack(stages: seq<Stage>, batches: seq<seq<Stage>>)
    requires IsLayering(stages, batches)
    ensures (forall parts :: IsRun(stages, batches, parts, true) ==> EndsWell(batches, Join(parts)))
      <==> (forall i, j :: !LoopsBack(stages, batches, i, j))
  {
    if forall i, j :: !LoopsBack(stages, batches, i, j) {
      forall parts, n | IsRun(stages, batches, parts, true) && Placed(batches, n)
        ensures LastExecution(Join(parts), n) == Some(true)
      {
        var i :| 0 <= i < |batches| && n in Names(batches[i]);
        RunEndsWell(stages, batches, parts, i, n);
      }
    } else {
      var i, j :| LoopsBack(stages, batches, i, j);
      var parts := LoopBackCanEndBadly(stages, batches, i, j);
      assert !EndsWell(batches, Join(parts));
    }
  }

  const GEN := Name("gen")
  const CHECK := Name("check")

  /** A valid pipeline of that kind: a generator and its verifier. */
  lemma CompletedDespiteFailedGenerator() returns (stages: seq<Stage>, batches: seq<seq<Stage>>, parts: seq<Trace>)
    ensures IsValidation(stages, []) && IsLayering(stages, batches) && IsRun(stages, batches, parts, true)
    ensures Placed(batches, GEN) && LastExecution(Join(parts), GEN) == Some(false)
  {
    var gen := Stage(GEN, "opus", [], None, 3);
    var check := Stage(CHECK, "opus", [GEN], Some(GEN), 2);
    stages, batches := [gen, check], [[gen], [check]];
    TwoStages(gen, check);
    TwoStagesAreValid(gen, check);
    assert stages[0].name == GEN;
    assert gen in batches[0];
    assert LoopsBack(stages, batches, 1, 0);
    parts := LoopBackCanEndBadly(stages, batches, 1, 0);
  }

  lemma TwoLayers(g: Graph, x: Name, y: Name)
    requires x != y && g == map[x := [], y := [x]]
    ensures Layer(g, 0) == {} && Layer(g, 1) == {x} && Layer(g, 2) == {x, y} == Layer(g, 3)
  {
    assert x in g[y];
    assert Settled(g, {}) == {x};
    assert Settled(g, {x}) == {x, y};
    assert Settled(g, {x, y}) == {x, y};
    assert Layer(g, 1) == Settled(g, Layer(g, 0));
    assert Layer(g, 2) == Settled(g, Layer(g, 1));
  }

  lemma TwoStages(gen: Stage, check: Stage)
    requires gen.name != check.name && gen.dependsOn == [] && check.dependsOn == [gen.name]
    ensures IsLayering([gen, check], [[gen], [check]])
    ensures DepsMap([gen, check]) == map[gen.name := [], check.name := [gen.name]]
  {
    var stages := [gen, check];
    var g := DepsMap(stages);
    assert stages[..1] == [gen] && [gen][..0] == [];
    assert DepsMap([gen]) == map[gen.name := []];
    TwoLayers(g, gen.name, check.name);
    OneStageBatch(stages, gen, 0);
    OneStageBatch(stages, check, 1);
  }

  lemma OneStageBatch(stages: seq<Stage>, s: Stage, k: nat)
    requires s in stages && s.name in DepsMap(stages) && DepsMap(stages)[s.name] == s.dependsOn
    requires Layer(DepsMap(stages), k + 1) - Layer(DepsMap(stages), k) == {s.name}
    ensures IsBatch(stages, [s], k)
  {
    assert s in [s];
    assert Names([s]) == {s.name};
    var g := DepsMap(stages);
    forall n ensures n in Names([s]) <==> n in Layer(g, k + 1) && n !in Layer(g, k) {
      assert n in Layer(g, k + 1) - Layer(g, k) <==> n in {s.name};
    }
  }

  lemma TwoStagesAreValid(gen: Stage, check: Stage)
    requires gen.name != check.name && gen.dependsOn == [] && check.dependsOn == [gen.name]
    requires gen.model in VALID_MODELS && check.model in VALID_MODELS
    ensures IsValidation([gen, check], [])
  {
    var stages := [gen, check];
    var g := DepsMap(stages);
    TwoStages(gen, check);
    TwoLayers(g, gen.name, check.name);
    assert |g| == |g.Keys| && g.Keys == {gen.name, check.name};
    AllLayeredIffSound(g);
    AllUnknownDepsEmpty(stages, g.Keys);
    assert stages[..1] == [gen] && [gen][..0] == [];
    assert InvalidModels([gen]) == [];
    assert IsCycleReport(stages, []);
    assert AllUnknownDeps(stages, g.Keys) + [] + InvalidModels(stages) == [];
  }
}
