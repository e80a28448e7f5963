/**
 The in-memory listing of the task directories, validated by directory modification time.

 A lookup reads the modification time, then takes the lock, and only then scans the directory if the cached time is
 different; it files the scan under the time it read first. In between, other threads look things up and the directory
 changes. Every lookup still returns what the directory held at some moment of the call, exactly if its times tell.
 */
module TaskIndex {

  type Stage = nat
  type CallId = nat
  type Listing = seq<nat>    // the tasks of a directory, by content

  datatype Index = Index(cache: map<Stage, Listing>, mtimes: map<Stage, int>)

  /** The section under the lock: the time read earlier, and what a scan would find now. */
  function Lookup(ix: Index, stage: Stage, mtime: int, scan: Listing): (Index, Listing) {
    if stage in ix.mtimes && ix.mtimes[stage] == mtime
    then (ix, if stage in ix.cache then ix.cache[stage] else [])
    else (Index(ix.cache[stage := scan], ix.mtimes[stage := mtime]), scan)
  }

  function Invalidate(ix: Index, stage: Stage): Index {
    Index(ix.cache - {stage}, ix.mtimes - {stage})
  }

  class TaskIndex {
    var cache: map<Stage, Listing>
    var mtimes: map<Stage, int>

    function View(): Index
      reads this
    {
      Index(cache, mtimes)
    }

    constructor ()
      ensures View() == Index(map[], map[])
    {
      cache, mtimes := map[], map[];
    }

    method ListTasks(stage: Stage, currentMtime: int, scan: Listing) returns (tasks: Listing)
      modifies this
      ensures (View(), tasks) == Lookup(old(View()), stage, currentMtime, scan)
      ensures stage in old(mtimes) && old(mtimes)[stage] == currentMtime ==>
        View() == old(View()) && (stage in cache ==> tasks == cache[stage])
      ensures stage !in old(mtimes) || old(mtimes)[stage] != currentMtime ==> tasks == scan
      ensures stage !in old(mtimes) || old(mtimes)[stage] != currentMtime ==>
        cache == old(cache)[stage := scan] && mtimes == old(mtimes)[stage := currentMtime]
    {
      if stage in mtimes && mtimes[stage] == currentMtime {
        return if stage in cache then cache[stage] else [];
      }
      tasks := scan;
      cache := cache[stage := tasks];
      mtimes := mtimes[stage := currentMtime];
    }

    method InvalidateStage(stage: Stage)
      modifies this
      ensures View() == Invalidate(old(View()), stage)
      ensures cache == old(cache) - {stage} && mtimes == old(mtimes) - {stage}
    {
      mtimes := mtimes - {stage};
      cache := cache - {stage};
    }

    method InvalidateAll()
      modifies this
      ensures View() == Index(map[], map[])
    {
      mtimes, cache := map[], map[];
    }
  }

  // ---------------------------------------------------------------------------
  // Any number of threads, and a directory that keeps changing
  // ---------------------------------------------------------------------------

  /** One state of a directory; a directory is the sequence of its states so far. */
  datatype Version = Version(mtime: int, tasks: Listing)
  type Directory = seq<Version>

  /** A call that has read the time of version `from`, or has returned when the directory was at version `to`. */
  datatype Call = Looking(stage: Stage, from: nat) | Returned(stage: Stage, from: nat, to: nat, tasks: Listing)

  datatype World = World(dirs: map<Stage, Directory>, index: Index, calls: map<CallId, Call>)

  datatype Move =
    | Change(stage: Stage, version: Version)
    | Stat(call: CallId, stage: Stage)
    | Finish(call: CallId)
    | Forget(stage: Stage)
    | ForgetAll

  /** The directories exist and have a state from the start. */
  predicate Initial(w: World) {
    w.index == Index(map[], map[]) && w.calls == map[] && forall d :: d in w.dirs ==> |w.dirs[d]| == 1
  }

  function Step(w: World, m: Move): World {
    match m
    case Change(d, v) => if d in w.dirs then w.(dirs := w.dirs[d := w.dirs[d] + [v]]) else w
    case Stat(c, d) =>
      if d in w.dirs && |w.dirs[d]| > 0 && c !in w.calls
      then w.(calls := w.calls[c := Looking(d, |w.dirs[d]| - 1)]) else w
    case Finish(c) =>
      if c in w.calls && w.calls[c].Looking?
         && w.calls[c].stage in w.dirs && w.calls[c].from < |w.dirs[w.calls[c].stage]|
      then
        var d, from := w.calls[c].stage, w.calls[c].from;
        var to := |w.dirs[d]| - 1;
        var (index, tasks) := Lookup(w.index, d, w.dirs[d][from].mtime, w.dirs[d][to].tasks);
        w.(index := index, calls := w.calls[c := Returned(d, from, to, tasks)])
      else w
    case Forget(d) => w.(index := Invalidate(w.index, d))
    case ForgetAll => w.(index := Index(map[], map[]))
  }

  function Run(w: World, moves: seq<Move>): World {
    if moves == [] then w else Step(Run(w, moves[..|moves| - 1]), moves[|moves| - 1])
  }

  /** Once a time has come back, everything since it was first there was what is there now. */
  ghost predicate TimesTell(d: Directory) {
    forall a, l, f :: 0 <= a <= l < f < |d| && d[a].mtime == d[f].mtime ==> d[l].tasks == d[f].tasks
  }

  /** The cached listing is a later state than the time it is filed under, or the same one. */
  ghost predicate FiledLate(d: Directory, mtime: int, tasks: Listing) {
    exists a, b :: 0 <= a <= b < |d| && d[a].mtime == mtime && d[b].tasks == tasks
  }

  /** The listing a call returned was there at some moment between its first and its last step. */
  ghost predicate SeenDuring(d: Directory, c: Call)
    requires c.Returned?
  {
    exists b :: 0 <= c.from <= b <= c.to < |d| && d[b].tasks == c.tasks
  }

  ghost predicate Inv(w: World) {
    && (forall d :: d in w.dirs ==> |w.dirs[d]| > 0)
    && (forall d :: d in w.index.mtimes ==>
         d in w.dirs && d in w.index.cache && FiledLate(w.dirs[d], w.index.mtimes[d], w.index.cache[d]))
    && (forall c :: c in w.calls ==>
         && w.calls[c].stage in w.dirs && w.calls[c].from < |w.dirs[w.calls[c].stage]|
         && (w.calls[c].Returned? ==> SeenDuring(w.dirs[w.calls[c].stage], w.calls[c])))
  }

  /** The heart of the matter: a hit on the time of a version returns what some version no older than it held. */
  lemma HitIsRecent(d: Directory, from: nat, mtime: int, tasks: Listing) returns (b: nat)
    requires TimesTell(d) && from < |d| && d[from].mtime == mtime && FiledLate(d, mtime, tasks)
    ensures from <= b < |d| && d[b].tasks == tasks
  {
    var a, l :| 0 <= a <= l < |d| && d[a].mtime == mtime && d[l].tasks == tasks;
    b := if l >= from then l else from;
  }

  lemma FiledLateGrows(d: Directory, v: Version, mtime: int, tasks: Listing)
    requires FiledLate(d, mtime, tasks)
    ensures FiledLate(d + [v], mtime, tasks)
  {
    var a, b :| 0 <= a <= b < |d| && d[a].mtime == mtime && d[b].tasks == tasks;
    var d' := d + [v];
    assert d'[a].mtime == mtime && d'[b].tasks == tasks;
  }

  lemma SeenDuringGrows(d: Directory, v: Version, c: Call)
    requires c.Returned? && SeenDuring(d, c)
    ensures SeenDuring(d + [v], c)
  {
    var b :| 0 <= c.from <= b <= c.to < |d| && d[b].tasks == c.tasks;
    assert (d + [v])[b].tasks == c.tasks;
  }

  lemma ChangeInv(w: World, d: Stage, v: Version)
    requires Inv(w)
    ensures Inv(Step(w, Change(d, v)))
  {
    if d in w.dirs {
      if d in w.index.mtimes {
        FiledLateGrows(w.dirs[d], v, w.index.mtimes[d], w.index.cache[d]);
      }
      forall c | c in w.calls && w.calls[c].Returned? && w.calls[c].stage == d
        ensures SeenDuring(w.dirs[d] + [v], w.calls[c])
      {
        SeenDuringGrows(w.dirs[d], v, w.calls[c]);
      }
    }
  }

  ghost predicate AllTimesTell(w: World) {
    forall d :: d in w.dirs ==> TimesTell(w.dirs[d])
  }

  lemma FinishInv(w: World, c: CallId)
    requires Inv(w) && AllTimesTell(w)
    ensures Inv(Step(w, Finish(c)))
  {
    if c in w.calls && w.calls[c].Looking? {
      var d, from := w.calls[c].stage, w.calls[c].from;
      var dir := w.dirs[d];
      var to := |dir| - 1;
      var mtime := dir[from].mtime;
      var w' := Step(w, Finish(c));
      if d in w.index.mtimes && w.index.mtimes[d] == mtime {
        var b := HitIsRecent(dir, from, mtime, w.index.cache[d]);
        assert dir[b].tasks == w'.calls[c].tasks;
      } else {
        assert dir[from].mtime == mtime && dir[to].tasks == w'.calls[c].tasks;
        assert FiledLate(dir, mtime, w'.index.cache[d]);
      }
      assert SeenDuring(dir, w'.calls[c]);
    }
  }

  lemma StatInv(w: World, c: CallId, d: Stage)
    requires Inv(w)
    ensures Inv(Step(w, Stat(c, d)))
  {
  }

  lemma ForgetInv(w: World, d: Stage)
    requires Inv(w)
    ensures Inv(Step(w, Forget(d)))
  {
  }

  lemma StepInv(w: World, m: Move)
    requires Inv(w) && AllTimesTell(w)
    ensures Inv(Step(w, m))
  {
    match m
    case Change(d, v) => ChangeInv(w, d, v);
    case Stat(c, d) => StatInv(w, c, d);
    case Finish(c) => FinishInv(w, c);
    case Forget(d) => ForgetInv(w, d);
    case ForgetAll =>
  }

  lemma TimesTellBefore(d: Directory, v: Version)
    requires TimesTell(d + [v])
    ensures TimesTell(d)
  {
    var d' := d + [v];
    forall a, l, f | 0 <= a <= l < f < |d| && d[a].mtime == d[f].mtime ensures d[l].tasks == d[f].tasks {
      assert d'[a] == d[a] && d'[l] == d[l] && d'[f] == d[f];
    }
  }

  lemma StepBackTimes(w: World, m: Move)
    requires AllTimesTell(Step(w, m))
    ensures AllTimesTell(w)
  {
    forall d | d in w.dirs ensures TimesTell(w.dirs[d]) {
      assert TimesTell(Step(w, m).dirs[d]);
      if m.Change? && m.stage == d {
        TimesTellBefore(w.dirs[d], m.version);
      }
    }
  }

  lemma {:induction false} RunInv(w: World, moves: seq<Move>)
    requires Initial(w) && AllTimesTell(Run(w, moves))
    ensures Inv(Run(w, moves))
  {
    if moves != [] {
      var last := |moves| - 1;
      StepBackTimes(Run(w, moves[..last]), moves[last]);
      RunInv(w, moves[..last]);
      StepInv(Run(w, moves[..last]), moves[last]);
    }
  }

  /** Every call that has returned gave a listing the directory had between its first and its last step. */
  ghost predicate AllReal(w: World) {
    forall c :: c in w.calls && w.calls[c].Returned? ==>
      w.calls[c].stage in w.dirs && SeenDuring(w.dirs[w.calls[c].stage], w.calls[c])
  }

  /** If times tell, in any interleaving of lookups, directory changes and invalidations every lookup is real. */
  lemma LookupsAreReal(w: World, moves: seq<Move>)
    requires Initial(w) && AllTimesTell(Run(w, moves))
    ensures AllReal(Run(w, moves))
  {
    RunInv(w, moves);
  }

  // Forgetting a directory makes the next lookup scan it, whatever its times tell.

  /** No lookup of the directory finishes. */
  ghost predicate QuietOn(w: World, moves: seq<Move>, d: Stage) {
    forall k :: 0 <= k < |moves| && moves[k].Finish? && moves[k].call in Run(w, moves[..k]).calls ==>
      Run(w, moves[..k]).calls[moves[k].call].stage != d
  }

  lemma {:induction false} StaysForgotten(w: World, moves: seq<Move>, d: Stage)
    requires d !in w.index.mtimes && QuietOn(w, moves, d)
    ensures d !in Run(w, moves).index.mtimes
  {
    if moves != [] {
      var rest := moves[..|moves| - 1];
      forall k | 0 <= k < |rest| && rest[k].Finish? && rest[k].call in Run(w, rest[..k]).calls
        ensures Run(w, rest[..k]).calls[rest[k].call].stage != d
      {
        assert rest[..k] == moves[..k] && rest[k] == moves[k];
      }
      StaysForgotten(w, rest, d);
      assert moves[..|moves| - 1] == rest;
    }
  }

  /** The call is about to look up the directory, at the version it has read the time of. */
  predicate IsLooking(v: World, c: CallId, d: Stage) {
    c in v.calls && v.calls[c].Looking? && v.calls[c].stage == d && d in v.dirs && v.calls[c].from < |v.dirs[d]|
  }

  lemma UnfiledIsScanned(v: World, d: Stage, c: CallId)
    requires IsLooking(v, c, d) && d !in v.index.mtimes
    ensures var to := |v.dirs[d]| - 1;
      Step(v, Finish(c)).calls[c] == Returned(d, v.calls[c].from, to, v.dirs[d][to].tasks)
  {
  }

  /** The first lookup to finish after an invalidation returns what the directory holds at that moment. */
  lemma ForgottenIsScanned(w: World, forget: Move, moves: seq<Move>, v: World, d: Stage, c: CallId)
    requires forget == Forget(d) || forget == ForgetAll
    requires QuietOn(Step(w, forget), moves, d) && v == Run(Step(w, forget), moves) && IsLooking(v, c, d)
    ensures Step(v, Finish(c)).calls[c].Returned?
    ensures Step(v, Finish(c)).calls[c].tasks == v.dirs[d][|v.dirs[d]| - 1].tasks
  {
    StaysForgotten(Step(w, forget), moves, d);
    UnfiledIsScanned(v, d, c);
  }

  /** And it leaves what is known of every other directory. */
  lemma ForgetKeepsOthers(w: World, d: Stage, other: Stage)
    requires d != other
    ensures var (a, b) := (w.index, Step(w, Forget(d)).index);
      && (other in b.mtimes <==> other in a.mtimes) && (other in a.mtimes ==> b.mtimes[other] == a.mtimes[other])
      && (other in b.cache <==> other in a.cache) && (other in a.cache ==> b.cache[other] == a.cache[other])
  {
  }

  // Where times do not tell, some interleaving with the same changes makes a lookup stale.

  lemma RunOn(w: World, moves: seq<Move>, m: Move)
    ensures Run(w, moves + [m]) == Step(Run(w, moves), m)
  {
    assert (moves + [m])[..|moves|] == moves;
  }

  /** The directory under this name has this history, and there are no others. */
  predicate IsAt(w: World, stage: Stage, d: Directory) {
    w.dirs == map[stage := d]
  }

  /** The directory goes through its history up to the j-th version, and nothing else happens. */
  lemma {:induction false} Advance(w: World, moves: seq<Move>, stage: Stage, d: Directory, i: nat, j: nat)
    returns (more: seq<Move>)
    requires 0 < i <= j <= |d| && IsAt(Run(w, moves), stage, d[..i])
    ensures Run(w, more) == Run(w, moves).(dirs := map[stage := d[..j]])
    decreases j - i
  {
    more := moves;
    if i < j {
      RunOn(w, moves, Change(stage, d[i]));
      assert d[..i] + [d[i]] == d[..i + 1];
      assert map[stage := d[..i]][stage := d[..i + 1]] == map[stage := d[..i + 1]];
      more := Advance(w, moves + [Change(stage, d[i])], stage, d, i + 1, j);
    }
  }

  /** A lookup that stats version `from` and scans version `to`. */
  lemma LookUp(w: World, moves: seq<Move>, stage: Stage, d: Directory, c: CallId, from: nat, to: nat)
    returns (more: seq<Move>)
    requires from <= to < |d| && IsAt(Run(w, moves), stage, d[..from + 1]) && c !in Run(w, moves).calls
    ensures var v, v' := Run(w, moves), Run(w, more);
      var (index, tasks) := Lookup(v.index, stage, d[from].mtime, d[to].tasks);
      IsAt(v', stage, d[..to + 1]) && v'.index == index && v'.calls == v.calls[c := Returned(stage, from, to, tasks)]
  {
    RunOn(w, moves, Stat(c, stage));
    more := Advance(w, moves + [Stat(c, stage)], stage, d, from + 1, to + 1);
    assert Run(w, more).calls[c] == Looking(stage, from) && Run(w, more).dirs[stage] == d[..to + 1];
    RunOn(w, more, Finish(c));
    more := more + [Finish(c)];
  }

  /** The first lookup files an old content under the time that comes back, and the second one is answered with it. */
  lemma StaleLookup(stage: Stage, d: Directory, a: nat, l: nat, f: nat) returns (w: World, moves: seq<Move>)
    requires a <= l < f < |d| && d[a].mtime == d[f].mtime && d[l].tasks != d[f].tasks
    ensures Initial(w) && IsAt(Run(w, moves), stage, d) && !AllReal(Run(w, moves))
  {
    w := World(map[stage := d[..1]], Index(map[], map[]), map[]);
    assert Run(w, []) == w;
    moves := Advance(w, [], stage, d, 1, a + 1);
    moves := LookUp(w, moves, stage, d, 0, a, l);
    moves := Advance(w, moves, stage, d, l + 1, f + 1);
    moves := LookUp(w, moves, stage, d, 1, f, f);
    assert Run(w, moves).calls[1] == Returned(stage, f, f, d[l].tasks);
    moves := Advance(w, moves, stage, d, f + 1, |d|);
    assert d[..|d|] == d;
    var c := Run(w, moves).calls[1];
    assert !SeenDuring(d, c);
  }

  /**
   The exact condition, on the history of the directory alone: whatever lookups and invalidations are interleaved with
   its changes, every lookup is real, if and only if its times tell.
   */
  lemma LookupsAreRealIffTimesTell(stage: Stage, d: Directory)
    requires d != []
    ensures TimesTell(d) <==> forall w, moves :: Initial(w) && IsAt(Run(w, moves), stage, d) ==> AllReal(Run(w, moves))
  {
    if TimesTell(d) {
      forall w, moves | Initial(w) && IsAt(Run(w, moves), stage, d) ensures AllReal(Run(w, moves)) {
        LookupsAreReal(w, moves);
      }
    } else {
      var a, l, f :| 0 <= a <= l < f < |d| && d[a].mtime == d[f].mtime && d[l].tasks != d[f].tasks;
      var w, moves := StaleLookup(stage, d, a, l, f);
    }
  }

  /** Two changes within one tick of the clock are such a history. */
  lemma SameTickServesStale(stage: Stage, t: int, before: Listing, after: Listing) returns (w: World, moves: seq<Move>)
    requires before != after
    ensures Initial(w) && IsAt(Run(w, moves), stage, [Version(t, before), Version(t, after)]) && !AllReal(Run(w, moves))
  {
    w, moves := StaleLookup(stage, [Version(t, before), Version(t, after)], 0, 0, 1);
  }
}
