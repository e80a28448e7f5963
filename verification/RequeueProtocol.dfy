/**
 A requeue of a claimed task racing any number of claims and decompositions of it, file operation by file operation.

 The requeue writes the pending file under the lock that claims take, gives the lock back, and only then removes the
 claimed file. A claim that comes in between replaces the claimed file, and the requeue removes the new one.
 */
module RequeueProtocol {

  import opened Wrappers
  import opened ClaimProtocol

  /** The next file operation of the requeue. */
  datatype RequeuePc =
    | ReadClaimed
    | TouchLock
    | OpenLock
    | TakeLock
    | WritePending
    | FreeLock
    | RemoveClaimed
    | Finished
    | Failed

  /** The board with its callers, the requeue, and the claims that were written before the requeue removed anything. */
  datatype World = World(board: State, requeuer: Pid, pc: RequeuePc, fd: Option<Inode>, early: set<Pid>)

  datatype Action = Work(pid: Pid, fault: Fault) | Requeue(fault: Fault)

  /** The task is claimed by a host that is gone; nobody has done anything yet. There may be an old lock file. */
  predicate Starting(w: World) {
    var s := w.board;
    && !s.pending && s.split == s.decomposed == None && s.local == {} && s.ignored == 0 && s.holder == map[]
    && s.claimed.Some? && s.claimed.value !in s.procs && w.requeuer !in s.procs
    && (forall p :: p in s.procs ==> s.procs[p].pc == Start && s.procs[p].fd == None && s.procs[p].outcome == None)
    && w.pc == ReadClaimed && w.fd == None && w.early == {}
  }

  function Freed(w: World): State {
    match w.fd
    case Some(i) =>
      if i in w.board.holder && w.board.holder[i] == w.requeuer then w.board.(holder := w.board.holder - {i})
      else w.board
    case None => w.board
  }

  function Fail(w: World): World {
    w.(board := Freed(w), pc := Failed)
  }

  function RequeueStep(w: World, f: Fault): World {
    if w.pc == Finished || w.pc == Failed then w
    else if f != NoFault then Fail(w)
    else
      match w.pc
      case ReadClaimed => if w.board.claimed.Some? then w.(pc := TouchLock) else Fail(w)
      case TouchLock => w.(board := MakeLockFile(w.board), pc := OpenLock)
      case OpenLock => w.(board := MakeLockFile(w.board), fd := MakeLockFile(w.board).lockPath, pc := TakeLock)
      case TakeLock =>
        if w.fd.Some? && w.fd.value !in w.board.holder
        then w.(board := w.board.(holder := w.board.holder[w.fd.value := w.requeuer]), pc := WritePending) else w
      case WritePending => w.(board := w.board.(pending := true), pc := FreeLock)
      case FreeLock => w.(board := Freed(w), pc := RemoveClaimed)
      case RemoveClaimed =>
        if w.board.claimed.Some? then w.(board := w.board.(claimed := None), pc := Finished) else Fail(w)
      case _ => w
  }

  /** The process is about to write its record into claimed/. */
  predicate AtWrite(s: State, p: Pid) {
    p in s.procs && s.procs[p].pc == Write && s.procs[p].role == Claimer
  }

  function Act(w: World, a: Action): World {
    match a
    case Work(p, f) =>
      w.(board := Step(w.board, p, f),
         early := if AtWrite(w.board, p) && f == NoFault && w.pc != Finished then w.early + {p} else w.early)
    case Requeue(f) => RequeueStep(w, f)
  }

  function After(w: World, actions: seq<Action>, n: nat): World
    requires n <= |actions|
  {
    if n == 0 then w else Act(After(w, actions, n - 1), actions[n - 1])
  }

  /** A requeue that meets an error, or finds the claimed file gone, changes no file and gives its lock back. */
  lemma FailedRequeue(w: World, f: Fault)
    requires w.pc !in {Finished, Failed}
    requires f != NoFault || (w.pc in {ReadClaimed, RemoveClaimed} && w.board.claimed == None)
    ensures var t := RequeueStep(w, f);
      && t.pc == Failed && SameFiles(w.board, t.board) && t.board.procs == w.board.procs
      && (forall i :: i in t.board.holder ==> i in w.board.holder && t.board.holder[i] == w.board.holder[i])
      && (forall i :: i in w.board.holder && i !in t.board.holder ==> w.board.holder[i] == w.requeuer)
      && (forall i :: i in t.board.holder && w.fd == Some(i) ==> t.board.holder[i] != w.requeuer)
  {
  }

  /** What the operations of a requeue do to the files and the lock. */
  lemma WorkingRequeue(w: World)
    ensures var t := RequeueStep(w, NoFault);
      && t.board.procs == w.board.procs
      && (w.pc in {TouchLock, OpenLock} ==> t.board.lockPath.Some? && (w.pc == OpenLock ==> t.fd == t.board.lockPath))
      && (w.pc == TakeLock && w.fd.Some? && w.fd.value !in w.board.holder ==>
           t.board.holder == w.board.holder[w.fd.value := w.requeuer])
      && (w.pc == WritePending ==> t.board == w.board.(pending := true))
      && (w.pc == FreeLock && w.fd.Some? && w.fd.value in w.board.holder && w.board.holder[w.fd.value] == w.requeuer ==>
           t.board == w.board.(holder := w.board.holder - {w.fd.value}))
      && (w.pc == RemoveClaimed && w.board.claimed.Some? ==>
           t.pc == Finished && t.board == w.board.(claimed := None))
  {
  }

  predicate NeverDown(actions: seq<Action>) {
    forall i :: 0 <= i < |actions| ==> actions[i].fault != ErrorDown
  }

  predicate Won(s: State, p: Pid) {
    p in s.procs && s.procs[p].outcome == Some(true)
  }

  /** The task is in no directory. */
  predicate Lost(s: State) {
    !s.pending && s.claimed == None && s.decomposed == None && s.local == {}
  }

  // ---------------------------------------------------------------------------
  // The invariant
  // ---------------------------------------------------------------------------

  predicate TurnedAway(q: Proc) {
    q.fd == None && q.outcome != Some(true) && (q.pc == Done || (q.pc == Start && q.outcome == None))
  }

  /** Until the requeue has written the pending file, every caller is turned away. */
  ghost predicate Waiting(w: World) {
    var s := w.board;
    && !s.pending && s.claimed.Some? && s.decomposed == None && s.local == {} && w.early == {} && w.requeuer !in s.procs
    && w.pc !in {FreeLock, RemoveClaimed, Finished}
    && (forall p :: p in s.procs ==> TurnedAway(s.procs[p]))
  }

  /** The record of a process that is about to remove the pending file, or has removed it. */
  predicate RecordOf(w: World, p: Pid)
    requires p in w.board.procs
  {
    match w.board.procs[p].role
    case Decomposer => w.board.decomposed == Some(p) && w.board.split == Some(p)
    case Claimer =>
      if w.pc != Finished then p in w.early && w.board.claimed == Some(p)
      else w.board.claimed == if p in w.early then None else Some(p)
  }

  ghost predicate Recorded(w: World) {
    var s := w.board;
    && (forall p :: p in s.procs && (s.procs[p].pc == Remove || s.procs[p].outcome == Some(true)) ==> RecordOf(w, p))
    && (forall p :: p in s.procs && s.procs[p].pc == Write && s.procs[p].role == Decomposer ==> s.split == Some(p))
    && (forall p :: p in w.early ==> p in s.procs && s.procs[p].pc in {Remove, Unlock, Unlink, Done})
  }

  ghost predicate Racing(w: World) {
    && Guarded(w.board) && Recorded(w) && w.board.local == {} && w.requeuer !in w.board.procs
    && w.pc in {FreeLock, RemoveClaimed, Finished, Failed} && (w.pc != Finished ==> w.board.claimed.Some?)
  }

  ghost predicate Inv(w: World) {
    Waiting(w) || Racing(w)
  }

  lemma WaitingStep(w: World, a: Action)
    requires Waiting(w)
    ensures Inv(Act(w, a))
  {
    var w' := Act(w, a);
    if a.Work? {
      if a.pid in w.board.procs {
        StepMovesOne(w.board, a.pid, a.fault);
      }
      assert Waiting(w');
    } else if w.pc == WritePending && a.fault == NoFault {
      forall p | p in w'.board.procs ensures ProcOk(w'.board, p) {
      }
      assert Racing(w');
    } else {
      assert Waiting(w');
    }
  }

  /** A guarded board stays guarded when only locks of others are given back. */
  lemma FreedKeepsGuarded(w: World)
    requires Guarded(w.board) && w.requeuer !in w.board.procs
    ensures Guarded(Freed(w))
  {
    forall p | p in w.board.procs ensures ProcOk(Freed(w), p) {
      assert ProcOk(w.board, p);
    }
  }

  lemma RemoveKeepsRacing(w: World)
    requires Racing(w) && w.pc == RemoveClaimed
    ensures Racing(w.(board := w.board.(claimed := None), pc := Finished))
  {
    var w' := w.(board := w.board.(claimed := None), pc := Finished);
    forall p | p in w'.board.procs ensures ProcOk(w'.board, p) {
      assert ProcOk(w.board, p);
    }
    forall p | p in w'.board.procs && (w'.board.procs[p].pc == Remove || w'.board.procs[p].outcome == Some(true))
      ensures RecordOf(w', p)
    {
      assert RecordOf(w, p);
    }
  }

  lemma FreedKeepsRacing(w: World, pc: RequeuePc)
    requires Racing(w) && w.pc != Finished && pc in {RemoveClaimed, Failed}
    ensures Racing(w.(board := Freed(w), pc := pc))
  {
    FreedKeepsGuarded(w);
    var w' := w.(board := Freed(w), pc := pc);
    forall p | p in w'.board.procs && (w'.board.procs[p].pc == Remove || w'.board.procs[p].outcome == Some(true))
      ensures RecordOf(w', p)
    {
      assert RecordOf(w, p);
    }
  }

  lemma RequeueKeepsRacing(w: World, f: Fault)
    requires Racing(w)
    ensures Racing(RequeueStep(w, f))
  {
    if w.pc == RemoveClaimed && f == NoFault {
      RemoveKeepsRacing(w);
    } else if w.pc == FreeLock && f == NoFault {
      FreedKeepsRacing(w, RemoveClaimed);
    } else if w.pc != Finished && w.pc != Failed {
      FreedKeepsRacing(w, Failed);
    }
  }

  lemma QuietKeepsRacing(w: World, p: Pid, f: Fault)
    requires Racing(w) && p in w.board.procs && f != ErrorDown
    requires Guarded(Step(w.board, p, f)) && Moved(w.board, Step(w.board, p, f), p)
    requires QuietStep(w.board, Step(w.board, p, f), p)
    requires Step(w.board, p, f).local == {}
    ensures Racing(Act(w, Work(p, f)))
  {
    var w' := Act(w, Work(p, f));
    assert w'.early == w.early;
    forall r | r in w'.board.procs && (w'.board.procs[r].pc == Remove || w'.board.procs[r].outcome == Some(true))
      ensures RecordOf(w', r)
    {
      assert RecordOf(w, r);
    }
    EarlyStaysEarly(w, p, f);
  }

  lemma EarlyStaysEarly(w: World, p: Pid, f: Fault)
    requires Recorded(w) && p in w.board.procs && Moved(w.board, Step(w.board, p, f), p) && f != ErrorDown
    requires ProcOk(w.board, p)
    ensures var procs := Step(w.board, p, f).procs;
      forall r :: r in w.early ==> r in procs && procs[r].pc in {Remove, Unlock, Unlink, Done}
  {
  }

  lemma BoardKeepsRacing(w: World, p: Pid, f: Fault)
    requires Racing(w) && p in w.board.procs && f != ErrorDown
    requires Guarded(Step(w.board, p, f)) && Moved(w.board, Step(w.board, p, f), p)
    requires BoardStep(w.board, Step(w.board, p, f), p)
    requires Step(w.board, p, f).local == {}
    ensures Racing(Act(w, Work(p, f)))
  {
    var w' := Act(w, Work(p, f));
    forall r | r in w.board.procs
      && (w.board.procs[r].pc in {Read, Split, Write, Remove} || w.board.procs[r].outcome == Some(true))
      ensures r == p
    {
      WriterIsAlone(w.board, p, r);
    }
    forall r | r in w'.board.procs && (w'.board.procs[r].pc == Remove || w'.board.procs[r].outcome == Some(true))
      ensures RecordOf(w', r)
    {
      assert r == p;
      if w.board.procs[p].pc == Remove {
        assert RecordOf(w, p);
      }
    }
    EarlyStaysEarly(w, p, f);
  }

  lemma StepKeepsLocal(s: State, p: Pid, f: Fault)
    requires p in s.procs && ProcOk(s, p) && f != ErrorDown
    ensures Step(s, p, f).local == s.local
  {
  }

  lemma ActKeepsInv(w: World, a: Action)
    requires Inv(w) && a.fault != ErrorDown
    ensures Inv(Act(w, a))
  {
    if Waiting(w) {
      WaitingStep(w, a);
    } else if a.Requeue? {
      RequeueKeepsRacing(w, a.fault);
    } else if a.pid in w.board.procs {
      StepGuarded(w.board, a.pid, a.fault);
      assert ProcOk(w.board, a.pid);
      StepKeepsLocal(w.board, a.pid, a.fault);
      if QuietStep(w.board, Step(w.board, a.pid, a.fault), a.pid) {
        QuietKeepsRacing(w, a.pid, a.fault);
      } else {
        BoardKeepsRacing(w, a.pid, a.fault);
      }
    }
  }

  lemma {:induction false} AlwaysInv(w: World, actions: seq<Action>, n: nat)
    requires Starting(w) && NeverDown(actions) && n <= |actions|
    ensures Inv(After(w, actions, n))
  {
    if n > 0 {
      AlwaysInv(w, actions, n - 1);
      ActKeepsInv(After(w, actions, n - 1), actions[n - 1]);
    }
  }

  // ---------------------------------------------------------------------------
  // When the task is lost
  // ---------------------------------------------------------------------------

  /** The n-th action writes the process's record into claimed/. */
  ghost predicate WritesAt(w: World, actions: seq<Action>, n: nat, p: Pid) {
    n < |actions| && actions[n] == Work(p, NoFault) && AtWrite(After(w, actions, n).board, p)
  }

  /** The n-th action is the remove of the requeue. */
  ghost predicate RemovesAt(w: World, actions: seq<Action>, n: nat) {
    && n < |actions| && actions[n] == Requeue(NoFault)
    && After(w, actions, n).pc == RemoveClaimed && After(w, actions, n).board.claimed.Some?
  }

  /** The n-th action is a write of the process's record before the remove of the requeue. */
  ghost predicate WritesEarlyAt(w: World, actions: seq<Action>, n: nat, p: Pid) {
    WritesAt(w, actions, n, p) && After(w, actions, n).pc != Finished
  }

  lemma FinishedStep(w: World, actions: seq<Action>, n: nat)
    requires n < |actions|
    ensures After(w, actions, n + 1).pc == Finished <==> After(w, actions, n).pc == Finished || RemovesAt(w, actions, n)
  {
    assert After(w, actions, n + 1) == Act(After(w, actions, n), actions[n]);
  }

  lemma {:induction false} FinishedByRemove(w: World, actions: seq<Action>, n: nat)
    requires Starting(w) && n <= |actions|
    ensures After(w, actions, n).pc == Finished <==> exists r :: 0 <= r < n && RemovesAt(w, actions, r)
  {
    if n > 0 {
      FinishedByRemove(w, actions, n - 1);
      FinishedStep(w, actions, n - 1);
    }
  }

  lemma EarlyStep(w: World, actions: seq<Action>, n: nat, p: Pid)
    requires n < |actions|
    ensures p in After(w, actions, n + 1).early <==> p in After(w, actions, n).early || WritesEarlyAt(w, actions, n, p)
  {
    assert After(w, actions, n + 1) == Act(After(w, actions, n), actions[n]);
  }

  lemma {:induction false} EarlyWasWritten(w: World, actions: seq<Action>, n: nat, p: Pid) returns (i: nat)
    requires Starting(w) && n <= |actions| && p in After(w, actions, n).early
    ensures i < n && WritesEarlyAt(w, actions, i, p)
  {
    i := n - 1;
    EarlyStep(w, actions, i, p);
    if !WritesEarlyAt(w, actions, i, p) {
      i := EarlyWasWritten(w, actions, i, p);
    }
  }

  lemma {:induction false} WrittenIsEarly(w: World, actions: seq<Action>, i: nat, n: nat, p: Pid)
    requires i < n <= |actions| && WritesEarlyAt(w, actions, i, p)
    ensures p in After(w, actions, n).early
    decreases n
  {
    EarlyStep(w, actions, n - 1, p);
    if i < n - 1 {
      WrittenIsEarly(w, actions, i, n - 1, p);
    }
  }

  /** The requeue has removed a claimed file after this process had written it. */
  ghost predicate RemovedAfterWrite(w: World, actions: seq<Action>, n: nat, p: Pid) {
    exists i, r :: 0 <= i < r < n && WritesAt(w, actions, i, p) && RemovesAt(w, actions, r)
  }

  lemma EarlyIffRemovedAfterWrite(w: World, actions: seq<Action>, n: nat, p: Pid)
    requires Starting(w) && n <= |actions|
    ensures var v := After(w, actions, n);
      v.pc == Finished && p in v.early <==> RemovedAfterWrite(w, actions, n, p)
  {
    FinishedByRemove(w, actions, n);
    if After(w, actions, n).pc == Finished && p in After(w, actions, n).early {
      var r :| 0 <= r < n && RemovesAt(w, actions, r);
      var i := EarlyWasWritten(w, actions, n, p);
      FinishedByRemove(w, actions, i);
      assert i < r;
    }
    if RemovedAfterWrite(w, actions, n, p) {
      var i, r :| 0 <= i < r < n && WritesAt(w, actions, i, p) && RemovesAt(w, actions, r);
      NotFinishedBefore(w, actions, i, r);
      WrittenIsEarly(w, actions, i, n, p);
    }
  }

  lemma {:induction false} NotFinishedBefore(w: World, actions: seq<Action>, i: nat, r: nat)
    requires i <= r <= |actions| && After(w, actions, r).pc != Finished
    ensures After(w, actions, i).pc != Finished
    decreases r
  {
    if i < r {
      NotFinishedBefore(w, actions, i, r - 1);
    }
  }

  /** The winner of a claim has its record exactly if the requeue did not remove a claimed file after it was written. */
  lemma WinnerKeepsRecordIff(w: World, actions: seq<Action>, n: nat, p: Pid)
    requires Starting(w) && NeverDown(actions) && n <= |actions|
    requires Won(After(w, actions, n).board, p) && After(w, actions, n).board.procs[p].role == Claimer
    ensures HasRecord(After(w, actions, n).board, p) <==> !RemovedAfterWrite(w, actions, n, p)
  {
    AlwaysInv(w, actions, n);
    EarlyIffRemovedAfterWrite(w, actions, n, p);
    assert RecordOf(After(w, actions, n), p);
  }

  /** The process has won the task by a claim, and the requeue has removed what it had written. */
  ghost predicate IsRobbed(w: World, actions: seq<Action>, n: nat, p: Pid)
    requires n <= |actions|
  {
    var s := After(w, actions, n).board;
    Won(s, p) && s.procs[p].role == Claimer && RemovedAfterWrite(w, actions, n, p)
  }

  lemma LostIsRobbed(w: World, actions: seq<Action>, n: nat) returns (p: Pid)
    requires Starting(w) && NeverDown(actions) && n <= |actions| && Lost(After(w, actions, n).board)
    ensures IsRobbed(w, actions, n, p)
  {
    AlwaysInv(w, actions, n);
    var v := After(w, actions, n);
    p :| p in v.board.procs && v.board.procs[p].outcome == Some(true);
    assert RecordOf(v, p);
    WinnerKeepsRecordIff(w, actions, n, p);
  }

  lemma RobbedIsLost(w: World, actions: seq<Action>, n: nat, p: Pid)
    requires Starting(w) && NeverDown(actions) && n <= |actions|
    requires IsRobbed(w, actions, n, p) && After(w, actions, n).board.decomposed == None
    ensures Lost(After(w, actions, n).board)
  {
    AlwaysInv(w, actions, n);
    EarlyIffRemovedAfterWrite(w, actions, n, p);
    assert RecordOf(After(w, actions, n), p);
  }

  /**
   In every interleaving, at every moment, whatever fails and whoever dies while the share is not down: the task is in
   no directory, if and only if a claim has won it whose record was written before the remove of the requeue and so was
   removed by it, and no decomposition has left a record.
   */
  lemma LostIffClaimWrittenBeforeRemove(w: World, actions: seq<Action>, n: nat)
    requires Starting(w) && NeverDown(actions) && n <= |actions|
    ensures var s := After(w, actions, n).board;
      Lost(s) <==> s.decomposed == None && exists p :: IsRobbed(w, actions, n, p)
  {
    if Lost(After(w, actions, n).board) {
      var p := LostIsRobbed(w, actions, n);
    }
    if p :| IsRobbed(w, actions, n, p) && After(w, actions, n).board.decomposed == None {
      RobbedIsLost(w, actions, n, p);
    }
  }

  // ---------------------------------------------------------------------------
  // In terms of when claims start
  // ---------------------------------------------------------------------------

  /** The n-th action is the first step of a claim that finds the task pending. */
  ghost predicate StartsAt(w: World, actions: seq<Action>, n: nat, p: Pid) {
    n < |actions| && actions[n] == Work(p, NoFault) &&
    var s := After(w, actions, n).board;
    s.pending && p in s.procs && s.procs[p].pc == Start && s.procs[p].role == Claimer
  }

  ghost predicate NoneEarly(w: World) {
    w.early == {} && var procs := w.board.procs;
    forall p :: p in procs && procs[p].role == Claimer && procs[p].pc !in {Start, Done} ==> w.pc == Finished
  }

  lemma {:induction false} NoStartNoneEarly(w: World, actions: seq<Action>, n: nat)
    requires Starting(w) && n <= |actions|
    requires forall i, p :: 0 <= i < n && StartsAt(w, actions, i, p) ==> After(w, actions, i).pc == Finished
    ensures NoneEarly(After(w, actions, n))
  {
    if n > 0 {
      NoStartNoneEarly(w, actions, n - 1);
      var v, a := After(w, actions, n - 1), actions[n - 1];
      if a.Work? && a.pid in v.board.procs {
        StepMovesOne(v.board, a.pid, a.fault);
        assert StartsAt(w, actions, n - 1, a.pid) ==> v.pc == Finished;
      }
    }
  }

  /** If no claim starts until the requeue has removed the claimed file, the task is never lost. */
  lemma NotLostIfNoClaimStartsBetween(w: World, actions: seq<Action>, n: nat)
    requires Starting(w) && NeverDown(actions) && n <= |actions|
    requires forall i, p :: 0 <= i < n && StartsAt(w, actions, i, p) ==> After(w, actions, i).pc == Finished
    ensures !Lost(After(w, actions, n).board)
  {
    NoStartNoneEarly(w, actions, n);
    LostIffClaimWrittenBeforeRemove(w, actions, n);
    forall p ensures !RemovedAfterWrite(w, actions, n, p) {
      EarlyIffRemovedAfterWrite(w, actions, n, p);
    }
  }

  lemma OneMore(w: World, actions: seq<Action>, a: Action)
    ensures After(w, actions + [a], |actions| + 1) == Act(After(w, actions, |actions|), a)
  {
    SamePrefix(w, actions, [a], |actions|);
  }

  lemma {:induction false} SamePrefix(w: World, actions: seq<Action>, more: seq<Action>, n: nat)
    requires n <= |actions|
    ensures After(w, actions + more, n) == After(w, actions, n)
  {
    if n > 0 {
      SamePrefix(w, actions, more, n - 1);
    }
  }

  predicate Faultless(actions: seq<Action>) {
    forall i :: 0 <= i < |actions| ==> actions[i].fault == NoFault
  }

  /** A run without faults that has come to this world. */
  ghost predicate Comes(w: World, v: World) {
    exists actions :: After(w, actions, |actions|) == v && Faultless(actions)
  }

  lemma ComesOn(w: World, v: World, a: Action, next: World)
    requires Comes(w, v) && a.fault == NoFault && next == Act(v, a)
    ensures Comes(w, next)
  {
    var actions :| After(w, actions, |actions|) == v && Faultless(actions);
    OneMore(w, actions, a);
    assert Faultless(actions + [a]);
  }

  /** The requeue has given the task back and is about to remove the claimed file. */
  function GivenBack(w: World): World {
    var s := MakeLockFile(w.board);
    w.(board := s.(pending := true), fd := s.lockPath, pc := RemoveClaimed)
  }

  lemma RequeueGoesAhead(w: World)
    requires Starting(w)
    ensures Comes(w, GivenBack(w))
  {
    assert Comes(w, w) by {
      assert After(w, [], 0) == w;
    }
    var s := MakeLockFile(w.board);
    var i := s.lockPath.value;
    ComesOn(w, w, Requeue(NoFault), w.(pc := TouchLock));
    ComesOn(w, w.(pc := TouchLock), Requeue(NoFault), w.(board := s, pc := OpenLock));
    ComesOn(w, w.(board := s, pc := OpenLock), Requeue(NoFault), w.(board := s, fd := Some(i), pc := TakeLock));
    var held := s.(holder := map[i := w.requeuer]);
    ComesOn(w, w.(board := s, fd := Some(i), pc := TakeLock), Requeue(NoFault),
            w.(board := held, fd := Some(i), pc := WritePending));
    var given := held.(pending := true);
    ComesOn(w, w.(board := held, fd := Some(i), pc := WritePending), Requeue(NoFault),
            w.(board := given, fd := Some(i), pc := FreeLock));
    assert map[i := w.requeuer] - {i} == map[];
    ComesOn(w, w.(board := given, fd := Some(i), pc := FreeLock), Requeue(NoFault), GivenBack(w));
  }

  /** A claim comes as far as writing its record. */
  lemma ClaimComesToWrite(w: World, v: World, p: Pid, i: Inode)
    requires Comes(w, v) && v.pc == RemoveClaimed
    requires v.board.pending && v.board.lockPath == Some(i) && v.board.holder == map[]
    requires p in v.board.procs && v.board.procs[p] == Proc(Claimer, Start, None, None)
    ensures Comes(w, v.(board := At(v.board.(holder := map[i := p]), p, Write, i)))
  {
    var s := v.board;
    var u := s.(holder := map[i := p]);
    var none := Proc(Claimer, Start, None, None);
    OpStart(s, p);
    ComesOn(w, v, Work(p, NoFault), v.(board := With(s, p, none.(pc := Touch))));
    OpTouch(s, p);
    ComesOn(w, v.(board := With(s, p, none.(pc := Touch))), Work(p, NoFault),
            v.(board := With(s, p, none.(pc := Open))));
    OpOpen(s, p);
    ComesOn(w, v.(board := With(s, p, none.(pc := Open))), Work(p, NoFault), v.(board := At(s, p, Lock, i)));
    OpLock(s, p, i);
    ComesOn(w, v.(board := At(s, p, Lock, i)), Work(p, NoFault), v.(board := At(u, p, Check, i)));
    OpCheck(u, p, i);
    ComesOn(w, v.(board := At(u, p, Check, i)), Work(p, NoFault), v.(board := At(u, p, Read, i)));
    ComesOn(w, v.(board := At(u, p, Read, i)), Work(p, NoFault), v.(board := At(u, p, Write, i)));
  }

  /** The board when a claim that holds the lock on this inode has won. */
  function ClaimedBy(u: State, p: Pid, i: Inode): State {
    With(u.(claimed := Some(p), pending := false), p, Proc(Claimer, Unlock, Some(i), Some(true)))
  }

  /** And goes on to its end. */
  lemma ClaimComesToEnd(w: World, v: World, u: State, p: Pid, i: Inode)
    requires Comes(w, v.(board := At(u, p, Write, i))) && v.pc == RemoveClaimed && u.pending
    ensures Comes(w, v.(board := ClaimedBy(u, p, i), early := v.early + {p}))
  {
    OpWrite(u, p, i);
    ComesOn(w, v.(board := At(u, p, Write, i)), Work(p, NoFault),
            v.(board := At(u.(claimed := Some(p)), p, Remove, i), early := v.early + {p}));
    ComesOn(w, v.(board := At(u.(claimed := Some(p)), p, Remove, i), early := v.early + {p}), Work(p, NoFault),
            v.(board := ClaimedBy(u, p, i), early := v.early + {p}));
  }

  lemma OpWrite(u: State, p: Pid, i: Inode)
    requires u.pending
    ensures Step(At(u, p, Write, i), p, NoFault) == At(u.(claimed := Some(p)), p, Remove, i)
    ensures Step(At(u.(claimed := Some(p)), p, Remove, i), p, NoFault) == ClaimedBy(u, p, i)
  {
  }

  /**
   And where a claim does start in between, the task can be lost: for every pool with a claim in it there is an
   interleaving, without any fault, after which the task is in no directory.
   */
  lemma ClaimInBetweenCanLose(w: World, p: Pid)
    requires Starting(w) && p in w.board.procs && w.board.procs[p].role == Claimer
    ensures exists actions :: NeverDown(actions) && Lost(After(w, actions, |actions|).board)
  {
    RequeueGoesAhead(w);
    var v := GivenBack(w);
    var i := v.board.lockPath.value;
    ClaimComesToWrite(w, v, p, i);
    var u := v.board.(holder := map[i := p]);
    ClaimComesToEnd(w, v, u, p, i);
    RemoveLoses(w, v.(board := ClaimedBy(u, p, i), early := v.early + {p}));
  }

  lemma RemoveLoses(w: World, v: World)
    requires Comes(w, v) && v.pc == RemoveClaimed && !v.board.pending && v.board.claimed.Some?
    requires v.board.decomposed == None && v.board.local == {}
    ensures exists actions :: NeverDown(actions) && Lost(After(w, actions, |actions|).board)
  {
    ComesOn(w, v, Requeue(NoFault), Act(v, Requeue(NoFault)));
    var actions :| After(w, actions, |actions|) == Act(v, Requeue(NoFault)) && Faultless(actions);
    assert NeverDown(actions);
  }

  /** So a requeue is safe from losing the task exactly when there is no claim that could start. */
  lemma NeverLostIffNobodyClaims(w: World)
    requires Starting(w)
    ensures (forall actions, n :: NeverDown(actions) && 0 <= n <= |actions| ==> !Lost(After(w, actions, n).board))
      <==> (forall p :: p in w.board.procs ==> w.board.procs[p].role != Claimer)
  {
    if p :| p in w.board.procs && w.board.procs[p].role == Claimer {
      ClaimInBetweenCanLose(w, p);
      var actions :| NeverDown(actions) && Lost(After(w, actions, |actions|).board);
    } else {
      forall actions, n | NeverDown(actions) && 0 <= n <= |actions| ensures !Lost(After(w, actions, n).board) {
        forall i, p | 0 <= i < n ensures !StartsAt(w, actions, i, p) {
          RolesKept(w, actions, i, p);
        }
        NotLostIfNoClaimStartsBetween(w, actions, n);
      }
    }
  }

  lemma {:induction false} RolesKept(w: World, actions: seq<Action>, n: nat, p: Pid)
    requires n <= |actions|
    ensures var a, b := w.board.procs, After(w, actions, n).board.procs; p in b ==> p in a && b[p].role == a[p].role
  {
    if n > 0 {
      var v, a := After(w, actions, n - 1), actions[n - 1];
      if a.Work? && a.pid in v.board.procs {
        StepMovesOne(v.board, a.pid, a.fault);
      }
      RolesKept(w, actions, n - 1, p);
    }
  }
}
