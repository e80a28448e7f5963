/**
 Any number of processes claiming or decomposing one pending task, interleaved file operation by file operation.

 The lock is a file: opening it gives an inode, the lock is held on the inode, and whoever succeeds unlinks the path.
 A process that opened the old inode and one that created a new file at the same path therefore do not exclude each
 other. The protocol is still safe, because the path is unlinked only after the pending file is gone.
 */
module ClaimProtocol {

  import opened Wrappers

  type Pid = nat
  type Inode = nat

  datatype Role = Claimer | Decomposer

  /** The next file operation of a process. */
  datatype Pc =
    | Start           // does the pending file exist?
    | Touch           // create the lock file unless it is there
    | Open            // open the lock file, creating it if someone has unlinked it since
    | Lock            // wait for the exclusive lock on the opened inode
    | Check           // does the pending file still exist?
    | Read
    | Split           // decomposing only: write the subtask files
    | Write           // write the task to its new directory
    | Remove          // remove the pending file
    | LocalWrite      // claiming only, when the share is down: write to the local directory
    | LocalRemove     // and try to remove the pending file all the same
    | Unlock
    | Unlink          // remove the lock file
    | Done

  datatype Proc = Proc(role: Role, pc: Pc, fd: Option<Inode>, outcome: Option<bool>)

  datatype State = State(
    pending: bool,
    split: Option<Pid>,        // who wrote the subtask files
    claimed: Option<Pid>,      // whose record is in claimed/
    decomposed: Option<Pid>,   // whose record is in decomposed/
    local: set<Pid>,           // who wrote a local claim record
    lockPath: Option<Inode>,
    inodes: nat,               // inodes handed out so far
    holder: map<Inode, Pid>,
    procs: map<Pid, Proc>,
    ignored: nat)              // local claims that went ahead although the pending file was not removed

  /** What happens to an operation: it works, it fails while the share is healthy or is down, or the process dies. */
  datatype Fault = NoFault | ErrorHealthy | ErrorDown | Crash

  predicate Initial(s: State) {
    && s.pending && s.split == s.claimed == s.decomposed == None && s.local == {}
    && s.lockPath == None && s.holder == map[] && s.ignored == 0
    && forall p :: p in s.procs ==> s.procs[p].pc == Start && s.procs[p].fd == None && s.procs[p].outcome == None
  }

  function Goto(s: State, p: Pid, pc: Pc): State
    requires p in s.procs
  {
    s.(procs := s.procs[p := s.procs[p].(pc := pc)])
  }

  function Decide(s: State, p: Pid, ok: bool): State
    requires p in s.procs
  {
    s.(procs := s.procs[p := s.procs[p].(pc := Unlock, outcome := Some(ok))])
  }

  function MakeLockFile(s: State): State {
    if s.lockPath.Some? then s else s.(lockPath := Some(s.inodes), inodes := s.inodes + 1)
  }

  function Release(s: State, p: Pid): State
    requires p in s.procs
  {
    match s.procs[p].fd
    case Some(i) => if i in s.holder && s.holder[i] == p then s.(holder := s.holder - {i}) else s
    case None => s
  }

  /** A failed file operation is an error to the caller, unless a claim finds the share down and goes local. */
  function OnError(s: State, p: Pid, f: Fault): State
    requires p in s.procs
  {
    if f == ErrorDown && s.procs[p].role == Claimer then Goto(s, p, LocalWrite) else Decide(s, p, false)
  }

  function WriteRecord(s: State, p: Pid): State
    requires p in s.procs
  {
    match s.procs[p].role
    case Claimer => s.(claimed := Some(p))
    case Decomposer => s.(decomposed := Some(p))
  }

  /** The call ends without the task. */
  function Refuse(s: State, p: Pid): State
    requires p in s.procs
  {
    s.(procs := s.procs[p := s.procs[p].(pc := Done, outcome := Some(false))])
  }

  /** One file operation of one process. Waiting for a lock that is held changes nothing. */
  function Step(s: State, p: Pid, f: Fault): State {
    if p !in s.procs || s.procs[p].pc == Done then s
    else if f == Crash then Goto(Release(s, p), p, Done)
    else
      match s.procs[p].pc
      case Start => if f == NoFault && s.pending then Goto(s, p, Touch) else Refuse(s, p)
      case Touch => if f == NoFault then Goto(MakeLockFile(s), p, Open) else Refuse(s, p)
      case Open =>
        if f != NoFault then Refuse(s, p)
        else
          var s1 := MakeLockFile(s);
          s1.(procs := s1.procs[p := s1.procs[p].(pc := Lock, fd := s1.lockPath)])
      case Lock =>
        if f != NoFault then Refuse(s, p)
        else if s.procs[p].fd.Some? && s.procs[p].fd.value !in s.holder
        then Goto(s.(holder := s.holder[s.procs[p].fd.value := p]), p, Check)
        else s
      case Check => if f == NoFault && s.pending then Goto(s, p, Read) else Decide(s, p, false)
      case Read =>
        if f != NoFault || !s.pending then Decide(s, p, false)
        else Goto(s, p, if s.procs[p].role == Decomposer then Split else Write)
      case Split => if f == NoFault then Goto(s.(split := Some(p)), p, Write) else Decide(s, p, false)
      case Write => if f == NoFault then Goto(WriteRecord(s, p), p, Remove) else OnError(s, p, f)
      case Remove => if f == NoFault && s.pending then Decide(s.(pending := false), p, true) else OnError(s, p, f)
      case LocalWrite => if f == NoFault then Goto(s.(local := s.local + {p}), p, LocalRemove) else Decide(s, p, false)
      case LocalRemove =>
        if f == NoFault && s.pending then Decide(s.(pending := false), p, true)
        else Decide(s.(ignored := s.ignored + 1), p, true)
      case Unlock =>
        Goto(Release(s, p), p, if s.procs[p].outcome == Some(true) then Unlink else Done)
      case Unlink => Goto(if f == NoFault then s.(lockPath := None) else s, p, Done)
  }

  datatype Move = Move(pid: Pid, fault: Fault)

  function Run(s: State, moves: seq<Move>): State {
    if moves == [] then s
    else Step(Run(s, moves[..|moves| - 1]), moves[|moves| - 1].pid, moves[|moves| - 1].fault)
  }

  function Winners(s: State): set<Pid> {
    set p | p in s.procs && s.procs[p].outcome == Some(true)
  }

  // ---------------------------------------------------------------------------
  // Whatever fails: how many calls can succeed
  // ---------------------------------------------------------------------------

  ghost predicate Accounted(s: State) {
    && |Winners(s)| == (if s.pending then 0 else 1) + s.ignored
    && forall p :: p in s.procs && s.procs[p].pc !in {Unlock, Unlink, Done} ==> s.procs[p].outcome == None
  }

  lemma StepMovesOne(s: State, p: Pid, f: Fault)
    requires p in s.procs
    ensures var s' := Step(s, p, f); s'.procs == s.procs[p := s'.procs[p]] && s'.procs[p].role == s.procs[p].role
  {
  }

  /** The only operations that decide a success are the two removes, and each is paid for once. */
  lemma StepDecides(s: State, p: Pid, f: Fault)
    requires p in s.procs && (s.procs[p].pc !in {Unlock, Unlink, Done} ==> s.procs[p].outcome == None)
    ensures var s', q := Step(s, p, f), s.procs[p]; var q' := s'.procs[p];
      && (q.outcome == Some(true) ==> q'.outcome == Some(true) && s'.pending == s.pending && s'.ignored == s.ignored)
      && (q.outcome != Some(true) && q'.outcome == Some(true) ==>
           (if s'.pending then 0 else 1) + s'.ignored == (if s.pending then 0 else 1) + s.ignored + 1)
      && (q.outcome != Some(true) && q'.outcome != Some(true) ==> s'.pending == s.pending && s'.ignored == s.ignored)
      && (q'.pc !in {Unlock, Unlink, Done} ==> q'.outcome == None)
  {
  }

  lemma StepAccounted(s: State, p: Pid, f: Fault)
    requires Accounted(s)
    ensures Accounted(Step(s, p, f))
  {
    if p in s.procs {
      var s' := Step(s, p, f);
      StepMovesOne(s, p, f);
      StepDecides(s, p, f);
      if s'.procs[p].outcome == Some(true) && s.procs[p].outcome != Some(true) {
        assert Winners(s') == Winners(s) + {p} && p !in Winners(s);
      } else {
        assert Winners(s') == Winners(s);
      }
    }
  }

  /**
   The exact number of successful calls after any run, with any faults and crashes: one if the pending file has been
   removed, plus one for every local claim that ignored a failed remove.
   */
  lemma {:induction false} SuccessesCounted(s: State, moves: seq<Move>)
    requires Initial(s)
    ensures var s' := Run(s, moves); |Winners(s')| == (if s'.pending then 0 else 1) + s'.ignored
    ensures Accounted(Run(s, moves))
  {
    if moves == [] {
      assert Winners(s) == {};
    } else {
      SuccessesCounted(s, moves[..|moves| - 1]);
      StepAccounted(Run(s, moves[..|moves| - 1]), moves[|moves| - 1].pid, moves[|moves| - 1].fault);
    }
  }

  lemma {:induction false} NothingIgnored(s: State, moves: seq<Move>)
    requires Initial(s) && forall m :: m in moves ==> m.fault != ErrorDown
    ensures var s' := Run(s, moves);
      s'.ignored == 0 && forall p :: p in s'.procs ==> s'.procs[p].pc != LocalWrite && s'.procs[p].pc != LocalRemove
  {
    if moves != [] {
      var before, last := Run(s, moves[..|moves| - 1]), moves[|moves| - 1];
      NothingIgnored(s, moves[..|moves| - 1]);
      assert last in moves;
      if last.pid in before.procs {
        StepMovesOne(before, last.pid, last.fault);
      }
    }
  }

  /** While the share never goes down, at most one call succeeds, whatever else fails and whoever dies. */
  lemma AtMostOneSucceeds(s: State, moves: seq<Move>)
    requires Initial(s) && forall m :: m in moves ==> m.fault != ErrorDown
    ensures |Winners(Run(s, moves))| <= 1
  {
    NothingIgnored(s, moves);
    SuccessesCounted(s, moves);
  }

  lemma {:induction false} RunConcat(s: State, a: seq<Move>, b: seq<Move>)
    ensures Run(s, a + b) == Run(Run(s, a), b)
  {
    if b == [] {
      assert a + b == a;
    } else {
      assert (a + b)[..|a + b| - 1] == a + b[..|b| - 1];
      RunConcat(s, a, b[..|b| - 1]);
    }
  }

  /** Some interleaving leads from `s` to `t`. */
  ghost predicate Leads(s: State, t: State) {
    exists moves :: Run(s, moves) == t
  }

  lemma LeadsOn(s: State, t: State, p: Pid, f: Fault)
    requires Leads(s, t)
    ensures Leads(s, Step(t, p, f))
  {
    var moves :| Run(s, moves) == t;
    assert (moves + [Move(p, f)])[..|moves|] == moves;
    assert Run(s, moves + [Move(p, f)]) == Step(t, p, f);
  }

  function With(s: State, p: Pid, q: Proc): State {
    s.(procs := s.procs[p := q])
  }

  /** The position of a claim that holds, or is about to take, the lock on inode `i`. */
  function At(t: State, p: Pid, pc: Pc, i: Inode): State {
    With(t, p, Proc(Claimer, pc, Some(i), None))
  }

  // One operation each.

  lemma OpStart(s: State, p: Pid)
    requires s.pending && p in s.procs && s.procs[p] == Proc(Claimer, Start, None, None)
    ensures Step(s, p, NoFault) == With(s, p, Proc(Claimer, Touch, None, None))
  {
  }

  lemma OpTouch(s: State, p: Pid)
    ensures Step(With(s, p, Proc(Claimer, Touch, None, None)), p, NoFault)
         == With(MakeLockFile(s), p, Proc(Claimer, Open, None, None))
  {
  }

  lemma OpOpen(s: State, p: Pid)
    requires s.lockPath.Some?
    ensures Step(With(s, p, Proc(Claimer, Open, None, None)), p, NoFault) == At(s, p, Lock, s.lockPath.value)
  {
  }

  lemma OpLock(s: State, p: Pid, i: Inode)
    requires i !in s.holder
    ensures Step(At(s, p, Lock, i), p, NoFault) == At(s.(holder := s.holder[i := p]), p, Check, i)
  {
  }

  lemma OpCheck(s: State, p: Pid, i: Inode)
    requires s.pending
    ensures Step(At(s, p, Check, i), p, NoFault) == At(s, p, Read, i)
    ensures Step(At(s, p, Read, i), p, NoFault) == At(s, p, Write, i)
  {
  }

  lemma OpWriteDown(s: State, p: Pid, i: Inode)
    ensures Step(At(s, p, Write, i), p, ErrorDown) == At(s, p, LocalWrite, i)
    ensures Step(At(s, p, LocalWrite, i), p, NoFault) == At(s.(local := s.local + {p}), p, LocalRemove, i)
  {
  }

  lemma OpRemoveDown(s: State, p: Pid, i: Inode)
    ensures Step(At(s, p, LocalRemove, i), p, ErrorDown)
         == With(s.(ignored := s.ignored + 1), p, Proc(Claimer, Unlock, Some(i), Some(true)))
  {
  }

  lemma OpUnlock(s: State, p: Pid, i: Inode)
    requires s.holder == map[i := p]
    ensures Step(With(s, p, Proc(Claimer, Unlock, Some(i), Some(true))), p, NoFault)
         == With(s.(holder := map[]), p, Proc(Claimer, Unlink, Some(i), Some(true)))
  {
    assert s.holder - {i} == map[];
  }

  /** A claim finds the task pending and gets as far as writing its record. */
  lemma ClaimReachesWrite(s: State, p: Pid, made: State, i: Inode)
    requires s.pending && s.holder == map[] && p in s.procs && s.procs[p] == Proc(Claimer, Start, None, None)
    requires made == MakeLockFile(s) && i == made.lockPath.value
    ensures Leads(s, At(made.(holder := map[i := p]), p, Write, i))
  {
    var u := made.(holder := map[i := p]);
    var none := Proc(Claimer, Start, None, None);
    assert Leads(s, s) by { assert Run(s, []) == s; }
    OpStart(s, p);
    LeadsOn(s, s, p, NoFault);
    OpTouch(s, p);
    LeadsOn(s, With(s, p, none.(pc := Touch)), p, NoFault);
    OpOpen(made, p);
    LeadsOn(s, With(made, p, none.(pc := Open)), p, NoFault);
    OpLock(made, p, i);
    LeadsOn(s, At(made, p, Lock, i), p, NoFault);
    OpCheck(u, p, i);
    LeadsOn(s, At(u, p, Check, i), p, NoFault);
    LeadsOn(s, At(u, p, Read, i), p, NoFault);
  }

  /** With the share down from the write on, the claim is recorded locally and counts as a success. */
  lemma WriteDownSucceeds(s: State, u: State, p: Pid, i: Inode)
    requires Leads(s, At(u, p, Write, i)) && u.holder == map[i := p]
    ensures Leads(s, With(u.(local := u.local + {p}, ignored := u.ignored + 1, holder := map[]), p,
                          Proc(Claimer, Unlink, Some(i), Some(true))))
  {
    var w := u.(local := u.local + {p});
    var x := w.(ignored := w.ignored + 1);
    OpWriteDown(u, p, i);
    LeadsOn(s, At(u, p, Write, i), p, ErrorDown);
    LeadsOn(s, At(u, p, LocalWrite, i), p, NoFault);
    OpRemoveDown(w, p, i);
    LeadsOn(s, At(w, p, LocalRemove, i), p, ErrorDown);
    OpUnlock(x, p, i);
    LeadsOn(s, With(x, p, Proc(Claimer, Unlock, Some(i), Some(true))), p, NoFault);
  }

  lemma DownClaim(s: State, p: Pid) returns (t: State)
    requires s.pending && s.holder == map[] && p in s.procs && s.procs[p] == Proc(Claimer, Start, None, None)
    ensures t.pending && t.holder == map[] && t.procs.Keys == s.procs.Keys && Leads(s, t)
    ensures t.procs[p].outcome == Some(true) && forall r :: r in s.procs && r != p ==> t.procs[r] == s.procs[r]
  {
    var made := MakeLockFile(s);
    var i := made.lockPath.value;
    ClaimReachesWrite(s, p, made, i);
    var u := made.(holder := map[i := p]);
    WriteDownSucceeds(s, u, p, i);
    t := With(u.(local := u.local + {p}, ignored := u.ignored + 1, holder := map[]), p,
              Proc(Claimer, Unlink, Some(i), Some(true)));
  }

  /** So while the share is down two callers can claim the same task, one after the other. */
  lemma DoubleClaimWhenDown(s: State, p: Pid, q: Pid)
    requires Initial(s) && p != q && p in s.procs && q in s.procs
    requires s.procs[p].role == s.procs[q].role == Claimer
    ensures exists moves :: {p, q} <= Winners(Run(s, moves))
  {
    var t := DownClaim(s, p);
    var u := DownClaim(t, q);
    var first :| Run(s, first) == t;
    var second :| Run(t, second) == u;
    RunConcat(s, first, second);
    assert {p, q} <= Winners(Run(s, first + second));
  }

  // ---------------------------------------------------------------------------
  // While the share is not down: the lock keeps everybody else's hands off the board
  // ---------------------------------------------------------------------------

  predicate InCritical(pc: Pc) {
    pc in {Check, Read, Split, Write, Remove, Unlock}
  }

  /** What a process has done so far, by its position. */
  ghost predicate ProcOk(s: State, p: Pid)
    requires p in s.procs
  {
    var q := s.procs[p];
    && q.pc != LocalWrite && q.pc != LocalRemove
    && (q.pc in {Start, Touch, Open} ==> q.fd == None)
    && (q.pc in {Lock, Check, Read, Split, Write, Remove, Unlock} ==> q.fd.Some?)
    && (InCritical(q.pc) ==> q.fd.value in s.holder && s.holder[q.fd.value] == p)
    && (q.pc !in {Unlock, Unlink, Done} ==> q.outcome == None)
    && (q.pc == Unlock ==> q.outcome.Some?)
    && (q.pc == Unlink ==> q.outcome == Some(true))
    && (q.pc == Split ==> q.role == Decomposer)
  }

  /** The record of a process is on the board, complete. */
  predicate HasRecord(s: State, p: Pid)
    requires p in s.procs
  {
    match s.procs[p].role
    case Claimer => s.claimed == Some(p)
    case Decomposer => s.decomposed == Some(p) && s.split == Some(p)
  }

  ghost predicate Positions(s: State) {
    forall p :: p in s.procs ==> ProcOk(s, p)
  }

  /** Until the pending file is gone nobody has won, so nobody has unlinked the lock file. */
  ghost predicate OneLockFile(s: State) {
    s.pending ==> forall p :: p in s.procs ==>
      s.procs[p].outcome != Some(true) && (s.procs[p].fd.Some? ==> s.procs[p].fd == s.lockPath)
  }

  ghost predicate AtWorkOnPending(s: State) {
    forall p :: p in s.procs && s.procs[p].pc in {Read, Split, Write, Remove} ==> s.pending
  }

  ghost predicate OneWinner(s: State) {
    && (!s.pending ==> exists p :: p in s.procs && s.procs[p].outcome == Some(true))
    && (forall p, q ::
         p in s.procs && q in s.procs && s.procs[p].outcome == s.procs[q].outcome == Some(true) ==> p == q)
  }

  ghost predicate Guarded(s: State) {
    Positions(s) && OneLockFile(s) && AtWorkOnPending(s) && OneWinner(s)
  }

  /** The record of whoever is about to remove the pending file, or has removed it, is complete. */
  ghost predicate Records(s: State) {
    && (forall p :: p in s.procs && (s.procs[p].pc == Remove || s.procs[p].outcome == Some(true)) ==> HasRecord(s, p))
    && (forall p :: p in s.procs && s.procs[p].pc == Write && s.procs[p].role == Decomposer ==> s.split == Some(p))
  }

  ghost predicate Safe(s: State) {
    Guarded(s) && Records(s)
  }

  /** While the pending file is there, the lock does exclude. */
  lemma MutualExclusion(s: State, p: Pid, q: Pid)
    requires Positions(s) && OneLockFile(s) && s.pending && p in s.procs && q in s.procs
    requires InCritical(s.procs[p].pc) && InCritical(s.procs[q].pc)
    ensures p == q
  {
    assert ProcOk(s, p) && ProcOk(s, q);
  }

  /** Nobody loses a lock to someone else's step. */
  lemma StepKeepsLocks(s: State, p: Pid, f: Fault)
    ensures var s' := Step(s, p, f);
      forall i :: i in s.holder && s.holder[i] != p ==> i in s'.holder && s'.holder[i] == s.holder[i]
  {
  }

  lemma StepOwnPosition(s: State, p: Pid, f: Fault)
    requires p in s.procs && ProcOk(s, p) && f != ErrorDown
    ensures ProcOk(Step(s, p, f), p)
  {
  }

  lemma OtherPosition(s: State, s': State, p: Pid, q: Pid)
    requires q in s.procs && ProcOk(s, q) && q != p && q in s'.procs && s'.procs[q] == s.procs[q]
    requires forall i :: i in s.holder && s.holder[i] != p ==> i in s'.holder && s'.holder[i] == s.holder[i]
    ensures ProcOk(s', q)
  {
  }

  lemma StepPositions(s: State, p: Pid, f: Fault)
    requires Positions(s) && p in s.procs && f != ErrorDown
    ensures Positions(Step(s, p, f))
  {
    var s' := Step(s, p, f);
    StepMovesOne(s, p, f);
    StepKeepsLocks(s, p, f);
    StepOwnPosition(s, p, f);
    PositionsFrom(s, s', p);
  }

  lemma PositionsFrom(s: State, s': State, p: Pid)
    requires Positions(s) && p in s.procs && p in s'.procs && s'.procs == s.procs[p := s'.procs[p]] && ProcOk(s', p)
    requires forall i :: i in s.holder && s.holder[i] != p ==> i in s'.holder && s'.holder[i] == s.holder[i]
    ensures Positions(s')
  {
    forall q | q in s'.procs ensures ProcOk(s', q) {
      if q != p {
        OtherPosition(s, s', p, q);
      }
    }
  }

  lemma StepOneLockFile(s: State, p: Pid, f: Fault)
    requires Positions(s) && OneLockFile(s) && p in s.procs && f != ErrorDown
    ensures OneLockFile(Step(s, p, f))
  {
    StepMovesOne(s, p, f);
    assert ProcOk(s, p);
  }

  /** A step that leaves the board alone. */
  predicate QuietStep(s: State, s': State, p: Pid)
    requires p in s.procs && p in s'.procs
  {
    var q, q' := s.procs[p], s'.procs[p];
    && s'.pending == s.pending && s'.claimed == s.claimed && s'.decomposed == s.decomposed && s'.split == s.split
    && q'.pc != Remove && (q'.pc == Write ==> q'.role == Claimer)
    && (q'.pc in {Read, Split, Write} ==> s.pending)
    && (q.outcome == Some(true) <==> q'.outcome == Some(true))
  }

  /** A step of a process that holds the lock and works on the pending file. */
  predicate BoardStep(s: State, s': State, p: Pid)
    requires p in s.procs && p in s'.procs
  {
    var q, q' := s.procs[p], s'.procs[p];
    && s.pending && q.pc in {Split, Write, Remove} && q.outcome == None
    && (match q.pc
        case Split =>
          && s'.split == Some(p) && s'.claimed == s.claimed && s'.decomposed == s.decomposed
          && s'.pending && q'.pc == Write && q'.outcome == None && q'.role == Decomposer
        case Write =>
          && s'.split == s.split && s'.pending && q'.pc == Remove && q'.outcome == None
          && (if q.role == Claimer then s'.claimed == Some(p) && s'.decomposed == s.decomposed
              else s'.decomposed == Some(p) && s'.claimed == s.claimed)
        case _ =>
          && s'.split == s.split && s'.claimed == s.claimed && s'.decomposed == s.decomposed
          && !s'.pending && q'.pc == Unlock && q'.outcome == Some(true))
  }

  lemma StepKinds(s: State, p: Pid, f: Fault)
    requires p in s.procs && ProcOk(s, p) && f != ErrorDown
    requires s.procs[p].pc in {Read, Split, Write, Remove} ==> s.pending
    ensures var s' := Step(s, p, f); QuietStep(s, s', p) || BoardStep(s, s', p)
  {
  }

  ghost predicate Moved(s: State, s': State, p: Pid) {
    p in s.procs && p in s'.procs && s'.procs == s.procs[p := s'.procs[p]] && s'.procs[p].role == s.procs[p].role
  }

  /** A process that writes or removes is alone in the critical section, and nobody else has won. */
  lemma WriterIsAlone(s: State, p: Pid, q: Pid)
    requires Guarded(s) && p in s.procs && s.procs[p].pc in {Split, Write, Remove}
    requires q in s.procs && (s.procs[q].pc in {Read, Split, Write, Remove} || s.procs[q].outcome == Some(true))
    ensures q == p
  {
    assert ProcOk(s, p) && ProcOk(s, q);
    MutualExclusion(s, p, q);
  }

  lemma QuietKeepsWinner(s: State, s': State, p: Pid)
    requires AtWorkOnPending(s) && OneWinner(s) && Moved(s, s', p) && QuietStep(s, s', p)
    ensures AtWorkOnPending(s') && OneWinner(s')
  {
    if !s.pending {
      var w :| w in s.procs && s.procs[w].outcome == Some(true);
      assert s'.procs[w].outcome == Some(true);
    }
  }

  lemma QuietKeepsRecords(s: State, s': State, p: Pid)
    requires Records(s) && Moved(s, s', p) && QuietStep(s, s', p)
    ensures Records(s')
  {
    forall r | r in s'.procs && (s'.procs[r].pc == Remove || s'.procs[r].outcome == Some(true))
      ensures HasRecord(s', r) {
      assert HasRecord(s, r);
    }
  }

  lemma BoardKeepsWinner(s: State, s': State, p: Pid)
    requires Guarded(s) && Moved(s, s', p) && BoardStep(s, s', p)
    ensures AtWorkOnPending(s') && OneWinner(s')
  {
    forall r | r in s.procs && (s.procs[r].pc in {Read, Split, Write, Remove} || s.procs[r].outcome == Some(true))
      ensures r == p
    {
      WriterIsAlone(s, p, r);
    }
  }

  lemma BoardKeepsRecords(s: State, s': State, p: Pid)
    requires Safe(s) && Moved(s, s', p) && BoardStep(s, s', p)
    ensures Records(s')
  {
    forall r | r in s.procs && (s.procs[r].pc in {Read, Split, Write, Remove} || s.procs[r].outcome == Some(true))
      ensures r == p
    {
      WriterIsAlone(s, p, r);
    }
  }

  /** What a step of a process in the pool is, and what it leaves guarded. */
  lemma StepGuarded(s: State, p: Pid, f: Fault)
    requires Guarded(s) && p in s.procs && f != ErrorDown
    ensures var s' := Step(s, p, f); Guarded(s') && Moved(s, s', p) && (QuietStep(s, s', p) || BoardStep(s, s', p))
  {
    StepPositions(s, p, f);
    StepOneLockFile(s, p, f);
    StepMovesOne(s, p, f);
    assert ProcOk(s, p);
    StepKinds(s, p, f);
    if QuietStep(s, Step(s, p, f), p) {
      QuietKeepsWinner(s, Step(s, p, f), p);
    } else {
      BoardKeepsWinner(s, Step(s, p, f), p);
    }
  }

  lemma StepSafe(s: State, p: Pid, f: Fault)
    requires Safe(s) && f != ErrorDown
    ensures Safe(Step(s, p, f))
  {
    if p in s.procs {
      StepGuarded(s, p, f);
      if QuietStep(s, Step(s, p, f), p) {
        QuietKeepsRecords(s, Step(s, p, f), p);
      } else {
        BoardKeepsRecords(s, Step(s, p, f), p);
      }
    }
  }

  lemma {:induction false} RunSafe(s: State, moves: seq<Move>)
    requires Initial(s) && forall m :: m in moves ==> m.fault != ErrorDown
    ensures Safe(Run(s, moves))
  {
    if moves != [] {
      var last := |moves| - 1;
      RunSafe(s, moves[..last]);
      assert moves[last] in moves;
      StepSafe(Run(s, moves[..last]), moves[last].pid, moves[last].fault);
    }
  }

  /**
   In every interleaving, whatever fails and whoever dies while the share is not down: the pending file is gone exactly
   when somebody has won, and the winner's own record is in its new directory, complete.
   */
  lemma WinnerTakesTask(s: State, moves: seq<Move>, p: Pid)
    requires Initial(s) && forall m :: m in moves ==> m.fault != ErrorDown
    ensures var s' := Run(s, moves);
      && (p in s'.procs && s'.procs[p].outcome == Some(true) ==> HasRecord(s', p) && !s'.pending)
      && (!s'.pending ==> exists w :: w in s'.procs && s'.procs[w].outcome == Some(true) && HasRecord(s', w))
  {
    RunSafe(s, moves);
  }

  // What a call that has not won leaves behind.

  /** The process is at this position, and the last of the moves is its next operation, with this fault or none. */
  predicate LastIs(s: State, moves: seq<Move>, p: Pid, pc: Pc, failed: bool) {
    && moves != [] && moves[|moves| - 1].pid == p && (moves[|moves| - 1].fault != NoFault <==> failed)
    && var before := Run(s, moves[..|moves| - 1]); p in before.procs && before.procs[p].pc == pc
  }

  /** Some move wrote the process's record into its new directory. */
  predicate HasWritten(s: State, moves: seq<Move>, p: Pid) {
    moves != [] && (LastIs(s, moves, p, Write, false) || HasWritten(s, moves[..|moves| - 1], p))
  }

  /** Some move was the failure or the death of the process when it was about to remove the pending file. */
  predicate FailedAtRemove(s: State, moves: seq<Move>, p: Pid) {
    moves != [] && (LastIs(s, moves, p, Remove, true) || FailedAtRemove(s, moves[..|moves| - 1], p))
  }

  lemma StepRecords(s: State, p: Pid, f: Fault)
    requires p in s.procs && ProcOk(s, p) && f != ErrorDown
    requires s.procs[p].pc in {Read, Split, Write, Remove} ==> s.pending
    ensures var q, q' := s.procs[p], Step(s, p, f).procs[p];
      && (q'.pc == Remove <==> q.pc == Write && f == NoFault)
      && (q'.outcome == Some(true) <==> q.outcome == Some(true) || (q.pc == Remove && f == NoFault))
  {
  }

  /** While the share is up, a call has written its record exactly if it is about to remove, has won or failed there. */
  lemma {:induction false} WrittenIff(s: State, moves: seq<Move>, p: Pid)
    requires Initial(s) && (forall m :: m in moves ==> m.fault != ErrorDown) && p in Run(s, moves).procs
    ensures var q := Run(s, moves).procs[p];
      HasWritten(s, moves, p) <==> q.pc == Remove || q.outcome == Some(true) || FailedAtRemove(s, moves, p)
  {
    if moves != [] {
      var before, m := Run(s, moves[..|moves| - 1]), moves[|moves| - 1];
      assert m in moves;
      RunSafe(s, moves[..|moves| - 1]);
      if m.pid in before.procs {
        StepMovesOne(before, m.pid, m.fault);
        assert ProcOk(before, m.pid);
        StepRecords(before, m.pid, m.fault);
      }
      WrittenIff(s, moves[..|moves| - 1], p);
    }
  }

  /** So a call that is over and has not won has left a record exactly if it failed or died between write and remove. */
  lemma LoserHasWrittenIff(s: State, moves: seq<Move>, p: Pid)
    requires Initial(s) && (forall m :: m in moves ==> m.fault != ErrorDown) && p in Run(s, moves).procs
    requires Run(s, moves).procs[p].pc == Done && Run(s, moves).procs[p].outcome != Some(true)
    ensures HasWritten(s, moves, p) <==> FailedAtRemove(s, moves, p)
  {
    WrittenIff(s, moves, p);
  }

  // What a call that has won has done, even when the share is down.

  /** What a process has to show at its position, given whether it has written its record. */
  ghost predicate Backed(s: State, written: bool, p: Pid)
    requires p in s.procs
  {
    var q := s.procs[p];
    && (q.pc == Remove ==> written)
    && (q.pc == LocalWrite ==> q.role == Claimer)
    && (q.pc == LocalRemove ==> q.role == Claimer && p in s.local)
    && (q.outcome == Some(true) ==> written || (q.role == Claimer && p in s.local))
    && (p in s.local ==> q.role == Claimer)
  }

  lemma StepBacked(s: State, p: Pid, f: Fault, q: Pid, written: bool)
    requires p in s.procs && q in s.procs && Backed(s, written, q)
    ensures var s' := Step(s, p, f);
      q in s'.procs && Backed(s', written || (p == q && f == NoFault && s.procs[p].pc == Write), q)
  {
    StepMovesOne(s, p, f);
  }

  lemma {:induction false} RunBacked(s: State, moves: seq<Move>, p: Pid)
    requires Initial(s) && p in Run(s, moves).procs
    ensures Backed(Run(s, moves), HasWritten(s, moves, p), p)
  {
    if moves != [] {
      var before, m := Run(s, moves[..|moves| - 1]), moves[|moves| - 1];
      if m.pid in before.procs {
        StepMovesOne(before, m.pid, m.fault);
        RunBacked(s, moves[..|moves| - 1], p);
        StepBacked(before, m.pid, m.fault, p, HasWritten(s, moves[..|moves| - 1], p));
      } else {
        RunBacked(s, moves[..|moves| - 1], p);
      }
    }
  }

  lemma {:induction false} LocalIsOfPool(s: State, moves: seq<Move>, p: Pid)
    requires Initial(s) && p in Run(s, moves).local
    ensures p in Run(s, moves).procs
  {
    var before, m := Run(s, moves[..|moves| - 1]), moves[|moves| - 1];
    if m.pid in before.procs {
      StepMovesOne(before, m.pid, m.fault);
    }
    if p in before.local {
      LocalIsOfPool(s, moves[..|moves| - 1], p);
    }
  }

  /**
   In every run, whatever fails, the share being down included: only claims go local; and a call that has taken the task
   has written its record into its new directory, or is a claim that has written it locally.
   */
  lemma OnlyClaimsGoLocal(s: State, moves: seq<Move>, p: Pid)
    requires Initial(s)
    ensures var t := Run(s, moves);
      && (p in t.local ==> p in t.procs && t.procs[p].role == Claimer)
      && (p in t.procs && t.procs[p].outcome == Some(true) ==>
           HasWritten(s, moves, p) || (t.procs[p].role == Claimer && p in t.local))
  {
    if p in Run(s, moves).local {
      LocalIsOfPool(s, moves, p);
    }
    if p in Run(s, moves).procs {
      RunBacked(s, moves, p);
    }
  }

  /** So a decomposition that has won has written the parent into decomposed/, in every run. */
  lemma DecomposerHasWritten(s: State, moves: seq<Move>, p: Pid)
    requires Initial(s) && p in Run(s, moves).procs
    requires Run(s, moves).procs[p].role == Decomposer && Run(s, moves).procs[p].outcome == Some(true)
    ensures HasWritten(s, moves, p)
  {
    OnlyClaimsGoLocal(s, moves, p);
  }

  // ---------------------------------------------------------------------------
  // What a failure does, and what works
  // ---------------------------------------------------------------------------

  /** The two states agree in everything but the process and the locks. */
  predicate SameFiles(s: State, t: State) {
    t.pending == s.pending && t.split == s.split && t.claimed == s.claimed && t.decomposed == s.decomposed
    && t.local == s.local && t.lockPath == s.lockPath && t.inodes == s.inodes
  }

  /**
   A step that fails changes no file. The call then gives up, and releases its lock if it has it, unless it is a claim
   that finds the share down, which goes local, or one that cannot remove the pending file after its local write, which
   has succeeded all the same.
   */
  lemma FailedStep(s: State, p: Pid, f: Fault)
    requires p in s.procs && s.procs[p].pc !in {Unlock, Done} && f != NoFault
    ensures SameFiles(s, Step(s, p, f)) && p in Step(s, p, f).procs
    ensures var (q, q') := (s.procs[p], Step(s, p, f).procs[p]);
      if f == Crash || q.pc == Unlink then q'.pc == Done && q'.outcome == q.outcome
      else if q.pc in {Start, Touch, Open, Lock} then q'.pc == Done && q'.outcome == Some(false)
      else if q.pc == LocalRemove then q'.pc == Unlock && q'.outcome == Some(true)
      else if q.pc in {Write, Remove} && f == ErrorDown && q.role == Claimer
      then q'.pc == LocalWrite && q'.outcome == q.outcome
      else q'.pc == Unlock && q'.outcome == Some(false)
    ensures Step(s, p, f).ignored == s.ignored + if s.procs[p].pc == LocalRemove && f != Crash then 1 else 0
    ensures f != Crash ==> Step(s, p, f).holder == s.holder
    ensures f == Crash ==> forall i :: s.procs[p].fd == Some(i) && i in Step(s, p, f).holder ==> s.holder[i] != p
  {
  }

  /** What the operations that work do to the files and the locks. */
  lemma WorkingStep(s: State, p: Pid)
    requires p in s.procs
    ensures var (q, t) := (s.procs[p], Step(s, p, NoFault));
      && (q.pc == Touch ==> t.lockPath.Some? && (s.lockPath.Some? ==> t.lockPath == s.lockPath))
      && (q.pc == Open ==> t.lockPath.Some? && p in t.procs && t.procs[p].fd == t.lockPath)
      && (q.pc == Lock && q.fd.Some? && q.fd.value !in s.holder ==> t.holder == s.holder[q.fd.value := p])
      && (q.pc == Split ==> t.split == Some(p))
      && (q.pc == Write ==> if q.role == Claimer then t.claimed == Some(p) else t.decomposed == Some(p))
      && (q.pc == LocalWrite ==> t.local == s.local + {p})
      && (q.pc in {Remove, LocalRemove} && s.pending ==> !t.pending && p in t.procs && t.procs[p].outcome == Some(true))
      && (q.pc == LocalRemove && s.pending ==> t.ignored == s.ignored)
      && (q.pc == Unlink ==> t.lockPath == None)
      && (q.pc == Unlock && q.fd.Some? && q.fd.value in s.holder && s.holder[q.fd.value] == p ==>
           t.holder == s.holder - {q.fd.value})
  {
  }

  predicate HasFailed(s: State, p: Pid) {
    p in s.procs && s.procs[p].outcome == Some(false) && s.procs[p].pc in {Unlock, Unlink, Done}
  }

  lemma StaysFailed(s: State, q: Pid, f: Fault, p: Pid)
    requires HasFailed(s, p)
    ensures HasFailed(Step(s, q, f), p)
  {
  }

  /** In every run, a call that met an error while the share was healthy, before it was decided, has failed. */
  lemma {:induction false} ErrorIsReported(s: State, moves: seq<Move>, n: nat, p: Pid)
    requires n < |moves| && moves[n] == Move(p, ErrorHealthy) && p in Run(s, moves[..n]).procs
    requires Run(s, moves[..n]).procs[p].pc !in {LocalRemove, Unlock, Unlink, Done}
    ensures HasFailed(Run(s, moves), p)
  {
    var rest, last := moves[..|moves| - 1], moves[|moves| - 1];
    if n == |rest| {
      FailedStep(Run(s, rest), p, ErrorHealthy);
    } else {
      assert rest[..n] == moves[..n];
      ErrorIsReported(s, rest, n, p);
      StaysFailed(Run(s, rest), last.pid, last.fault, p);
    }
  }

  // ---------------------------------------------------------------------------
  // Progress
  // ---------------------------------------------------------------------------

  /** Every lock that is held is held on its opened inode by a process that is not past its unlock. */
  ghost predicate HoldersWork(s: State) {
    forall i :: i in s.holder ==> HoldsLock(s, i)
  }

  predicate HoldsLock(s: State, i: Inode)
    requires i in s.holder
  {
    s.holder[i] in s.procs && var q := s.procs[s.holder[i]];
    q.fd == Some(i) && (InCritical(q.pc) || q.pc == LocalWrite || q.pc == LocalRemove)
  }

  lemma StepHolders(s: State, p: Pid, f: Fault)
    requires HoldersWork(s)
    ensures HoldersWork(Step(s, p, f))
  {
    if p in s.procs {
      var s' := Step(s, p, f);
      StepMovesOne(s, p, f);
      forall i | i in s'.holder ensures HoldsLock(s', i) {
        StepHolder(s, p, f, i);
      }
    }
  }

  lemma StepHolder(s: State, p: Pid, f: Fault, i: Inode)
    requires HoldersWork(s) && p in s.procs && i in Step(s, p, f).holder
    ensures HoldsLock(Step(s, p, f), i)
  {
    assert i in s.holder ==> HoldsLock(s, i);
  }

  lemma {:induction false} RunHolders(s: State, moves: seq<Move>)
    requires Initial(s)
    ensures HoldersWork(Run(s, moves))
  {
    if moves != [] {
      RunHolders(s, moves[..|moves| - 1]);
      StepHolders(Run(s, moves[..|moves| - 1]), moves[|moves| - 1].pid, moves[|moves| - 1].fault);
    }
  }

  /** How far a call is. */
  function Rank(pc: Pc): nat {
    match pc
    case Start => 0
    case Touch => 1
    case Open => 2
    case Lock => 3
    case Check => 4
    case Read => 5
    case Split => 6
    case Write => 7
    case Remove => 8
    case LocalWrite => 9
    case LocalRemove => 10
    case Unlock => 11
    case Unlink => 12
    case Done => 13
  }

  /** A step that changes anything brings its call further: no call takes more than thirteen. */
  lemma StepGoesOn(s: State, p: Pid, f: Fault)
    requires p in s.procs && Step(s, p, f) != s
    ensures Rank(Step(s, p, f).procs[p].pc) > Rank(s.procs[p].pc)
  {
  }

  /** A call that is not over goes on with its next operation, unless it waits for a lock that is held. */
  lemma StepChanges(s: State, p: Pid)
    requires p in s.procs && s.procs[p].pc != Done
    requires s.procs[p].pc == Lock ==> s.procs[p].fd.Some? && s.procs[p].fd.value !in s.holder
    ensures Step(s, p, NoFault) != s
  {
    assert Step(s, p, NoFault).procs[p].pc != s.procs[p].pc;
  }

  /**
   No deadlock, whatever has failed before, although winners unlink the lock file: as long as some call is not over,
   there is a process whose next operation brings it further.
   */
  lemma SomeoneCanGoOn(s: State, moves: seq<Move>, p: Pid) returns (q: Pid)
    requires Initial(s) && p in Run(s, moves).procs && Run(s, moves).procs[p].pc != Done
    ensures q in Run(s, moves).procs && Step(Run(s, moves), q, NoFault) != Run(s, moves)
  {
    RunHolders(s, moves);
    RunOpened(s, moves);
    var t := Run(s, moves);
    q := p;
    if t.procs[p].pc == Lock && t.procs[p].fd.value in t.holder {
      assert HoldsLock(t, t.procs[p].fd.value);
      q := t.holder[t.procs[p].fd.value];
    }
    StepChanges(t, q);
  }

  lemma {:induction false} RunOpened(s: State, moves: seq<Move>)
    requires Initial(s)
    ensures forall p ::
      p in Run(s, moves).procs && Run(s, moves).procs[p].pc == Lock ==> Run(s, moves).procs[p].fd.Some?
  {
    if moves != [] {
      var before, m := Run(s, moves[..|moves| - 1]), moves[|moves| - 1];
      RunOpened(s, moves[..|moves| - 1]);
      if m.pid in before.procs {
        StepMovesOne(before, m.pid, m.fault);
      }
    }
  }

  // ---------------------------------------------------------------------------
  // When nothing fails at all
  // ---------------------------------------------------------------------------

  predicate Wrote(s: State, p: Pid) {
    s.claimed == Some(p) || s.decomposed == Some(p) || s.split == Some(p)
  }

  predicate Finishing(q: Proc) {
    q.pc in {Write, Remove} || q.outcome == Some(true)
  }

  /** Only the process at work and the winner have written anything, and whoever is done has a result. */
  ghost predicate Tidy(s: State) {
    && (forall p :: Wrote(s, p) ==> p in s.procs && Finishing(s.procs[p]))
    && (s.claimed.Some? ==> s.procs[s.claimed.value].role == Claimer)
    && (s.decomposed.Some? ==> s.procs[s.decomposed.value].role == Decomposer)
    && (forall p :: p in s.procs && s.procs[p].pc == Done ==> s.procs[p].outcome.Some?)
  }

  /** Whoever has written is the one at work. */
  lemma OnlyWriter(s: State, p: Pid, r: Pid)
    requires Guarded(s) && Tidy(s) && Wrote(s, r) && p in s.procs && s.procs[p].pc in {Split, Write, Remove}
    ensures r == p
  {
    WriterIsAlone(s, p, r);
  }

  lemma QuietKeepsTidy(s: State, s': State, p: Pid)
    requires Tidy(s) && Moved(s, s', p) && QuietStep(s, s', p) && s.procs[p].pc !in {Write, Remove}
    requires s'.procs[p].pc == Done ==> s'.procs[p].outcome.Some?
    ensures Tidy(s')
  {
    forall r | Wrote(s', r) ensures r in s'.procs && Finishing(s'.procs[r]) {
      assert Wrote(s, r);
    }
  }

  lemma BoardKeepsTidy(s: State, s': State, p: Pid)
    requires Guarded(s) && Tidy(s) && Moved(s, s', p) && BoardStep(s, s', p)
    ensures Tidy(s')
  {
    forall r | Wrote(s', r) ensures r == p {
      if Wrote(s, r) {
        OnlyWriter(s, p, r);
      }
    }
  }

  /** Without faults, the work on the pending file goes on to its end, and nobody is done without a result. */
  lemma StepWorks(s: State, p: Pid)
    requires p in s.procs && ProcOk(s, p) && (s.procs[p].pc in {Read, Split, Write, Remove} ==> s.pending)
    requires s.procs[p].pc == Done ==> s.procs[p].outcome.Some?
    ensures var s' := Step(s, p, NoFault);
      && (s'.procs[p].pc == Done ==> s'.procs[p].outcome.Some?)
      && (QuietStep(s, s', p) ==> s.procs[p].pc !in {Write, Remove})
  {
  }

  lemma StepTidy(s: State, p: Pid)
    requires Guarded(s) && Tidy(s)
    ensures Tidy(Step(s, p, NoFault))
  {
    if p in s.procs {
      StepGuarded(s, p, NoFault);
      assert ProcOk(s, p);
      StepWorks(s, p);
      if QuietStep(s, Step(s, p, NoFault), p) {
        QuietKeepsTidy(s, Step(s, p, NoFault), p);
      } else {
        BoardKeepsTidy(s, Step(s, p, NoFault), p);
      }
    }
  }

  lemma {:induction false} RunTidy(s: State, moves: seq<Move>)
    requires Initial(s) && forall m :: m in moves ==> m.fault == NoFault
    ensures Safe(Run(s, moves)) && Tidy(Run(s, moves))
  {
    RunSafe(s, moves);
    if moves != [] {
      var last := |moves| - 1;
      RunTidy(s, moves[..last]);
      assert moves[last] in moves;
      StepTidy(Run(s, moves[..last]), moves[last].pid);
    }
  }

  /** A claim and a decomposition never both take effect, and a call that failed has written nothing. */
  lemma LosersWriteNothing(s: State, moves: seq<Move>, p: Pid)
    requires Initial(s) && forall m :: m in moves ==> m.fault == NoFault
    ensures var s' := Run(s, moves);
      && !(s'.claimed.Some? && s'.decomposed.Some?)
      && (p in s'.procs && s'.procs[p].outcome == Some(false) ==> !Wrote(s', p))
  {
    RunTidy(s, moves);
    var s' := Run(s, moves);
    if s'.claimed.Some? && s'.decomposed.Some? {
      WrittenByOne(s', s'.claimed.value, s'.decomposed.value);
    }
    if p in s'.procs && s'.procs[p].outcome == Some(false) {
      assert ProcOk(s', p);
    }
  }

  lemma WrittenByOne(s: State, p: Pid, q: Pid)
    requires Guarded(s) && Tidy(s) && Wrote(s, p) && Wrote(s, q)
    ensures p == q
  {
    if s.procs[p].pc in {Write, Remove} {
      OnlyWriter(s, p, q);
    } else if s.procs[q].pc in {Write, Remove} {
      OnlyWriter(s, q, p);
    }
  }

  /** When every caller has returned, exactly one of them has the task. */
  lemma SomeoneSucceeds(s: State, moves: seq<Move>)
    requires Initial(s) && s.procs != map[] && forall m :: m in moves ==> m.fault == NoFault
    requires forall p :: p in Run(s, moves).procs ==> Run(s, moves).procs[p].pc == Done
    ensures |Winners(Run(s, moves))| == 1 && !Run(s, moves).pending
  {
    RunPendingUntilWon(s, moves);
    SuccessesCounted(s, moves);
    NothingIgnored(s, moves);
    ProcsKept(s, moves);
    RunTidy(s, moves);
    var p :| p in s.procs;
    assert p in Run(s, moves).procs;
  }

  /** While the file is pending, nobody has been turned away. */
  lemma {:induction false} RunPendingUntilWon(s: State, moves: seq<Move>)
    requires Initial(s) && forall m :: m in moves ==> m.fault == NoFault
    ensures Run(s, moves).pending ==> forall p :: p in Run(s, moves).procs ==> Run(s, moves).procs[p].outcome == None
  {
    if moves != [] {
      var last := |moves| - 1;
      RunPendingUntilWon(s, moves[..last]);
      RunSafe(s, moves[..last]);
      assert moves[last] in moves;
      var before, p := Run(s, moves[..last]), moves[last].pid;
      if p in before.procs {
        StepMovesOne(before, p, NoFault);
        assert ProcOk(before, p);
        StepUndecided(before, p);
      }
    }
  }

  lemma StepUndecided(s: State, p: Pid)
    requires p in s.procs && ProcOk(s, p)
    ensures var s' := Step(s, p, NoFault);
      s'.pending ==> s.pending && (s.procs[p].outcome == None ==> s'.procs[p].outcome == None)
  {
  }

  lemma {:induction false} ProcsKept(s: State, moves: seq<Move>)
    ensures Run(s, moves).procs.Keys == s.procs.Keys
  {
    if moves != [] {
      ProcsKept(s, moves[..|moves| - 1]);
      var before, p := Run(s, moves[..|moves| - 1]), moves[|moves| - 1].pid;
      if p in before.procs {
        StepMovesOne(before, p, moves[|moves| - 1].fault);
      }
    }
  }
}
