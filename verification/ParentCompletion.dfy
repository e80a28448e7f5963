/**
 The subtasks of a decomposed task being completed by any number of processes at once.

 Every process completes one subtask and then looks whether all subtasks are done; nothing is locked between the
 processes. The parent is completed by whoever still finds it decomposed after seeing all subtasks completed. A subtask
 can also get into completed/ without anybody looking: when it was completed locally while the share was down and is
 brought back later, or when it was itself decomposed and has been completed automatically.
 */
module ParentCompletion {

  type Pid = nat
  type Sub = nat

  datatype Pc =
    | CheckClaimed        // is there a claimed file of the subtask?
    | ReadClaimed
    | WriteCompleted      // write it to completed/
    | RemoveClaimed       // remove the claimed file
    | WriteLocal          // the share is down: write it to the local directory
    | RemoveLocal         // and try to remove the claimed file all the same
    | CheckParent         // is the parent in decomposed/?
    | ReadParent
    | Scan(next: nat)     // is the next subtask in completed/?
    | WriteParent         // write the parent to completed/
    | RemoveParent        // remove it from decomposed/
    | Returned(auto: bool)
    | Raised              // a file was gone that had to be there, an operation failed, or the process died

  datatype Proc = Proc(sub: Sub, pc: Pc)

  datatype State = State(
    claimed: set<Sub>,        // whose claimed file is there
    completed: set<Sub>,      // what is in completed/ on the share
    local: set<Sub>,          // what is in a local completed directory
    decomposed: bool,         // the parent is in decomposed/
    parentCompleted: bool,    // the parent is in completed/
    procs: map<Pid, Proc>)

  datatype Move =
    | Act(pid: Pid)           // the next operation of a process
    | Stop(pid: Pid)          // the process dies, or the operation fails and its call with it
    | GoLocal(pid: Pid)       // the write or the remove fails, and the share is found to be down
    | Ignore(pid: Pid)        // the remove after a local write fails, which is ignored
    | Claim(sub: Sub)
    | Unclaim(sub: Sub)       // the claimed file is taken away, as a requeue does
    | Copy(sub: Sub)          // a subtask is brought back from a local directory: it is written to completed/
    | Drop(sub: Sub)          // and the local file is removed
    | Nested(sub: Sub)        // the subtask was itself decomposed, and is completed automatically

  /** Every process is about to complete one of the subtasks. */
  predicate Initial(subs: seq<Sub>, s: State) {
    && s.completed == {} && s.local == {} && s.decomposed && !s.parentCompleted
    && forall p :: p in s.procs ==> s.procs[p].pc == CheckClaimed && s.procs[p].sub in subs
  }

  function Goto(s: State, p: Pid, pc: Pc): State
    requires p in s.procs
  {
    s.(procs := s.procs[p := s.procs[p].(pc := pc)])
  }

  function Operate(subs: seq<Sub>, s: State, p: Pid): State
    requires p in s.procs
  {
    var sub := s.procs[p].sub;
    match s.procs[p].pc
    case CheckClaimed => Goto(s, p, if sub in s.claimed then ReadClaimed else Raised)
    case ReadClaimed => Goto(s, p, if sub in s.claimed then WriteCompleted else Raised)
    case WriteCompleted => Goto(s.(completed := s.completed + {sub}), p, RemoveClaimed)
    case RemoveClaimed =>
      if sub in s.claimed then Goto(s.(claimed := s.claimed - {sub}), p, CheckParent) else Goto(s, p, Raised)
    case WriteLocal => Goto(s.(local := s.local + {sub}), p, RemoveLocal)
    case RemoveLocal => Goto(s.(claimed := s.claimed - {sub}), p, CheckParent)
    case CheckParent => Goto(s, p, if s.decomposed then ReadParent else Returned(false))
    case ReadParent =>
      Goto(s, p, if !s.decomposed then Raised else if subs == [] then Returned(false) else Scan(0))
    case Scan(i) =>
      Goto(s, p, if i >= |subs| then WriteParent else if subs[i] in s.completed then Scan(i + 1) else Returned(false))
    case WriteParent => Goto(s.(parentCompleted := true), p, RemoveParent)
    case RemoveParent =>
      if s.decomposed then Goto(s.(decomposed := false), p, Returned(true)) else Goto(s, p, Raised)
    case Returned(_) => s
    case Raised => s
  }

  predicate IsAt(s: State, p: Pid, pc: Pc) {
    p in s.procs && s.procs[p].pc == pc
  }

  function Step(subs: seq<Sub>, s: State, m: Move): State {
    match m
    case Act(p) => if p in s.procs then Operate(subs, s, p) else s
    case Stop(p) => if p in s.procs && !s.procs[p].pc.Returned? then Goto(s, p, Raised) else s
    case GoLocal(p) => if IsAt(s, p, WriteCompleted) || IsAt(s, p, RemoveClaimed) then Goto(s, p, WriteLocal) else s
    case Ignore(p) => if IsAt(s, p, RemoveLocal) then Goto(s, p, CheckParent) else s
    case Claim(sub) => s.(claimed := s.claimed + {sub})
    case Unclaim(sub) => s.(claimed := s.claimed - {sub})
    case Copy(sub) => if sub in s.local then s.(completed := s.completed + {sub}) else s
    case Drop(sub) => if sub in s.completed then s.(local := s.local - {sub}) else s
    case Nested(sub) => s.(completed := s.completed + {sub})
  }

  /** After the first n moves. */
  function After(subs: seq<Sub>, s: State, moves: seq<Move>, n: nat): State
    requires n <= |moves|
  {
    if n == 0 then s else Step(subs, After(subs, s, moves, n - 1), moves[n - 1])
  }

  predicate AllCompleted(subs: seq<Sub>, s: State) {
    forall i :: 0 <= i < |subs| ==> subs[i] in s.completed
  }

  predicate AtParent(pc: Pc) {
    pc.CheckParent? || pc.ReadParent? || pc.Scan? || pc.WriteParent? || pc.RemoveParent?
  }

  /** A process that will look at the parent unless its call fails, or is looking. */
  predicate WillLook(s: State, p: Pid) {
    p in s.procs && var q := s.procs[p];
    AtParent(q.pc) || q.pc.WriteLocal? || q.pc.RemoveLocal? || (q.pc.RemoveClaimed? && q.sub in s.claimed)
  }

  ghost predicate NobodyLooks(s: State) {
    forall p :: !WillLook(s, p)
  }

  /** What a process knows at its position. */
  ghost predicate Knows(subs: seq<Sub>, s: State, p: Pid)
    requires p in s.procs
  {
    var q := s.procs[p];
    && (q.pc.Scan? ==> q.pc.next <= |subs| && forall i :: 0 <= i < q.pc.next ==> subs[i] in s.completed)
    && (q.pc.WriteParent? || q.pc.RemoveParent? ==> AllCompleted(subs, s))
    && (q.pc.RemoveParent? || q.pc == Returned(true) ==> s.parentCompleted)
    && (q.pc == Returned(true) ==> !s.decomposed)
  }

  ghost predicate Inv(subs: seq<Sub>, s: State) {
    && (forall p :: p in s.procs ==> Knows(subs, s, p))
    && (s.parentCompleted ==> AllCompleted(subs, s))
    && (!s.decomposed ==> s.parentCompleted && exists p :: p in s.procs && s.procs[p].pc == Returned(true))
    && (forall p, q :: p in s.procs && q in s.procs && s.procs[p].pc == s.procs[q].pc == Returned(true) ==> p == q)
  }

  /** As long as the parent of completed subtasks has not been moved, somebody is still going to look at it. */
  ghost predicate Attended(subs: seq<Sub>, s: State) {
    AllCompleted(subs, s) && s.decomposed ==> !NobodyLooks(s)
  }

  /** The subtask is the only one that is missing. */
  ghost predicate IsLast(subs: seq<Sub>, s: State, sub: Sub) {
    !AllCompleted(subs, s) && forall i :: 0 <= i < |subs| ==> subs[i] in s.completed + {sub}
  }

  /** Somebody is going to look, but nobody but this process. */
  ghost predicate OnlyLooker(s: State, p: Pid) {
    WillLook(s, p) && forall q :: q != p ==> !WillLook(s, q)
  }

  /** Somebody is going to look, but only when the claimed file of this subtask is removed. */
  ghost predicate OnlyBefore(s: State, sub: Sub) {
    !NobodyLooks(s) && forall q :: WillLook(s, q) ==> s.procs[q] == Proc(sub, RemoveClaimed)
  }

  /**
   The move leaves a parent that should be moved with nobody to look at it. Either the call of the only process that was
   going to look fails, or the claimed file that it was about to remove is taken away. Or the last subtask gets into
   completed/ while nobody is going to look: brought back from a local directory, completed automatically, or written by
   a call whose claimed file is gone.
   */
  ghost predicate Deserts(subs: seq<Sub>, s: State, m: Move) {
    s.decomposed &&
    match m
    case Stop(p) => AllCompleted(subs, s) && OnlyLooker(s, p)
    case Unclaim(sub) => AllCompleted(subs, s) && OnlyBefore(s, sub)
    case Copy(sub) => sub in s.local && IsLast(subs, s, sub) && NobodyLooks(s)
    case Nested(sub) => IsLast(subs, s, sub) && NobodyLooks(s)
    case Act(p) =>
      && IsAt(s, p, WriteCompleted) && s.procs[p].sub !in s.claimed
      && IsLast(subs, s, s.procs[p].sub) && NobodyLooks(s)
    case _ => false
  }

  /** Files only ever move forward. */
  predicate Forward(s: State, s': State) {
    s.completed <= s'.completed && (s.parentCompleted ==> s'.parentCompleted) && (!s.decomposed ==> !s'.decomposed)
  }

  lemma StepForward(subs: seq<Sub>, s: State, m: Move)
    ensures Forward(s, Step(subs, s, m))
  {
  }

  lemma KnowledgeKept(subs: seq<Sub>, s: State, s': State, q: Pid)
    requires Forward(s, s') && q in s.procs && q in s'.procs && s'.procs[q] == s.procs[q] && Knows(subs, s, q)
    ensures Knows(subs, s', q)
  {
  }

  lemma ActKnows(subs: seq<Sub>, s: State, p: Pid)
    requires p in s.procs && Knows(subs, s, p)
    ensures Knows(subs, Operate(subs, s, p), p)
  {
  }

  lemma StepKeepsKnowledge(subs: seq<Sub>, s: State, m: Move, q: Pid)
    requires Inv(subs, s) && q in s.procs
    ensures q in Step(subs, s, m).procs && Knows(subs, Step(subs, s, m), q)
  {
    StepForward(subs, s, m);
    if m == Act(q) {
      ActKnows(subs, s, q);
    } else if m != Stop(q) && m != GoLocal(q) && m != Ignore(q) {
      KnowledgeKept(subs, s, Step(subs, s, m), q);
    }
  }

  /** Whoever is going to look goes on to do so or moves the parent, unless another process is going to look instead. */
  lemma LookerGoesOn(subs: seq<Sub>, s: State, p: Pid, w: Pid)
    requires subs != [] && Inv(subs, s) && AllCompleted(subs, s) && p in s.procs && WillLook(s, w)
    ensures var s' := Operate(subs, s, p); s'.decomposed ==> WillLook(s', w) || WillLook(s', p)
  {
    assert Knows(subs, s, p);
  }

  /** The last subtask has just got into completed/. */
  lemma LastArrives(subs: seq<Sub>, s: State, m: Move)
    requires !AllCompleted(subs, s) && AllCompleted(subs, Step(subs, s, m))
    requires s.decomposed && Step(subs, s, m).decomposed
    ensures NobodyLooks(Step(subs, s, m)) <==> Deserts(subs, s, m)
  {
    var s' := Step(subs, s, m);
    if m.Act? {
      assert WillLook(s', m.pid) <==> s.procs[m.pid].sub in s.claimed;
    }
    assert forall q :: !(m.Act? && q == m.pid) ==> (WillLook(s', q) <==> WillLook(s, q));
  }

  /** When all subtasks were completed already, only a failing call or a missing claimed file takes a looker away. */
  lemma LookersLeave(subs: seq<Sub>, s: State, m: Move)
    requires subs != [] && Inv(subs, s) && AllCompleted(subs, s) && !NobodyLooks(s)
    requires s.decomposed && Step(subs, s, m).decomposed
    ensures NobodyLooks(Step(subs, s, m)) <==> Deserts(subs, s, m)
  {
    var s' := Step(subs, s, m);
    var w :| WillLook(s, w);
    match m
    case Act(p) =>
      if p in s.procs {
        LookerGoesOn(subs, s, p, w);
      }
    case Stop(p) => assert forall q :: q != p ==> (WillLook(s', q) <==> WillLook(s, q));
    case Unclaim(sub) =>
      assert forall q :: WillLook(s', q) <==> WillLook(s, q) && s.procs[q] != Proc(sub, RemoveClaimed);
    case _ => assert WillLook(s', w);
  }

  /** An attended parent stays attended exactly if the move does not desert it. */
  lemma StepAttended(subs: seq<Sub>, s: State, m: Move)
    requires subs != [] && Inv(subs, s) && Attended(subs, s)
    ensures Attended(subs, Step(subs, s, m)) <==> !Deserts(subs, s, m)
  {
    var s' := Step(subs, s, m);
    StepForward(subs, s, m);
    if Deserts(subs, s, m) {
      DesertsLeavesCompleted(subs, s, m);
    }
    if AllCompleted(subs, s') && s'.decomposed {
      if AllCompleted(subs, s) {
        LookersLeave(subs, s, m);
      } else {
        LastArrives(subs, s, m);
      }
    }
  }

  lemma DesertsLeavesCompleted(subs: seq<Sub>, s: State, m: Move)
    requires Deserts(subs, s, m)
    ensures AllCompleted(subs, Step(subs, s, m)) && Step(subs, s, m).decomposed
  {
  }

  lemma StepKeepsReturn(subs: seq<Sub>, s: State, m: Move)
    requires Inv(subs, s)
    ensures var s' := Step(subs, s, m);
      && (s'.parentCompleted ==> AllCompleted(subs, s'))
      && (!s'.decomposed ==> s'.parentCompleted && exists p :: p in s'.procs && s'.procs[p].pc == Returned(true))
  {
    var s' := Step(subs, s, m);
    if m.Act? && m.pid in s.procs {
      assert Knows(subs, s, m.pid);
      if s.decomposed && !s'.decomposed {
        assert s'.procs[m.pid].pc == Returned(true);
      }
    }
    if !s.decomposed {
      var w :| w in s.procs && s.procs[w].pc == Returned(true);
      assert s'.procs[w].pc == Returned(true);
    }
  }

  lemma StepKeepsOneReturn(subs: seq<Sub>, s: State, m: Move, p: Pid, q: Pid)
    requires Inv(subs, s) && p in s.procs && q in s.procs
    requires var s' := Step(subs, s, m); s'.procs[p].pc == s'.procs[q].pc == Returned(true)
    ensures p == q
  {
    assert Knows(subs, s, p) && Knows(subs, s, q);
    NewReturn(subs, s, m, p);
    NewReturn(subs, s, m, q);
  }

  lemma NewReturn(subs: seq<Sub>, s: State, m: Move, p: Pid)
    requires p in s.procs && Step(subs, s, m).procs[p].pc == Returned(true)
    ensures s.procs[p].pc == Returned(true) || (s.decomposed && m == Act(p))
  {
  }

  lemma StepInv(subs: seq<Sub>, s: State, m: Move)
    requires Inv(subs, s)
    ensures Inv(subs, Step(subs, s, m))
  {
    var s' := Step(subs, s, m);
    forall q | q in s'.procs ensures Knows(subs, s', q) {
      StepKeepsKnowledge(subs, s, m, q);
    }
    StepKeepsReturn(subs, s, m);
    forall p, q | p in s'.procs && q in s'.procs && s'.procs[p].pc == s'.procs[q].pc == Returned(true) ensures p == q {
      StepKeepsOneReturn(subs, s, m, p, q);
    }
  }

  lemma {:induction false} AlwaysInv(subs: seq<Sub>, s: State, moves: seq<Move>, n: nat)
    requires subs != [] && Initial(subs, s) && n <= |moves|
    ensures Inv(subs, After(subs, s, moves, n))
  {
    if n > 0 {
      AlwaysInv(subs, s, moves, n - 1);
      StepInv(subs, After(subs, s, moves, n - 1), moves[n - 1]);
    }
  }

  predicate Quiet(s: State) {
    forall p :: p in s.procs ==> s.procs[p].pc.Returned? || s.procs[p].pc.Raised?
  }

  /**
   In every interleaving, whatever fails: the parent is in completed/ only once all its subtasks are, it is never in
   neither directory, it has left decomposed/ exactly when some call reported having completed it, and no two did.
   */
  lemma ParentWaitsForSubtasks(subs: seq<Sub>, s: State, moves: seq<Move>, n: nat)
    requires subs != [] && Initial(subs, s) && n <= |moves|
    ensures var s' := After(subs, s, moves, n);
      && (s'.parentCompleted ==> AllCompleted(subs, s'))
      && (s'.decomposed || s'.parentCompleted)
      && (!s'.decomposed <==> exists p :: p in s'.procs && s'.procs[p].pc == Returned(true))
      && (forall p, q ::
           p in s'.procs && q in s'.procs && s'.procs[p].pc == s'.procs[q].pc == Returned(true) ==> p == q)
  {
    AlwaysInv(subs, s, moves, n);
    var s' := After(subs, s, moves, n);
    if p :| p in s'.procs && s'.procs[p].pc == Returned(true) {
      assert Knows(subs, s', p);
    }
  }

  /** The k-th move deserts the parent, and up to the n-th nobody comes to look again. */
  ghost predicate DesertedAt(subs: seq<Sub>, s: State, moves: seq<Move>, k: nat, n: nat) {
    && k < n <= |moves| && Deserts(subs, After(subs, s, moves, k), moves[k])
    && forall j :: k < j <= n ==> NobodyLooks(After(subs, s, moves, j))
  }

  /** If nobody is going to look at a parent that should be moved, some move deserted it. */
  lemma {:induction false} UnattendedWasDeserted(subs: seq<Sub>, s: State, moves: seq<Move>, n: nat) returns (k: nat)
    requires subs != [] && Initial(subs, s) && n <= |moves|
    requires var t := After(subs, s, moves, n); AllCompleted(subs, t) && t.decomposed && NobodyLooks(t)
    ensures DesertedAt(subs, s, moves, k, n)
  {
    assert subs[0] in After(subs, s, moves, n).completed;
    k := n - 1;
    var before := After(subs, s, moves, k);
    AlwaysInv(subs, s, moves, k);
    StepForward(subs, before, moves[k]);
    if !Deserts(subs, before, moves[k]) {
      if Attended(subs, before) {
        StepAttended(subs, before, moves[k]);
      }
      k := UnattendedWasDeserted(subs, s, moves, k);
    }
  }

  /** Only a process that looks moves the parent. */
  lemma {:induction false} DesertedStaysDecomposed(subs: seq<Sub>, s: State, moves: seq<Move>, k: nat, n: nat)
    requires DesertedAt(subs, s, moves, k, n)
    ensures After(subs, s, moves, n).decomposed
    decreases n
  {
    if k + 1 < n {
      DesertedStaysDecomposed(subs, s, moves, k, n - 1);
      var before, m := After(subs, s, moves, n - 1), moves[n - 1];
      assert NobodyLooks(before);
      assert m.Act? ==> !WillLook(before, m.pid);
    }
  }

  /**
   Once all subtasks are in completed/ and every call is over, the parent is completed and no longer decomposed, if and
   only if no move deserted it with nobody coming to look after that.
   */
  lemma ParentFollowsSubtasksIff(subs: seq<Sub>, s: State, moves: seq<Move>, n: nat)
    requires subs != [] && Initial(subs, s) && n <= |moves|
    requires AllCompleted(subs, After(subs, s, moves, n)) && Quiet(After(subs, s, moves, n))
    ensures var t := After(subs, s, moves, n);
      t.parentCompleted && !t.decomposed <==> forall k :: !DesertedAt(subs, s, moves, k, n)
  {
    var t := After(subs, s, moves, n);
    AlwaysInv(subs, s, moves, n);
    assert NobodyLooks(t);
    if t.decomposed {
      var k := UnattendedWasDeserted(subs, s, moves, n);
    }
    if k: nat :| DesertedAt(subs, s, moves, k, n) {
      DesertedStaysDecomposed(subs, s, moves, k, n);
    }
  }

  /** In particular it follows in every run in which no move deserts it. */
  lemma ParentFollowsSubtasks(subs: seq<Sub>, s: State, moves: seq<Move>, n: nat)
    requires subs != [] && Initial(subs, s) && n <= |moves|
    requires forall k :: 0 <= k < n ==> !Deserts(subs, After(subs, s, moves, k), moves[k])
    requires AllCompleted(subs, After(subs, s, moves, n)) && Quiet(After(subs, s, moves, n))
    ensures After(subs, s, moves, n).parentCompleted && !After(subs, s, moves, n).decomposed
  {
    ParentFollowsSubtasksIff(subs, s, moves, n);
  }

  // What a call rests on, and what local files come to.

  /** A call that is past its read read the claimed file at some earlier move, while it was there. */
  predicate IsPastRead(s: State, p: Pid) {
    p in s.procs && s.procs[p].pc !in {CheckClaimed, ReadClaimed, Raised}
  }

  lemma StepPastRead(subs: seq<Sub>, s: State, m: Move, p: Pid)
    requires IsPastRead(Step(subs, s, m), p)
    ensures p in s.procs && Step(subs, s, m).procs[p].sub == s.procs[p].sub
    ensures IsPastRead(s, p) || (m == Act(p) && s.procs[p].pc == ReadClaimed && s.procs[p].sub in s.claimed)
  {
  }

  lemma {:induction false} CompletesOnlyClaimed(subs: seq<Sub>, s: State, moves: seq<Move>, n: nat, p: Pid)
    returns (m: nat)
    requires Initial(subs, s) && n <= |moves| && IsPastRead(After(subs, s, moves, n), p)
    ensures m < n && moves[m] == Act(p) && p in After(subs, s, moves, m).procs
    ensures After(subs, s, moves, m).procs[p] == Proc(After(subs, s, moves, n).procs[p].sub, ReadClaimed)
    ensures After(subs, s, moves, n).procs[p].sub in After(subs, s, moves, m).claimed
  {
    var before := After(subs, s, moves, n - 1);
    StepPastRead(subs, before, moves[n - 1], p);
    if IsPastRead(before, p) {
      m := CompletesOnlyClaimed(subs, s, moves, n - 1, p);
    } else {
      m := n - 1;
    }
  }

  predicate IsSomewhere(s: State, sub: Sub) {
    sub in s.local || sub in s.completed
  }

  lemma StepKeepsLocal(subs: seq<Sub>, s: State, m: Move, sub: Sub)
    requires IsSomewhere(s, sub)
    ensures IsSomewhere(Step(subs, s, m), sub)
  {
  }

  /** A subtask completed locally is there, or in completed/ on the share, at any later moment. */
  lemma {:induction false} LocalIsNotLost(subs: seq<Sub>, s: State, moves: seq<Move>, m: nat, n: nat, sub: Sub)
    requires m <= n <= |moves| && IsSomewhere(After(subs, s, moves, m), sub)
    ensures IsSomewhere(After(subs, s, moves, n), sub)
    decreases n
  {
    if m < n {
      LocalIsNotLost(subs, s, moves, m, n - 1, sub);
      StepKeepsLocal(subs, After(subs, s, moves, n - 1), moves[n - 1], sub);
    }
  }

  /** What an operation finds gone ends the call: in an error, unless it is the parent before or during the scan. */
  lemma GoneEndsCall(subs: seq<Sub>, s: State, p: Pid)
    requires p in s.procs
    ensures var (q, t) := (s.procs[p], Step(subs, s, Act(p)));
      && (q.pc in {CheckClaimed, ReadClaimed, RemoveClaimed} && q.sub !in s.claimed ==> t == Goto(s, p, Raised))
      && (q.pc in {ReadParent, RemoveParent} && !s.decomposed ==> t == Goto(s, p, Raised))
      && (q.pc == CheckParent && !s.decomposed ==> t == Goto(s, p, Returned(false)))
      && (q.pc == ReadParent && s.decomposed && subs == [] ==> t == Goto(s, p, Returned(false)))
      && (q.pc.Returned? || q.pc.Raised? ==> t == s)
  {
  }

  /** What the moves of others and of the reconcile do. */
  lemma OthersMove(subs: seq<Sub>, s: State, sub: Sub, p: Pid)
    ensures Step(subs, s, Claim(sub)) == s.(claimed := s.claimed + {sub})
    ensures Step(subs, s, Unclaim(sub)) == s.(claimed := s.claimed - {sub})
    ensures IsAt(s, p, RemoveLocal) ==> Step(subs, s, Ignore(p)) == Goto(s, p, CheckParent)
    ensures var t := Step(subs, Step(subs, s, Copy(sub)), Drop(sub));
      sub in s.local ==> t == s.(completed := s.completed + {sub}, local := s.local - {sub})
  {
  }

  // One failure is enough, for every list of subtasks; and so is one local completion.

  lemma {:induction false} SamePrefix(subs: seq<Sub>, s: State, moves: seq<Move>, more: seq<Move>, n: nat)
    requires n <= |moves|
    ensures After(subs, s, moves + more, n) == After(subs, s, moves, n)
  {
    if n > 0 {
      SamePrefix(subs, s, moves, more, n - 1);
    }
  }

  /** A move that takes nothing away from anybody. */
  predicate Harmless(m: Move) {
    !m.Stop? && !m.Unclaim? && !m.Nested?
  }

  /** A run of harmless moves leads to this state. */
  ghost predicate Comes(subs: seq<Sub>, s: State, t: State) {
    exists moves :: Leads(subs, s, moves, t)
  }

  ghost predicate Leads(subs: seq<Sub>, s: State, moves: seq<Move>, t: State) {
    After(subs, s, moves, |moves|) == t && forall i :: 0 <= i < |moves| ==> Harmless(moves[i])
  }

  lemma ComesBy(subs: seq<Sub>, s: State, t: State, m: Move)
    requires Comes(subs, s, t) && Harmless(m)
    ensures Comes(subs, s, Step(subs, t, m))
  {
    var moves :| Leads(subs, s, moves, t);
    SamePrefix(subs, s, moves, [m], |moves|);
    assert Leads(subs, s, moves + [m], Step(subs, t, m));
  }

  lemma ComesOn(subs: seq<Sub>, s: State, t: State, p: Pid, pc: Pc, next: State)
    requires Comes(subs, s, t) && p in t.procs && t.procs[p].pc == pc && next == Operate(subs, t, p)
    ensures Comes(subs, s, next)
  {
    ComesBy(subs, s, t, Act(p));
  }

  function At(t: State, p: Pid, sub: Sub, pc: Pc): State {
    t.(procs := t.procs[p := Proc(sub, pc)])
  }

  /** A process gets as far as writing its subtask. */
  lemma ComesToWrite(subs: seq<Sub>, s: State, t: State, p: Pid, sub: Sub)
    requires Comes(subs, s, At(t, p, sub, CheckClaimed)) && sub in t.claimed
    ensures Comes(subs, s, At(t.(completed := t.completed + {sub}), p, sub, RemoveClaimed))
  {
    ComesOn(subs, s, At(t, p, sub, CheckClaimed), p, CheckClaimed, At(t, p, sub, ReadClaimed));
    ComesOn(subs, s, At(t, p, sub, ReadClaimed), p, ReadClaimed, At(t, p, sub, WriteCompleted));
    ComesOn(subs, s, At(t, p, sub, WriteCompleted), p, WriteCompleted,
            At(t.(completed := t.completed + {sub}), p, sub, RemoveClaimed));
  }

  /** A process that is past its remove finds that the first subtask is not completed. */
  lemma LooksInVain(subs: seq<Sub>, s: State, u: State, p: Pid, sub: Sub)
    requires Comes(subs, s, At(u, p, sub, CheckParent)) && subs != [] && subs[0] !in u.completed && u.decomposed
    ensures Comes(subs, s, At(u, p, sub, Returned(false)))
  {
    ComesOn(subs, s, At(u, p, sub, CheckParent), p, CheckParent, At(u, p, sub, ReadParent));
    ComesOn(subs, s, At(u, p, sub, ReadParent), p, ReadParent, At(u, p, sub, Scan(0)));
    ComesOn(subs, s, At(u, p, sub, Scan(0)), p, Scan(0), At(u, p, sub, Returned(false)));
  }

  /** A process completes its subtask and finds that the first one is not completed. */
  lemma ComesToReturn(subs: seq<Sub>, s: State, t: State, p: Pid, sub: Sub)
    requires Comes(subs, s, At(t, p, sub, CheckClaimed)) && sub in t.claimed
    requires subs != [] && subs[0] != sub && subs[0] !in t.completed && t.decomposed
    ensures Comes(subs, s, At(t.(completed := t.completed + {sub}, claimed := t.claimed - {sub}),
                          p, sub, Returned(false)))
  {
    ComesToWrite(subs, s, t, p, sub);
    var u := t.(completed := t.completed + {sub}, claimed := t.claimed - {sub});
    ComesOn(subs, s, At(t.(completed := t.completed + {sub}), p, sub, RemoveClaimed), p, RemoveClaimed,
            At(u, p, sub, CheckParent));
    LooksInVain(subs, s, u, p, sub);
  }

  /** One process for each subtask; those from 1 up to m have completed theirs. */
  function Team(subs: seq<Sub>, m: nat, n: nat): (procs: map<Pid, Proc>)
    requires n <= |subs|
    ensures forall p: Pid :: p in procs <==> p < n
    ensures forall p: Pid :: p < n ==> procs[p] == Proc(subs[p], if 1 <= p < m then Returned(false) else CheckClaimed)
  {
    if n == 0 then map[]
    else Team(subs, m, n - 1)[n - 1 := Proc(subs[n - 1], if 1 <= n - 1 < m then Returned(false) else CheckClaimed)]
  }

  function Progress(subs: seq<Sub>, m: nat): State
    requires 1 <= m <= |subs|
  {
    State(set x | x in subs && x !in subs[1..m], set x | x in subs[1..m], {}, true, false, Team(subs, m, |subs|))
  }

  ghost predicate Distinct(subs: seq<Sub>) {
    forall i, j :: 0 <= i < j < |subs| ==> subs[i] != subs[j]
  }

  /** What the m-th process finds, and what it leaves. */
  lemma ProgressStep(subs: seq<Sub>, m: nat)
    requires 1 <= m < |subs| && Distinct(subs)
    ensures var t, sub := Progress(subs, m), subs[m];
      && t == At(t, m, sub, CheckClaimed) && sub in t.claimed && subs[0] != sub && subs[0] !in t.completed
      && Progress(subs, m + 1)
         == At(t.(completed := t.completed + {sub}, claimed := t.claimed - {sub}), m, sub, Returned(false))
  {
    var t, sub := Progress(subs, m), subs[m];
    assert subs[1..m + 1] == subs[1..m] + [sub];
    assert sub !in subs[1..m] && subs[0] !in subs[1..m];
    assert t.procs[m := Proc(sub, CheckClaimed)] == t.procs;
    assert t.procs[m := Proc(sub, Returned(false))] == Progress(subs, m + 1).procs;
    assert t.completed + {sub} == Progress(subs, m + 1).completed;
    assert t.claimed - {sub} == Progress(subs, m + 1).claimed;
  }

  lemma {:induction false} ComesToProgress(subs: seq<Sub>, m: nat, s: State, t: State)
    requires 1 <= m <= |subs| && Distinct(subs) && s == Progress(subs, 1) && t == Progress(subs, m)
    ensures Comes(subs, s, t)
  {
    if m == 1 {
      assert Leads(subs, s, [], s);
    } else {
      var before := Progress(subs, m - 1);
      ComesToProgress(subs, m - 1, s, before);
      ProgressStep(subs, m - 1);
      ComesToReturn(subs, s, before, m - 1, subs[m - 1]);
    }
  }

  /** Everybody but the first process has returned, and the first can complete its subtask. */
  lemma LastOne(subs: seq<Sub>, t: State)
    requires subs != [] && Distinct(subs) && t == Progress(subs, |subs|)
    ensures t == At(t, 0, subs[0], CheckClaimed) && subs[0] in t.claimed && t.decomposed && !t.parentCompleted
    ensures subs[0] !in t.completed
    ensures forall i :: 0 <= i < |subs| ==> subs[i] in t.completed + {subs[0]}
    ensures forall p: Pid :: p in t.procs && p != 0 ==> t.procs[p].pc == Returned(false)
  {
    assert subs[0] !in subs[1..];
    assert t.procs[0 := Proc(subs[0], CheckClaimed)] == t.procs;
    forall i | 0 < i < |subs| ensures subs[i] in t.completed {
      assert subs[i] == subs[1..][i - 1];
    }
  }

  /** All subtasks are in completed/ and all calls are over, but the parent has not moved. */
  ghost predicate Stranded(subs: seq<Sub>, t: State) {
    AllCompleted(subs, t) && Quiet(t) && t.decomposed && !t.parentCompleted
  }

  /**
   For every list of subtasks, one process for each and a single failure: if the last one dies after its write, nobody
   ever looks again and the parent stays decomposed.
   */
  lemma DeathStrandsParent(subs: seq<Sub>) returns (s: State, moves: seq<Move>)
    requires subs != [] && Distinct(subs)
    ensures Initial(subs, s) && |moves| >= 1 && moves[|moves| - 1].Stop?
            && forall i :: 0 <= i < |moves| - 1 ==> Harmless(moves[i])
    ensures Stranded(subs, After(subs, s, moves, |moves|))
  {
    s := Progress(subs, 1);
    var t := Progress(subs, |subs|);
    ComesToProgress(subs, |subs|, s, t);
    LastOne(subs, t);
    ComesToWrite(subs, s, t, 0, subs[0]);
    var u := At(t.(completed := t.completed + {subs[0]}), 0, subs[0], RemoveClaimed);
    var first :| Leads(subs, s, first, u);
    SamePrefix(subs, s, first, [Stop(0)], |first|);
    moves := first + [Stop(0)];
    assert After(subs, s, moves, |moves|) == Goto(u, 0, Raised);
  }

  /** A process finds the share down when it writes. */
  lemma ComesToDown(subs: seq<Sub>, s: State, t: State, p: Pid, sub: Sub)
    requires Comes(subs, s, At(t, p, sub, CheckClaimed)) && sub in t.claimed
    ensures Comes(subs, s, At(t, p, sub, WriteLocal))
  {
    ComesOn(subs, s, At(t, p, sub, CheckClaimed), p, CheckClaimed, At(t, p, sub, ReadClaimed));
    ComesOn(subs, s, At(t, p, sub, ReadClaimed), p, ReadClaimed, At(t, p, sub, WriteCompleted));
    ComesBy(subs, s, At(t, p, sub, WriteCompleted), GoLocal(p));
    assert At(t, p, sub, WriteCompleted).procs[p := Proc(sub, WriteLocal)] == At(t, p, sub, WriteLocal).procs;
  }

  /** It completes its subtask locally, and does not see it in completed/. */
  lemma ComesToLocal(subs: seq<Sub>, s: State, t: State, u: State, p: Pid, sub: Sub)
    requires Comes(subs, s, At(t, p, sub, WriteLocal))
    requires u == t.(local := t.local + {sub}, claimed := t.claimed - {sub})
    requires subs != [] && subs[0] == sub && sub !in t.completed && t.decomposed
    ensures Comes(subs, s, At(u, p, sub, Returned(false)))
  {
    var v := t.(local := t.local + {sub});
    ComesOn(subs, s, At(t, p, sub, WriteLocal), p, WriteLocal, At(v, p, sub, RemoveLocal));
    ComesOn(subs, s, At(v, p, sub, RemoveLocal), p, RemoveLocal, At(u, p, sub, CheckParent));
    LooksInVain(subs, s, u, p, sub);
  }

  /**
   For every list of subtasks, one process for each and no failing call at all: if the last one finds the share down and
   its subtask is brought back afterwards, nobody looks and the parent stays decomposed.
   */
  lemma ReconcileStrandsParent(subs: seq<Sub>) returns (s: State, moves: seq<Move>)
    requires subs != [] && Distinct(subs)
    ensures Initial(subs, s) && forall i :: 0 <= i < |moves| ==> Harmless(moves[i])
    ensures Stranded(subs, After(subs, s, moves, |moves|))
  {
    s := Progress(subs, 1);
    var t := Progress(subs, |subs|);
    ComesToProgress(subs, |subs|, s, t);
    LastOne(subs, t);
    ComesToDown(subs, s, t, 0, subs[0]);
    var done := t.(local := t.local + {subs[0]}, claimed := t.claimed - {subs[0]});
    ComesToLocal(subs, s, t, done, 0, subs[0]);
    var u := At(done, 0, subs[0], Returned(false));
    ComesBy(subs, s, u, Copy(subs[0]));
    moves :| Leads(subs, s, moves, Step(subs, u, Copy(subs[0])));
  }
}
