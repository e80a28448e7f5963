/**
 The task queue kept on the server: a hash per task and three sorted sets. Each operation is one script or one
 pipeline, so one step. The score of a pending task adds its creation second to a thousand times its priority.
 */
module RedisQueue {

  import opened Wrappers
  import opened Ordering

  datatype TaskId = TaskId(text: seq<nat>)

  datatype State = Pending | Claimed | Completed

  type SortedSet = map<TaskId, int>

  /** The state field of each hash, and the sorted sets. */
  datatype Server = Server(states: map<TaskId, State>, claimers: map<TaskId, string>,
                           pending: SortedSet, claimed: SortedSet, completed: SortedSet)

  const EMPTY := Server(map[], map[], map[], map[], map[])

  const PRIORITY_WEIGHT := 1000

  function Score(priority: int, second: nat): int {
    priority * PRIORITY_WEIGHT + second
  }

  datatype Op =
    | Create(id: TaskId, priority: int, second: nat)
    | Claim(claimer: string)
    | Complete(id: TaskId, second: nat)

  // ---------------------------------------------------------------------------
  // The order of a sorted set
  // ---------------------------------------------------------------------------

  /** The order of the members: by score, then by name. */
  predicate Before(z: SortedSet, a: TaskId, b: TaskId)
    requires a in z && b in z
  {
    z[a] < z[b] || (z[a] == z[b] && Less(a.text, b.text))
  }

  predicate First(z: SortedSet, id: TaskId) {
    id in z && forall other :: other in z && other != id ==> Before(z, id, other)
  }

  lemma {:induction false} FirstExists(z: SortedSet, ids: set<TaskId>) returns (id: TaskId)
    requires ids != {} && ids <= z.Keys
    ensures id in ids && forall other :: other in ids && other != id ==> Before(z, id, other)
    decreases |ids|
  {
    id :| id in ids;
    if ids != {id} {
      var first := FirstExists(z, ids - {id});
      LessIsTotal(id.text, first.text);
      if Before(z, first, id) {
        id := first;
      } else {
        forall other | other in ids && other != id ensures Before(z, id, other) {
          assert other in ids - {id} && Before(z, id, first);
          if other != first && Less(first.text, other.text) && Less(id.text, first.text) {
            LessIsTransitive(id.text, first.text, other.text);
          }
        }
      }
    }
  }

  lemma FirstIsUnique(z: SortedSet, a: TaskId, b: TaskId)
    requires First(z, a) && First(z, b)
    ensures a == b
  {
    LessIsTotal(a.text, b.text);
  }

  /** The member that a pop of the minimum takes. */
  ghost function Popped(z: SortedSet): (r: Option<TaskId>)
    ensures r.None? <==> z == map[]
    ensures r.Some? ==> First(z, r.value)
  {
    if z == map[] then None
    else
      var first := PoppedExists(z);
      Some(first)
  }

  ghost function PoppedExists(z: SortedSet): (id: TaskId)
    requires z != map[]
    ensures First(z, id)
  {
    assert exists id :: First(z, id) by {
      var id := FirstExists(z, z.Keys);
      assert First(z, id);
    }
    var id :| First(z, id);
    id
  }

  // ---------------------------------------------------------------------------
  // Operations
  // ---------------------------------------------------------------------------

  ghost function Apply(s: Server, op: Op): Server {
    match op
    case Create(id, priority, second) =>
      s.(states := s.states[id := Pending], pending := s.pending[id := Score(priority, second)])
    case Claim(claimer) =>
      if Popped(s.pending).None? then s
      else
        var id := Popped(s.pending).value;
        Server(s.states[id := Claimed], s.claimers[id := claimer],
               s.pending - {id}, s.claimed[id := s.pending[id]], s.completed)
    case Complete(id, second) =>
      s.(states := s.states[id := Completed], claimed := s.claimed - {id}, completed := s.completed[id := second])
  }

  /** No other member has a smaller score, or the same score and a smaller name. */
  predicate IsLeast(z: SortedSet, id: TaskId)
    requires id in z
  {
    forall other :: other in z && other != id ==> z[id] < z[other] || (z[id] == z[other] && Less(id.text, other.text))
  }

  class Queue {
    var server: Server

    constructor ()
      ensures server == EMPTY
    {
      server := EMPTY;
    }

    method CreateTask(id: TaskId, priority: int, second: nat)
      modifies this
      ensures server == Apply(old(server), Create(id, priority, second))
      ensures server.pending == old(server).pending[id := 1000 * priority + second]
    {
      server := server.(states := server.states[id := Pending]);
      server := server.(pending := server.pending[id := priority * PRIORITY_WEIGHT + second]);
    }

    method ClaimTask(claimer: string) returns (r: Option<TaskId>)
      modifies this
      ensures r == Popped(old(server).pending) && server == Apply(old(server), Claim(claimer))
      ensures r.None? <==> old(server).pending == map[]
      ensures r.None? ==> server == old(server)
      ensures r.Some? ==> r.value in old(server).pending && IsLeast(old(server).pending, r.value)
      ensures r.Some? ==> server.pending == old(server).pending - {r.value}
      ensures r.Some? ==> server.claimed == old(server).claimed[r.value := old(server).pending[r.value]]
      ensures r.Some? ==> server.claimers == old(server).claimers[r.value := claimer]
    {
      if server.pending == map[] {
        return None;
      }
      ghost var first := PoppedExists(server.pending);
      var id :| First(server.pending, id);
      FirstIsUnique(server.pending, id, Popped(server.pending).value);
      var score := server.pending[id];
      server := server.(pending := server.pending - {id});
      server := server.(claimed := server.claimed[id := score]);
      server := server.(states := server.states[id := Claimed], claimers := server.claimers[id := claimer]);
      return Some(id);
    }

    method CompleteTask(id: TaskId, second: nat)
      modifies this
      ensures server == Apply(old(server), Complete(id, second))
    {
      server := server.(claimed := server.claimed - {id});
      server := server.(completed := server.completed[id := second]);
      server := server.(states := server.states[id := Completed]);
    }
  }

  // ---------------------------------------------------------------------------
  // Each task is in the set its hash names
  // ---------------------------------------------------------------------------

  /** The task is in the set that its hash names, and in no other. */
  predicate Right(s: Server, id: TaskId) {
    var state := if id in s.states then Some(s.states[id]) else None;
    (id in s.pending <==> state == Some(Pending)) && (id in s.claimed <==> state == Some(Claimed))
    && (id in s.completed <==> state == Some(Completed))
  }

  ghost predicate Agrees(s: Server) {
    forall id :: Right(s, id)
  }

  /** A create is for a task that is not claimed or completed, and a completion for one that is not pending. */
  predicate Expected(s: Server, op: Op) {
    match op
    case Create(id, _, _) => id !in s.claimed && id !in s.completed
    case Claim(_) => true
    case Complete(id, _) => id !in s.pending
  }

  /** An operation keeps the agreement exactly when it is an expected one. */
  lemma KeepsAgreementIffExpected(s: Server, op: Op)
    requires Agrees(s)
    ensures Agrees(Apply(s, op)) <==> Expected(s, op)
  {
    var s' := Apply(s, op);
    if Expected(s, op) {
      forall id ensures Right(s', id) {
        assert Right(s, id);
      }
    } else {
      assert Right(s, op.id) && !Right(s', op.id);
    }
  }

  ghost function After(ops: seq<Op>, n: nat): Server
    requires n <= |ops|
  {
    if n == 0 then EMPTY else Apply(After(ops, n - 1), ops[n - 1])
  }

  ghost predicate AgreesAt(ops: seq<Op>, n: nat)
    requires n <= |ops|
  {
    Agrees(After(ops, n))
  }

  ghost predicate ExpectedAt(ops: seq<Op>, n: nat)
    requires n < |ops|
  {
    Expected(After(ops, n), ops[n])
  }

  lemma AgreementStep(ops: seq<Op>, n: nat)
    requires n < |ops| && AgreesAt(ops, n)
    ensures AgreesAt(ops, n + 1) <==> ExpectedAt(ops, n)
  {
    KeepsAgreementIffExpected(After(ops, n), ops[n]);
  }

  lemma {:induction false} AgreesAfterExpected(ops: seq<Op>, n: nat)
    requires n <= |ops| && forall i :: 0 <= i < n ==> ExpectedAt(ops, i)
    ensures AgreesAt(ops, n)
  {
    if n > 0 {
      AgreesAfterExpected(ops, n - 1);
      AgreementStep(ops, n - 1);
    }
  }

  /** Over a whole run the sets and the hashes agree at every moment exactly when every operation is an expected one. */
  lemma AlwaysAgreesIffExpected(ops: seq<Op>)
    ensures (forall n :: 0 <= n <= |ops| ==> AgreesAt(ops, n)) <==> (forall n :: 0 <= n < |ops| ==> ExpectedAt(ops, n))
  {
    if forall n :: 0 <= n < |ops| ==> ExpectedAt(ops, n) {
      forall n | 0 <= n <= |ops| ensures AgreesAt(ops, n) {
        AgreesAfterExpected(ops, n);
      }
    }
    if forall n :: 0 <= n <= |ops| ==> AgreesAt(ops, n) {
      forall n | 0 <= n < |ops| ensures ExpectedAt(ops, n) {
        assert AgreesAt(ops, n + 1);
        AgreementStep(ops, n);
      }
    }
  }

  /** Completing a task that was never claimed leaves it to be claimed afterwards. */
  lemma CompletedTaskIsClaimed(id: TaskId, claimer: string)
    ensures var s := After([Create(id, 5, 0), Complete(id, 1), Claim(claimer)], 3);
      id in s.completed && id in s.claimed && id in s.states && s.states[id] == Claimed
  {
    var ops := [Create(id, 5, 0), Complete(id, 1), Claim(claimer)];
    assert After(ops, 0) == EMPTY;
    assert After(ops, 1) == Apply(EMPTY, ops[0]);
    assert After(ops, 2) == Apply(After(ops, 1), ops[1]);
    assert After(ops, 3) == Apply(After(ops, 2), ops[2]);
  }

  // ---------------------------------------------------------------------------
  // Overtaking
  // ---------------------------------------------------------------------------

  ghost predicate ClaimsAt(ops: seq<Op>, n: nat, id: TaskId) {
    n < |ops| && ops[n].Claim? && Popped(After(ops, n).pending) == Some(id)
  }

  /** The create at m is the last one of the task before n. */
  ghost predicate LastCreate(ops: seq<Op>, m: nat, n: nat, id: TaskId) {
    && m < n <= |ops| && ops[m].Create? && ops[m].id == id
    && (forall i :: m < i < n ==> !(ops[i].Create? && ops[i].id == id))
  }

  /** A pending task was created, with the score it has, and has not been claimed since. */
  lemma {:induction false} PendingWasCreated(ops: seq<Op>, n: nat, id: TaskId) returns (m: nat)
    requires n <= |ops| && id in After(ops, n).pending
    ensures LastCreate(ops, m, n, id) && After(ops, n).pending[id] == Score(ops[m].priority, ops[m].second)
    ensures forall i :: m < i < n ==> !ClaimsAt(ops, i, id)
  {
    if ops[n - 1].Create? && ops[n - 1].id == id {
      m := n - 1;
    } else {
      m := PendingWasCreated(ops, n - 1, id);
    }
  }

  /** The operation changes the state of the task. */
  ghost predicate Concerns(ops: seq<Op>, n: nat, id: TaskId) {
    n < |ops| && match ops[n]
      case Create(x, _, _) => x == id
      case Claim(_) => ClaimsAt(ops, n, id)
      case Complete(x, _) => x == id
  }

  /** The state in the hash of a task is that of the last operation on it, which is the one that wrote it. */
  lemma {:induction false} StateIsOfLast(ops: seq<Op>, n: nat, id: TaskId) returns (m: nat)
    requires n <= |ops| && id in After(ops, n).states
    ensures m < n && Concerns(ops, m, id) && forall i :: m < i < n ==> !Concerns(ops, i, id)
    ensures After(ops, n).states[id]
      == if ops[m].Create? then Pending else if ops[m].Claim? then Claimed else Completed
  {
    if Concerns(ops, n - 1, id) {
      m := n - 1;
    } else {
      m := StateIsOfLast(ops, n - 1, id);
    }
  }

  /** A claimed task was claimed with the score it had, and has not been completed since; its claimer is recorded. */
  lemma {:induction false} ClaimedWasClaimed(ops: seq<Op>, n: nat, id: TaskId) returns (m: nat)
    requires n <= |ops| && id in After(ops, n).claimed
    ensures m < n && ClaimsAt(ops, m, id)
    ensures After(ops, n).claimed[id] == After(ops, m).pending[id]
    ensures id in After(ops, n).claimers && After(ops, n).claimers[id] == ops[m].claimer
    ensures forall i :: m < i < n ==> !ClaimsAt(ops, i, id) && !(ops[i].Complete? && ops[i].id == id)
  {
    if ClaimsAt(ops, n - 1, id) {
      m := n - 1;
    } else {
      m := ClaimedWasClaimed(ops, n - 1, id);
    }
  }

  /** A completed task has the second of its last completion as its score. */
  lemma {:induction false} CompletedWasCompleted(ops: seq<Op>, n: nat, id: TaskId) returns (m: nat)
    requires n <= |ops| && id in After(ops, n).completed
    ensures m < n && ops[m].Complete? && ops[m].id == id && After(ops, n).completed[id] == ops[m].second
    ensures forall i :: m < i < n ==> !(ops[i].Complete? && ops[i].id == id)
  {
    if ops[n - 1].Complete? && ops[n - 1].id == id {
      m := n - 1;
    } else {
      m := CompletedWasCompleted(ops, n - 1, id);
    }
  }

  /** Two claims of one task have a create of it between them. */
  lemma TwoClaimsNeedCreate(ops: seq<Op>, i: nat, j: nat, id: TaskId) returns (m: nat)
    requires i < j && ClaimsAt(ops, i, id) && ClaimsAt(ops, j, id)
    ensures i < m < j && ops[m].Create? && ops[m].id == id
  {
    m := PendingWasCreated(ops, j, id);
  }

  /**
   A pending task of priority p created at second t is passed only by tasks whose priority p' and second t' satisfy
   t' <= t + 1000 * (p - p').
   */
  lemma OvertakingIsBounded(ops: seq<Op>, n: nat, winner: TaskId, waiting: TaskId) returns (w: nat, m: nat)
    requires ClaimsAt(ops, n, winner) && waiting in After(ops, n).pending
    ensures LastCreate(ops, w, n, winner) && LastCreate(ops, m, n, waiting)
    ensures ops[w].second <= ops[m].second + 1000 * (ops[m].priority - ops[w].priority)
    ensures ops[w].priority >= 0 ==> ops[w].second <= ops[m].second + 1000 * ops[m].priority
  {
    w := PendingWasCreated(ops, n, winner);
    m := PendingWasCreated(ops, n, waiting);
  }

  /** The successful claims among the operations from m to n. */
  ghost function Claims(ops: seq<Op>, m: nat, n: nat): nat
    requires m <= n <= |ops|
    decreases n
  {
    if m == n then 0
    else Claims(ops, m, n - 1) + if ops[n - 1].Claim? && Popped(After(ops, n - 1).pending).Some? then 1 else 0
  }

  /** The creates from m to n whose score does not exceed the given one. */
  function Creates(ops: seq<Op>, m: nat, n: nat, score: int): nat
    requires m <= n <= |ops|
    decreases n
  {
    if m == n then 0
    else
      Creates(ops, m, n - 1, score) +
      if ops[n - 1].Create? && Score(ops[n - 1].priority, ops[n - 1].second) <= score then 1 else 0
  }

  /** The creates from m to n no later than the given second. */
  function CreatesUntil(ops: seq<Op>, m: nat, n: nat, second: int): nat
    requires m <= n <= |ops|
    decreases n
  {
    if m == n then 0
    else CreatesUntil(ops, m, n - 1, second) + if ops[n - 1].Create? && ops[n - 1].second <= second then 1 else 0
  }

  ghost function EarlyPositions(ops: seq<Op>, m: nat, n: nat, second: int): set<int>
    requires m <= n <= |ops|
  {
    set i | m <= i < n && ops[i].Create? && ops[i].second <= second
  }

  /** So many they are. */
  lemma {:induction false} CreatesUntilCounts(ops: seq<Op>, m: nat, n: nat, second: int)
    requires m <= n <= |ops|
    ensures CreatesUntil(ops, m, n, second) == |EarlyPositions(ops, m, n, second)|
    decreases n
  {
    if m < n {
      CreatesUntilCounts(ops, m, n - 1, second);
      var early := ops[n - 1].Create? && ops[n - 1].second <= second;
      assert EarlyPositions(ops, m, n, second)
        == EarlyPositions(ops, m, n - 1, second) + if early then {n - 1} else {};
    } else {
      assert EarlyPositions(ops, m, n, second) == {};
    }
  }

  /** The tasks that would be claimed first. */
  ghost function Ahead(z: SortedSet, id: TaskId): set<TaskId>
    requires id in z
  {
    set other | other in z && other != id && Before(z, other, id)
  }

  lemma AheadStep(s: Server, op: Op, id: TaskId)
    requires id in s.pending && id in Apply(s, op).pending && !(op.Create? && op.id == id)
    ensures var (a, b) := (Ahead(s.pending, id), Ahead(Apply(s, op).pending, id));
      |b| <= |a| + (if op.Create? && Score(op.priority, op.second) <= s.pending[id] then 1 else 0)
                 - (if op.Claim? then 1 else 0)
  {
    var (z, z') := (s.pending, Apply(s, op).pending);
    var (a, b) := (Ahead(z, id), Ahead(z', id));
    match op
    case Create(created, priority, second) =>
      if Score(priority, second) <= z[id] {
        assert b <= a + {created};
        SizeOfSubset(b, a + {created});
      } else {
        SizeOfSubset(b, a);
      }
    case Claim(_) =>
      var first := Popped(z).value;
      assert first in a && b <= a - {first};
      SizeOfSubset(b, a - {first});
    case Complete(_, _) =>
  }

  lemma {:induction false} SizeOfSubset(a: set<TaskId>, b: set<TaskId>)
    requires a <= b
    ensures |a| <= |b|
  {
    assert b == a + (b - a);
  }

  /** While a task waits, every successful claim is paid for by a task that was ahead of it or by an early create. */
  lemma {:induction false} WaitIsBounded(ops: seq<Op>, m: nat, n: nat, id: TaskId)
    requires m <= n <= |ops| && id in After(ops, n).pending
    requires forall i :: m <= i < n ==> !(ops[i].Create? && ops[i].id == id)
    ensures id in After(ops, m).pending && After(ops, m).pending[id] == After(ops, n).pending[id]
    ensures |Ahead(After(ops, n).pending, id)| + Claims(ops, m, n)
      <= |Ahead(After(ops, m).pending, id)| + Creates(ops, m, n, After(ops, m).pending[id])
    decreases n
  {
    if m < n {
      assert id in After(ops, n - 1).pending;
      WaitIsBounded(ops, m, n - 1, id);
      AheadStep(After(ops, n - 1), ops[n - 1], id);
    }
  }

  lemma {:induction false} EarlyCreates(ops: seq<Op>, m: nat, n: nat, score: int)
    requires m <= n <= |ops| && forall i :: m <= i < n && ops[i].Create? ==> ops[i].priority >= 0
    ensures Creates(ops, m, n, score) <= CreatesUntil(ops, m, n, score)
    decreases n
  {
    if m < n {
      EarlyCreates(ops, m, n - 1, score);
    }
  }

  /**
   Nothing starves: with priorities that are not negative, a task pending at m is claimed before n if there are more
   successful claims from m to n than tasks ahead of it and creates until second t + 1000 * p; later creates do not
   count, however many there are and whatever their priority.
   */
  lemma ClaimedWithinBound(ops: seq<Op>, m: nat, n: nat, id: TaskId)
    requires m <= n <= |ops| && id in After(ops, m).pending
    requires forall i :: m <= i < n ==> !(ops[i].Create? && ops[i].id == id)
    requires forall i :: m <= i < n && ops[i].Create? ==> ops[i].priority >= 0
    requires Claims(ops, m, n) > |Ahead(After(ops, m).pending, id)| + CreatesUntil(ops, m, n, After(ops, m).pending[id])
    ensures exists i :: m <= i < n && ClaimsAt(ops, i, id)
  {
    if id in After(ops, n).pending {
      WaitIsBounded(ops, m, n, id);
      EarlyCreates(ops, m, n, After(ops, m).pending[id]);
      assert false;
    }
    LeavesByClaim(ops, m, n, id);
  }

  lemma {:induction false} LeavesByClaim(ops: seq<Op>, m: nat, n: nat, id: TaskId)
    requires m <= n <= |ops| && id in After(ops, m).pending && id !in After(ops, n).pending
    ensures exists i :: m <= i < n && ClaimsAt(ops, i, id)
    decreases n
  {
    if id in After(ops, n - 1).pending {
      assert ClaimsAt(ops, n - 1, id);
    } else {
      LeavesByClaim(ops, m, n - 1, id);
    }
  }
}
