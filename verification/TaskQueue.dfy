/**
 The task table of the local store. Each operation is one transaction on the table; times are real numbers. Rows that
 tie in the order of a query come back in an arbitrary order.
 */
module TaskQueue {

  import opened Wrappers

  datatype TaskId = TaskId(text: string)

  datatype Capability = Capability(name: string)

  datatype State = Pending | Claimed | Running | Completed | Failed

  datatype Task = Task(needs: seq<Capability>, priority: int, createdAt: real, state: State, claimedBy: string,
                       claimedAt: real, completedAt: real, result: string, error: string)

  type Table = map<TaskId, Task>

  /** A transaction that writes; a claim names the row its query chose. */
  datatype Op =
    | Create(id: TaskId, needs: seq<Capability>, priority: int, now: real)
    | Claim(id: TaskId, claimer: string, now: real)
    | Start(id: TaskId)
    | Complete(id: TaskId, result: string, now: real)
    | Fail(id: TaskId, error: string, now: real)
    | Requeue(id: TaskId)
    | RequeueStale(cutoff: real)

  predicate In(t: Table, id: TaskId, states: set<State>) {
    id in t && t[id].state in states
  }

  predicate IsPending(t: Table, id: TaskId) {
    id in t && t[id].state == Pending
  }

  function Released(task: Task): Task {
    task.(state := Pending, claimedBy := "", claimedAt := 0.0)
  }

  predicate Stale(task: Task, cutoff: real) {
    task.state == Claimed && 0.0 < task.claimedAt < cutoff
  }

  /** The effect of one transaction on the table. */
  function Apply(t: Table, op: Op): Table {
    match op
    case Create(id, needs, priority, now) =>
      if id in t then t else t[id := Task(needs, priority, now, Pending, "", 0.0, 0.0, "", "")]
    case Claim(id, claimer, now) =>
      if IsPending(t, id) then t[id := t[id].(state := Claimed, claimedBy := claimer, claimedAt := now)] else t
    case Start(id) => if In(t, id, {Claimed}) then t[id := t[id].(state := Running)] else t
    case Complete(id, result, now) =>
      if !In(t, id, {Claimed, Running}) then t
      else t[id := t[id].(state := Completed, result := result, completedAt := now)]
    case Fail(id, error, now) =>
      if In(t, id, {Claimed, Running}) then t[id := t[id].(state := Failed, error := error, completedAt := now)] else t
    case Requeue(id) =>
      if id in t && t[id].state != Completed then t[id := Released(t[id]).(error := "")] else t
    case RequeueStale(cutoff) => map id | id in t :: if Stale(t[id], cutoff) then Released(t[id]) else t[id]
  }

  // ---------------------------------------------------------------------------
  // The order of the pending rows
  // ---------------------------------------------------------------------------

  /** The first row comes no later than the second in the order of priority and then age. */
  predicate NoLater(a: Task, b: Task) {
    a.priority < b.priority || (a.priority == b.priority && a.createdAt <= b.createdAt)
  }

  function PendingIds(t: Table): set<TaskId> {
    set id | id in t && t[id].state == Pending
  }

  predicate First(t: Table, ids: set<TaskId>, id: TaskId)
    requires ids <= t.Keys
  {
    id in ids && forall other :: other in ids ==> NoLater(t[id], t[other])
  }

  ghost predicate SortedRows(t: Table, rows: seq<TaskId>) {
    && (forall i :: 0 <= i < |rows| ==> rows[i] in t)
    && (forall i, j :: 0 <= i < j < |rows| ==> rows[i] in t && rows[j] in t && NoLater(t[rows[i]], t[rows[j]]))
  }

  ghost predicate Distinct(rows: seq<TaskId>) {
    forall i, j :: 0 <= i < j < |rows| ==> rows[i] != rows[j]
  }

  /** What the query for the rows of a set may answer: each of them once, in order. */
  ghost predicate Listing(t: Table, ids: set<TaskId>, rows: seq<TaskId>) {
    SortedRows(t, rows) && Distinct(rows) && (forall id :: id in rows <==> id in ids)
  }

  lemma {:induction false} FirstExists(t: Table, ids: set<TaskId>) returns (id: TaskId)
    requires ids != {} && ids <= t.Keys
    ensures First(t, ids, id)
    decreases |ids|
  {
    id :| id in ids;
    if ids != {id} {
      var rest := FirstExists(t, ids - {id});
      if NoLater(t[rest], t[id]) {
        id := rest;
      }
    }
  }

  lemma {:induction false} ListingExists(t: Table, ids: set<TaskId>) returns (rows: seq<TaskId>)
    requires ids <= t.Keys
    ensures Listing(t, ids, rows)
    decreases |ids|
  {
    rows := [];
    if ids != {} {
      var id := FirstExists(t, ids);
      var rest := ListingExists(t, ids - {id});
      forall i | 0 <= i < |rest| ensures rest[i] in ids - {id} {
        assert rest[i] in rest;
      }
      rows := [id] + rest;
    }
  }

  predicate Serves(capabilities: set<Capability>, needs: seq<Capability>) {
    forall i :: 0 <= i < |needs| ==> needs[i] in capabilities
  }

  predicate Suits(task: Task, capabilities: set<Capability>) {
    task.state == Pending && forall need :: need in task.needs ==> need in capabilities
  }

  function MatchingIds(t: Table, capabilities: set<Capability>): set<TaskId> {
    set id | id in t && t[id].state == Pending && Serves(capabilities, t[id].needs)
  }

  class TaskStore {
    var tasks: Table

    constructor ()
      ensures tasks == map[]
    {
      tasks := map[];
    }

    method CreateTask(id: TaskId, needs: seq<Capability>, priority: int, now: real)
      modifies this
      ensures tasks == Apply(old(tasks), Create(id, needs, priority, now))
    {
      if id !in tasks {
        tasks := tasks[id := Task(needs, priority, now, Pending, "", 0.0, 0.0, "", "")];
      }
    }

    /** The rows of a query for the pending tasks. */
    method SelectPending() returns (rows: seq<TaskId>)
      ensures Listing(tasks, PendingIds(tasks), rows)
    {
      ghost var listing := ListingExists(tasks, PendingIds(tasks));
      assert Listing(tasks, PendingIds(tasks), listing);
      var ids := PendingIds(tasks);
      rows := [];
      while ids != {}
        invariant ids <= PendingIds(tasks) && Distinct(rows) && SortedRows(tasks, rows)
        invariant forall i :: 0 <= i < |rows| ==> rows[i] in PendingIds(tasks) - ids
        invariant forall i, id :: 0 <= i < |rows| && id in ids ==> NoLater(tasks[rows[i]], tasks[id])
        invariant forall id :: id in PendingIds(tasks) - ids ==> id in rows
        decreases |ids|
      {
        ghost var first := FirstExists(tasks, ids);
        var id :| First(tasks, ids, id);
        assert First(tasks, ids, id);
        rows := rows + [id];
        ids := ids - {id};
      }
    }

    method UpdateClaimed(id: TaskId, claimer: string, now: real)
      requires IsPending(tasks, id)
      modifies this
      ensures tasks == Apply(old(tasks), Claim(id, claimer, now))
    {
      tasks := tasks[id := tasks[id].(state := Claimed, claimedBy := claimer, claimedAt := now)];
    }

    /** Claim the given task, or the first pending one. */
    method ClaimTask(claimer: string, wanted: Option<TaskId>, now: real) returns (r: Option<TaskId>)
      modifies this
      ensures r.None? ==> tasks == old(tasks)
      ensures r.None? <==> if wanted.Some? then !IsPending(old(tasks), wanted.value) else PendingIds(old(tasks)) == {}
      ensures r.Some? ==> IsPending(old(tasks), r.value) && tasks == Apply(old(tasks), Claim(r.value, claimer, now))
      ensures r.Some? && wanted.Some? ==> r == wanted
      ensures r.Some? && wanted.None? ==> First(old(tasks), PendingIds(old(tasks)), r.value)
      ensures r.Some? && wanted.None? ==> forall id :: id in old(tasks) && old(tasks)[id].state == Pending ==>
        var (a, b) := (old(tasks)[r.value], old(tasks)[id]);
        a.priority < b.priority || (a.priority == b.priority && a.createdAt <= b.createdAt)
    {
      if wanted.Some? {
        if !IsPending(tasks, wanted.value) {
          return None;
        }
        r := wanted;
      } else {
        var rows := SelectPending();
        if rows == [] {
          return None;
        }
        assert rows[0] in rows;
        r := Some(rows[0]);
      }
      UpdateClaimed(r.value, claimer, now);
    }

    /** Claim the first pending task whose needs the capabilities serve. */
    method ClaimMatching(capabilities: set<Capability>, claimer: string, now: real) returns (r: Option<TaskId>)
      modifies this
      ensures r.None? ==> tasks == old(tasks)
      ensures r.None? <==> MatchingIds(old(tasks), capabilities) == {}
      ensures r.Some? ==> First(old(tasks), MatchingIds(old(tasks), capabilities), r.value)
      ensures r.Some? ==> tasks == Apply(old(tasks), Claim(r.value, claimer, now))
      ensures r.Some? ==> Suits(old(tasks)[r.value], capabilities)
      ensures r.None? ==> forall id :: id in old(tasks) ==> !Suits(old(tasks)[id], capabilities)
      ensures r.Some? ==> forall id :: id in old(tasks) && Suits(old(tasks)[id], capabilities) ==>
        var (a, b) := (old(tasks)[r.value], old(tasks)[id]);
        a.priority < b.priority || (a.priority == b.priority && a.createdAt <= b.createdAt)
    {
      var rows := SelectPending();
      for i := 0 to |rows|
        invariant tasks == old(tasks)
        invariant forall j :: 0 <= j < i ==> rows[j] !in MatchingIds(tasks, capabilities)
      {
        var id := rows[i];
        assert id in rows;
        if Serves(capabilities, tasks[id].needs) {
          forall other | other in MatchingIds(tasks, capabilities) ensures NoLater(tasks[id], tasks[other]) {
            assert other in PendingIds(tasks) && other in rows;
            var j :| 0 <= j < |rows| && rows[j] == other;
          }
          UpdateClaimed(id, claimer, now);
          return Some(id);
        }
      }
      forall id ensures id !in MatchingIds(tasks, capabilities) {
        assert id in PendingIds(tasks) ==> id in rows;
      }
      forall id | id in tasks ensures !Suits(tasks[id], capabilities) {
        assert id !in MatchingIds(tasks, capabilities);
      }
      return None;
    }

    method StartTask(id: TaskId) returns (changed: bool)
      modifies this
      ensures tasks == Apply(old(tasks), Start(id)) && changed == In(old(tasks), id, {Claimed})
    {
      changed := In(tasks, id, {Claimed});
      if changed {
        tasks := tasks[id := tasks[id].(state := Running)];
      }
    }

    method CompleteTask(id: TaskId, result: string, now: real) returns (changed: bool)
      modifies this
      ensures tasks == Apply(old(tasks), Complete(id, result, now)) && changed == In(old(tasks), id, {Claimed, Running})
    {
      changed := In(tasks, id, {Claimed, Running});
      if changed {
        tasks := tasks[id := tasks[id].(state := Completed, result := result, completedAt := now)];
      }
    }

    method FailTask(id: TaskId, error: string, now: real) returns (changed: bool)
      modifies this
      ensures tasks == Apply(old(tasks), Fail(id, error, now)) && changed == In(old(tasks), id, {Claimed, Running})
    {
      changed := In(tasks, id, {Claimed, Running});
      if changed {
        tasks := tasks[id := tasks[id].(state := Failed, error := error, completedAt := now)];
      }
    }

    method RequeueTask(id: TaskId)
      modifies this
      ensures tasks == Apply(old(tasks), Requeue(id))
    {
      if id in tasks && tasks[id].state != Completed {
        tasks := tasks[id := Released(tasks[id]).(error := "")];
      }
    }

    /** The second half of the stale requeue: the rows are released by id, whatever their state is by then. */
    method ReleaseRows(rows: seq<TaskId>)
      modifies this
      ensures tasks == ReleasedIds(old(tasks), rows)
    {
      for i := 0 to |rows|
        invariant tasks == ReleasedIds(old(tasks), rows[..i])
      {
        if rows[i] in tasks {
          tasks := tasks[rows[i] := Released(tasks[rows[i]])];
        }
        assert rows[..i + 1] == rows[..i] + [rows[i]];
      }
      assert rows[..|rows|] == rows;
    }

    method RequeueStaleTasks(ttl: real, now: real) returns (requeued: seq<TaskId>)
      modifies this
      ensures tasks == Apply(old(tasks), RequeueStale(now - ttl))
      ensures Distinct(requeued)
      ensures forall id :: id in requeued <==> id in old(tasks) && Stale(old(tasks)[id], now - ttl)
      ensures forall id :: id in requeued <==> id in old(tasks) && var task := old(tasks)[id];
        task.state == Claimed && task.claimedAt > 0.0 && now - task.claimedAt > ttl
    {
      var cutoff := now - ttl;
      var ids := set id | id in tasks && Stale(tasks[id], cutoff);
      var left := ids;
      requeued := [];
      while left != {}
        invariant left <= ids && Distinct(requeued)
        invariant forall id :: id in requeued <==> id in ids - left
        decreases |left|
      {
        var id :| id in left;
        assert id !in requeued;
        requeued := requeued + [id];
        left := left - {id};
      }
      ReleaseRows(requeued);
    }
  }

  function ReleasedIds(t: Table, rows: seq<TaskId>): Table {
    map id | id in t :: if id in rows then Released(t[id]) else t[id]
  }

  // ---------------------------------------------------------------------------
  // Every run
  // ---------------------------------------------------------------------------

  /** The table after the first n transactions of a run that starts from the empty table. */
  function After(ops: seq<Op>, n: nat): Table
    requires n <= |ops|
  {
    if n == 0 then map[] else Apply(After(ops, n - 1), ops[n - 1])
  }

  /** The n-th transaction claims the task. */
  ghost predicate ClaimsAt(ops: seq<Op>, n: nat, id: TaskId) {
    n < |ops| && ops[n].Claim? && ops[n].id == id && IsPending(After(ops, n), id)
  }

  /** The n-th transaction is a requeue that takes the task back. */
  ghost predicate RequeuesAt(ops: seq<Op>, n: nat, id: TaskId) {
    && n < |ops| && id in After(ops, n) && After(ops, n)[id].state !in {Pending, Completed}
    && (ops[n] == Requeue(id) || (ops[n].RequeueStale? && Stale(After(ops, n)[id], ops[n].cutoff)))
  }

  /** Every change of state a transaction can make. */
  lemma Transitions(t: Table, op: Op, id: TaskId)
    requires id in t
    ensures id in Apply(t, op)
    ensures var (a, b) := (t[id], Apply(t, op)[id]);
      && (a.state == Completed ==> a == b)
      && (b.priority, b.createdAt, b.needs) == (a.priority, a.createdAt, a.needs)
      && (b.state != a.state ==>
          if a.state == Pending then op.Claim? && op.id == id && b.state == Claimed
          else if b.state == Pending then op == Requeue(id) || (op.RequeueStale? && Stale(a, op.cutoff))
          else a.state in {Claimed, Running} && b.state in {Running, Completed, Failed})
  {
  }

  /** The state that a transaction is for. */
  function Target(op: Op): State {
    match op
    case Create(_, _, _, _) => Pending
    case Claim(_, _, _) => Claimed
    case Start(_) => Running
    case Complete(_, _, _) => Completed
    case Fail(_, _, _) => Failed
    case Requeue(_) => Pending
    case RequeueStale(_) => Pending
  }

  /** The transaction is about the task, and finds it in a state from which it can go on. */
  predicate Moves(t: Table, op: Op, id: TaskId) {
    match op
    case Create(x, _, _, _) => x == id && id !in t
    case Claim(x, _, _) => x == id && id in t && t[id].state == Pending
    case Start(x) => x == id && id in t && t[id].state == Claimed
    case Complete(x, _, _) => x == id && id in t && (t[id].state == Claimed || t[id].state == Running)
    case Fail(x, _, _) => x == id && id in t && (t[id].state == Claimed || t[id].state == Running)
    case Requeue(x) => x == id && id in t && t[id].state != Completed
    case RequeueStale(cutoff) => id in t && t[id].state == Claimed && 0.0 < t[id].claimedAt < cutoff
  }

  /** A transaction that moves a task brings it to the state it is for; any other leaves the task as it is. */
  lemma MovesToTarget(t: Table, op: Op, id: TaskId)
    ensures if Moves(t, op, id) then id in Apply(t, op) && Apply(t, op)[id].state == Target(op)
            else (id in Apply(t, op) <==> id in t) && (id in t ==> Apply(t, op)[id] == t[id])
  {
  }

  /** What a transaction that moves a task leaves in its row. */
  predicate RowOf(op: Op, row: Task) {
    row.state == Target(op) &&
    match op
    case Create(_, needs, priority, now) => row == Task(needs, priority, now, Pending, "", 0.0, 0.0, "", "")
    case Claim(_, claimer, now) => row.claimedBy == claimer && row.claimedAt == now
    case Start(_) => true
    case Complete(_, result, now) => row.result == result && row.completedAt == now
    case Fail(_, error, now) => row.error == error && row.completedAt == now
    case Requeue(_) => row.claimedBy == "" && row.claimedAt == 0.0 && row.error == ""
    case RequeueStale(_) => row.claimedBy == "" && row.claimedAt == 0.0
  }

  lemma MoveWritesRow(t: Table, op: Op, id: TaskId)
    requires Moves(t, op, id)
    ensures id in Apply(t, op) && RowOf(op, Apply(t, op)[id])
  {
  }

  ghost predicate MovesAt(ops: seq<Op>, n: nat, id: TaskId) {
    n < |ops| && Moves(After(ops, n), ops[n], id)
  }

  lemma RowAfter(ops: seq<Op>, n: nat, id: TaskId)
    requires n < |ops| && id in After(ops, n + 1)
    ensures MovesAt(ops, n, id) ==> RowOf(ops[n], After(ops, n + 1)[id])
    ensures !MovesAt(ops, n, id) ==> id in After(ops, n) && After(ops, n + 1)[id] == After(ops, n)[id]
  {
    if MovesAt(ops, n, id) {
      MoveWritesRow(After(ops, n), ops[n], id);
    } else {
      MovesToTarget(After(ops, n), ops[n], id);
    }
  }

  /**
   In every run a task is in the state that the last transaction that moved it is for, and the row is what that
   transaction made of it.
   */
  lemma {:induction false} StateIsOfLastMove(ops: seq<Op>, n: nat, id: TaskId) returns (m: nat)
    requires n <= |ops| && id in After(ops, n)
    ensures m < n && MovesAt(ops, m, id) && RowOf(ops[m], After(ops, n)[id])
    ensures forall k :: m < k < n ==> !MovesAt(ops, k, id)
  {
    RowAfter(ops, n - 1, id);
    if MovesAt(ops, n - 1, id) {
      m := n - 1;
    } else {
      m := StateIsOfLastMove(ops, n - 1, id);
    }
  }

  /** A pending task is never held by anyone. */
  lemma {:induction false} PendingIsUnheld(ops: seq<Op>, n: nat, id: TaskId)
    requires n <= |ops| && IsPending(After(ops, n), id)
    ensures After(ops, n)[id].claimedBy == "" && After(ops, n)[id].claimedAt == 0.0
  {
    if IsPending(After(ops, n - 1), id) {
      PendingIsUnheld(ops, n - 1, id);
    }
  }

  /** A completed task never changes again, not even its result. */
  lemma {:induction false} CompletedIsFinal(ops: seq<Op>, m: nat, n: nat, id: TaskId)
    requires m <= n <= |ops| && In(After(ops, m), id, {Completed})
    ensures id in After(ops, n) && After(ops, n)[id] == After(ops, m)[id]
    decreases n
  {
    if m < n {
      CompletedIsFinal(ops, m, n - 1, id);
      Transitions(After(ops, n - 1), ops[n - 1], id);
    }
  }

  /** After a claim the task is not pending until a requeue takes it back. */
  lemma {:induction false} NotPendingUntilRequeue(ops: seq<Op>, m: nat, n: nat, id: TaskId)
    requires m < n <= |ops| && ClaimsAt(ops, m, id)
    requires forall k :: m < k < n ==> !RequeuesAt(ops, k, id)
    ensures id in After(ops, n) && After(ops, n)[id].state != Pending
    decreases n
  {
    if m + 1 < n {
      NotPendingUntilRequeue(ops, m, n - 1, id);
      assert !RequeuesAt(ops, n - 1, id);
      Transitions(After(ops, n - 1), ops[n - 1], id);
    }
  }

  /** Two claims of one task always have a requeue of it between them. */
  lemma ClaimsAreSeparated(ops: seq<Op>, m: nat, n: nat, id: TaskId)
    requires m < n && ClaimsAt(ops, m, id) && ClaimsAt(ops, n, id)
    ensures exists k :: m < k < n && RequeuesAt(ops, k, id)
  {
    if forall k :: m < k < n ==> !RequeuesAt(ops, k, id) {
      NotPendingUntilRequeue(ops, m, n, id);
    }
  }

  /** The recorded holder of a task at work is the one whose claim succeeded last, and no requeue came after it. */
  lemma {:induction false} HolderIsLastClaimer(ops: seq<Op>, n: nat, id: TaskId) returns (m: nat)
    requires n <= |ops| && In(After(ops, n), id, {Claimed, Running})
    ensures m < n && ClaimsAt(ops, m, id)
    ensures After(ops, n)[id].claimedBy == ops[m].claimer && After(ops, n)[id].claimedAt == ops[m].now
    ensures forall k :: m < k < n ==> !RequeuesAt(ops, k, id) && !ClaimsAt(ops, k, id)
  {
    var before := After(ops, n - 1);
    if ClaimsAt(ops, n - 1, id) {
      m := n - 1;
    } else {
      m := HolderIsLastClaimer(ops, n - 1, id);
      assert !RequeuesAt(ops, n - 1, id);
    }
  }

  // ---------------------------------------------------------------------------
  // Draining the queue
  // ---------------------------------------------------------------------------

  /** The claims, one after the other, each of a first pending task; each may come from another claimer at any time. */
  ghost predicate Drains(t: Table, claims: seq<Op>)
    decreases |claims|
  {
    claims == [] ||
    (claims[0].Claim? && First(t, PendingIds(t), claims[0].id) && Drains(Apply(t, claims[0]), claims[1..]))
  }

  function Ids(claims: seq<Op>): (ids: seq<TaskId>)
    requires forall i :: 0 <= i < |claims| ==> claims[i].Claim?
    ensures |ids| == |claims|
  {
    if claims == [] then [] else [claims[0].id] + Ids(claims[1..])
  }

  function Drained(t: Table, claims: seq<Op>): Table
    decreases |claims|
  {
    if claims == [] then t else Drained(Apply(t, claims[0]), claims[1..])
  }

  lemma {:induction false} DrainsOnlyClaims(t: Table, claims: seq<Op>)
    requires Drains(t, claims)
    ensures forall i :: 0 <= i < |claims| ==> claims[i].Claim?
    decreases |claims|
  {
    if claims != [] {
      DrainsOnlyClaims(Apply(t, claims[0]), claims[1..]);
    }
  }

  /** Claims take pending tasks in order, none twice, and leave the others pending. */
  lemma {:induction false} DrainInOrder(t: Table, claims: seq<Op>)
    requires Drains(t, claims)
    requires forall i :: 0 <= i < |claims| ==> claims[i].Claim?
    ensures SortedRows(t, Ids(claims)) && Distinct(Ids(claims))
    ensures forall id :: id in PendingIds(Drained(t, claims)) <==> id in PendingIds(t) && id !in Ids(claims)
    ensures forall id :: id in Ids(claims) ==> id in PendingIds(t)
    decreases |claims|
  {
    if claims != [] {
      var first, rest, next := claims[0].id, Ids(claims[1..]), Apply(t, claims[0]);
      DrainInOrder(next, claims[1..]);
      assert PendingIds(next) == PendingIds(t) - {first};
      forall i | 0 <= i < |rest| ensures rest[i] in PendingIds(t) - {first} && t[rest[i]] == next[rest[i]] {
        assert rest[i] in rest;
      }
    }
  }

  /**
   A drain that ends because nothing is left, which is when the next claim answers nothing, has listed the tasks that
   were pending: each exactly once, sorted by priority and age.
   */
  lemma DrainListsPending(t: Table, claims: seq<Op>)
    requires Drains(t, claims) && PendingIds(Drained(t, claims)) == {}
    ensures forall i :: 0 <= i < |claims| ==> claims[i].Claim?
    ensures Listing(t, PendingIds(t), Ids(claims))
  {
    DrainsOnlyClaims(t, claims);
    DrainInOrder(t, claims);
  }

  // ---------------------------------------------------------------------------
  // The two halves of the stale requeue
  // ---------------------------------------------------------------------------

  /** The rows that the first half selects after m transactions. */
  ghost predicate SelectedAt(ops: seq<Op>, m: nat, cutoff: real, rows: seq<TaskId>)
    requires m <= |ops|
  {
    forall id :: id in rows <==> id in After(ops, m) && Stale(After(ops, m)[id], cutoff)
  }

  ghost predicate CompletesAt(ops: seq<Op>, n: nat, id: TaskId) {
    n < |ops| && ops[n].Complete? && ops[n].id == id && In(After(ops, n), id, {Claimed, Running})
  }

  /** A task that was not completed at m and is at n was completed in between. */
  lemma {:induction false} CompletedBetween(ops: seq<Op>, m: nat, n: nat, id: TaskId) returns (i: nat)
    requires m <= n <= |ops| && In(After(ops, n), id, {Completed}) && !In(After(ops, m), id, {Completed})
    ensures m <= i < n && CompletesAt(ops, i, id)
    decreases n
  {
    i := n - 1;
    if !CompletesAt(ops, i, id) {
      i := CompletedBetween(ops, m, i, id);
    }
  }

  /** Releasing the rows leaves every completed task as it is. */
  ghost predicate KeepsCompleted(t: Table, rows: seq<TaskId>) {
    forall id :: In(t, id, {Completed}) ==> ReleasedIds(t, rows)[id] == t[id]
  }

  ghost predicate NoneCompleted(t: Table, rows: seq<TaskId>) {
    forall id :: id in rows ==> !In(t, id, {Completed})
  }

  lemma KeepsCompletedIff(t: Table, rows: seq<TaskId>)
    ensures KeepsCompleted(t, rows) <==> NoneCompleted(t, rows)
  {
    if id :| id in rows && In(t, id, {Completed}) {
      assert ReleasedIds(t, rows)[id].state == Pending;
    }
  }

  /**
   In every run: if the second half releases at n the rows that the first half selected at m, whatever transactions came
   in between, all completed tasks are kept exactly when none of the selected ones was completed in between.
   */
  lemma SplitRequeueKeepsCompletedIff(ops: seq<Op>, m: nat, n: nat, cutoff: real, rows: seq<TaskId>)
    requires m <= n <= |ops| && SelectedAt(ops, m, cutoff, rows)
    ensures KeepsCompleted(After(ops, n), rows)
      <==> (forall i, id :: m <= i < n && id in rows ==> !CompletesAt(ops, i, id))
  {
    KeepsCompletedIff(After(ops, n), rows);
    forall id | id in rows
      ensures In(After(ops, n), id, {Completed}) <==> exists i :: m <= i < n && CompletesAt(ops, i, id)
    {
      CompletedIffBetween(ops, m, n, id);
    }
  }

  lemma CompletedIffBetween(ops: seq<Op>, m: nat, n: nat, id: TaskId)
    requires m <= n <= |ops| && !In(After(ops, m), id, {Completed})
    ensures In(After(ops, n), id, {Completed}) <==> exists i :: m <= i < n && CompletesAt(ops, i, id)
  {
    if In(After(ops, n), id, {Completed}) {
      var i := CompletedBetween(ops, m, n, id);
    }
    if i :| m <= i < n && CompletesAt(ops, i, id) {
      CompletedIsFinal(ops, i + 1, n, id);
    }
  }

  /** A run in which it has: the task goes back to pending after its completion, and can be claimed again. */
  lemma SplitRequeueRevivesCompleted(id: TaskId)
    ensures var atSelect := After([Create(id, [], 3, 1.0), Claim(id, "a", 2.0)], 2);
      && id in atSelect && Stale(atSelect[id], 5.0)
      && IsPending(ReleasedIds(Apply(atSelect, Complete(id, "done", 6.0)), [id]), id)
  {
    var ops := [Create(id, [], 3, 1.0), Claim(id, "a", 2.0)];
    assert After(ops, 0) == map[];
    assert After(ops, 1) == Apply(map[], ops[0]);
    assert After(ops, 2) == Apply(After(ops, 1), ops[1]);
  }
}
