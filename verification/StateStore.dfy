/**
 The local store behind the state cascade: leases on slots that expire, and task records with an index by state.

 An operation first selects a row, outside of any transaction, and then writes by key alone, in a transaction of its
 own. Calls of other threads and processes can come in between. Times are whole seconds of a clock that never goes back.
 */
module StateStore {

  import opened Wrappers

  type CallId = nat

  datatype Key = Key(text: string)

  datatype Holder = Holder(name: string)

  datatype Lease = Lease(holder: Holder, expires: int)

  type Slots = map<Key, Lease>

  /** What a call has decided to write after its select. */
  datatype SlotWrite = PutLease(key: Key, lease: Lease) | DropReleased(key: Key, holder: Holder) | DropExpired(key: Key)

  /** The claim is refused: the slot is held by someone else and the lease has not expired. */
  predicate Refused(s: Slots, k: Key, h: Holder, now: int) {
    k in s && s[k].expires > now && s[k].holder != h
  }

  function ClaimPlan(s: Slots, k: Key, h: Holder, ttl: int, started: int, now: int): Option<SlotWrite> {
    if Refused(s, k, h, now) then None else Some(PutLease(k, Lease(h, started + ttl)))
  }

  function ReleasePlan(s: Slots, k: Key, h: Holder): Option<SlotWrite> {
    if k in s && s[k].holder == h then Some(DropReleased(k, h)) else None
  }

  function AskPlan(s: Slots, k: Key, now: int): Option<SlotWrite> {
    if k in s && s[k].expires <= now then Some(DropExpired(k)) else None
  }

  function Perform(s: Slots, w: SlotWrite): Slots {
    match w
    case PutLease(k, lease) => s[k := lease]
    case DropReleased(k, _) => s - {k}
    case DropExpired(k) => s - {k}
  }

  /** A call that nothing comes in between of. */
  function Alone(s: Slots, plan: Option<SlotWrite>): Slots {
    if plan.Some? then Perform(s, plan.value) else s
  }

  datatype TaskId = TaskId(text: string)

  /** The name of a state; tasks whose record names none have no name. */
  datatype StateName = NoName | StateName(text: string)

  type Data = int

  datatype Row = Row(state: StateName, data: Data, updatedAt: int)

  /** The task table and its index. */
  datatype Tables = Tables(tasks: map<TaskId, Row>, byState: set<(StateName, TaskId)>)

  /** What a task write has decided after its select, with the state it saw. */
  datatype TaskWrite = TaskWrite(id: TaskId, row: Row, seen: Option<StateName>)

  function StateOf(t: Tables, id: TaskId): Option<StateName> {
    if id in t.tasks then Some(t.tasks[id].state) else None
  }

  function Commit(t: Tables, w: TaskWrite): Tables {
    var dropped := if w.seen.Some? && w.seen.value != w.row.state then {(w.seen.value, w.id)} else {};
    var added := if w.row.state != NoName then {(w.row.state, w.id)} else {};
    Tables(t.tasks[w.id := w.row], t.byState - dropped + added)
  }

  class Store {
    var slots: Slots
    var tables: Tables

    constructor ()
      ensures slots == map[] && tables == Tables(map[], {})
    {
      slots, tables := map[], Tables(map[], {});
    }

    method SlotClaim(k: Key, h: Holder, ttl: int, started: int, now: int) returns (granted: bool)
      modifies this
      ensures granted == ClaimPlan(old(slots), k, h, ttl, started, now).Some?
      ensures slots == Alone(old(slots), ClaimPlan(old(slots), k, h, ttl, started, now)) && tables == old(tables)
      ensures granted <==> k !in old(slots) || old(slots)[k].expires <= now || old(slots)[k].holder == h
      ensures slots == if granted then old(slots)[k := Lease(h, started + ttl)] else old(slots)
    {
      if k in slots {
        if slots[k].expires > now && slots[k].holder != h {
          return false;
        }
      }
      slots := slots[k := Lease(h, started + ttl)];
      return true;
    }

    method SlotRelease(k: Key, h: Holder) returns (released: bool)
      modifies this
      ensures released == ReleasePlan(old(slots), k, h).Some?
      ensures slots == Alone(old(slots), ReleasePlan(old(slots), k, h)) && tables == old(tables)
      ensures released <==> k in old(slots) && old(slots)[k].holder == h
      ensures slots == if released then old(slots) - {k} else old(slots)
    {
      if k in slots && slots[k].holder == h {
        slots := slots - {k};
        return true;
      }
      return false;
    }

    method SlotHolder(k: Key, now: int) returns (r: Option<Holder>)
      modifies this
      ensures r == HolderAt(old(slots), k, now)
      ensures slots == Alone(old(slots), AskPlan(old(slots), k, now)) && tables == old(tables)
      ensures r.Some? <==> k in old(slots) && old(slots)[k].expires > now
      ensures r.Some? ==> r.value == old(slots)[k].holder
      ensures slots == if r.Some? then old(slots) else old(slots) - {k}
    {
      if k !in slots {
        return None;
      }
      if slots[k].expires <= now {
        slots := slots - {k};
        return None;
      }
      return Some(slots[k].holder);
    }

    method WriteTask(id: TaskId, state: StateName, data: Data, now: int)
      modifies this
      ensures tables == Commit(old(tables), TaskWrite(id, Row(state, data, now), StateOf(old(tables), id)))
      ensures slots == old(slots)
    {
      var byState := tables.byState;
      if id in tables.tasks && tables.tasks[id].state != state {
        byState := byState - {(tables.tasks[id].state, id)};
      }
      var tasks := tables.tasks[id := Row(state, data, now)];
      if state != NoName {
        byState := byState + {(state, id)};
      }
      tables := Tables(tasks, byState);
    }

    /** The join of the tasks with the index rows of the state, in an arbitrary order. */
    method TaskListByState(state: StateName) returns (ids: seq<TaskId>, r: seq<Data>)
      ensures |r| == |ids|
      ensures forall i :: 0 <= i < |ids| ==> ids[i] in tables.tasks && r[i] == tables.tasks[ids[i]].data
      ensures forall i, j :: 0 <= i < j < |ids| ==> ids[i] != ids[j]
      ensures forall id :: id in ids <==> id in Joined(tables, state)
    {
      var left := Joined(tables, state);
      ids, r := [], [];
      while left != {}
        invariant left <= Joined(tables, state) && |r| == |ids|
        invariant forall i :: 0 <= i < |ids| ==> ids[i] in tables.tasks && r[i] == tables.tasks[ids[i]].data
        invariant forall i, j :: 0 <= i < j < |ids| ==> ids[i] != ids[j]
        invariant forall id :: id in ids <==> id in Joined(tables, state) - left
        decreases |left|
      {
        var id :| id in left;
        assert id !in ids;
        ids, r := ids + [id], r + [tables.tasks[id].data];
        left := left - {id};
      }
    }
  }

  function HolderAt(s: Slots, k: Key, now: int): Option<Holder> {
    if k in s && s[k].expires > now then Some(s[k].holder) else None
  }

  function Joined(t: Tables, state: StateName): set<TaskId> {
    set id | id in t.tasks && (state, id) in t.byState
  }

  // ---------------------------------------------------------------------------
  // Leases over every run
  // ---------------------------------------------------------------------------

  /** The select of a call, or its write; a claim reads the clock for the expiry before it selects. */
  datatype SlotEvent =
    | ClaimSelect(call: CallId, key: Key, holder: Holder, ttl: int, started: int, now: int)
    | ReleaseSelect(call: CallId, key: Key, holder: Holder, now: int)
    | AskSelect(call: CallId, key: Key, now: int)
    | Write(call: CallId, now: int)

  /** The slots, and what the calls that have selected are about to write. */
  datatype SlotWorld = SlotWorld(slots: Slots, pending: map<CallId, SlotWrite>)

  function PlanOf(s: Slots, e: SlotEvent): Option<SlotWrite> {
    match e
    case ClaimSelect(_, k, h, ttl, started, now) => ClaimPlan(s, k, h, ttl, started, now)
    case ReleaseSelect(_, k, h, _) => ReleasePlan(s, k, h)
    case AskSelect(_, k, now) => AskPlan(s, k, now)
    case Write(_, _) => None
  }

  function SlotStep(w: SlotWorld, e: SlotEvent): SlotWorld {
    if e.Write? then
      if e.call in w.pending then SlotWorld(Perform(w.slots, w.pending[e.call]), w.pending - {e.call}) else w
    else if e.call !in w.pending && PlanOf(w.slots, e).Some? then
      w.(pending := w.pending[e.call := PlanOf(w.slots, e).value])
    else w
  }

  function After(events: seq<SlotEvent>, n: nat): SlotWorld
    requires n <= |events|
  {
    if n == 0 then SlotWorld(map[], map[]) else SlotStep(After(events, n - 1), events[n - 1])
  }

  function SlotsAfter(events: seq<SlotEvent>, n: nat): Slots
    requires n <= |events|
  {
    After(events, n).slots
  }

  /** The clock never goes back. */
  ghost predicate Timed(events: seq<SlotEvent>) {
    forall i, j :: 0 <= i <= j < |events| ==> events[i].now <= events[j].now
  }

  /** The n-th event writes. */
  ghost predicate WritesAt(events: seq<SlotEvent>, n: nat) {
    n < |events| && events[n].Write? && events[n].call in After(events, n).pending
  }

  function Written(events: seq<SlotEvent>, n: nat): SlotWrite
    requires WritesAt(events, n)
  {
    After(events, n).pending[events[n].call]
  }

  /** The n-th event writes to the slot. */
  ghost predicate WritesTo(events: seq<SlotEvent>, n: nat, k: Key) {
    WritesAt(events, n) && Written(events, n).key == k
  }

  /** The n-th event grants the slot to the holder. */
  ghost predicate GrantsAt(events: seq<SlotEvent>, n: nat, k: Key, h: Holder) {
    WritesTo(events, n, k) && Written(events, n).PutLease? && Written(events, n).lease.holder == h
  }

  /** The n-th event is the write of a release by the holder, which then answers that it released the slot. */
  ghost predicate ReleasesAt(events: seq<SlotEvent>, n: nat, k: Key, h: Holder) {
    WritesAt(events, n) && Written(events, n) == DropReleased(k, h)
  }

  /** What the holder was last told about the slot in the first n events is the grant at m. */
  ghost predicate LastTold(events: seq<SlotEvent>, m: nat, n: nat, k: Key, h: Holder) {
    && m < n <= |events| && GrantsAt(events, m, k, h)
    && (forall i :: m < i < n ==> !GrantsAt(events, i, k, h) && !ReleasesAt(events, i, k, h))
  }

  function Expiry(events: seq<SlotEvent>, m: nat): int
    requires WritesAt(events, m) && Written(events, m).PutLease?
  {
    Written(events, m).lease.expires
  }

  /** Nothing is written to the slot from m to n. */
  ghost predicate Untouched(events: seq<SlotEvent>, m: nat, n: nat, k: Key) {
    forall i :: m <= i < n ==> !WritesTo(events, i, k)
  }

  /** The write is on behalf of the holder. */
  predicate Owns(w: SlotWrite, h: Holder) {
    match w
    case PutLease(_, lease) => lease.holder == h
    case DropReleased(_, holder) => holder == h
    case DropExpired(_) => false
  }

  /** The n-th event overwrites or deletes a lease that is still good and was not its caller's. */
  ghost predicate Clobbers(events: seq<SlotEvent>, n: nat, k: Key) {
    WritesTo(events, n, k) && var s := SlotsAfter(events, n);
    k in s && s[k].expires > events[n].now && !Owns(Written(events, n), s[k].holder)
  }

  lemma {:induction false} UntouchedStays(events: seq<SlotEvent>, m: nat, n: nat, k: Key)
    requires m <= n <= |events| && Untouched(events, m, n, k)
    ensures k in SlotsAfter(events, n) <==> k in SlotsAfter(events, m)
    ensures k in SlotsAfter(events, n) ==> SlotsAfter(events, n)[k] == SlotsAfter(events, m)[k]
    decreases n
  {
    if m < n {
      UntouchedStays(events, m, n - 1, k);
      assert !WritesTo(events, n - 1, k);
    }
  }

  /** The last write to the slot, if there is one from m on. */
  lemma {:induction false} LastTouch(events: seq<SlotEvent>, m: nat, n: nat, k: Key) returns (g: nat)
    requires m <= n <= |events|
    ensures Untouched(events, m, n, k) || (m <= g < n && WritesTo(events, g, k) && Untouched(events, g + 1, n, k))
    decreases n
  {
    g := m;
    if m < n {
      if WritesTo(events, n - 1, k) {
        g := n - 1;
      } else {
        g := LastTouch(events, m, n - 1, k);
      }
    }
  }

  /** A good lease stands as it was granted, unless a write clobbers it. */
  lemma {:induction false} LeaseStands(events: seq<SlotEvent>, m: nat, n: nat, k: Key, h: Holder)
    requires Timed(events) && LastTold(events, m, n, k, h) && Expiry(events, m) > events[n - 1].now
    requires forall i :: m < i < n ==> !Clobbers(events, i, k)
    ensures k in SlotsAfter(events, n) && SlotsAfter(events, n)[k] == Lease(h, Expiry(events, m))
    decreases n
  {
    if m + 1 < n {
      LeaseStands(events, m, n - 1, k, h);
      assert !GrantsAt(events, n - 1, k, h) && !ReleasesAt(events, n - 1, k, h) && !Clobbers(events, n - 1, k);
    }
  }

  /** Every recorded lease was granted as it stands, and its holder has been told nothing else since. */
  lemma RecordedLeaseWasGranted(events: seq<SlotEvent>, n: nat, k: Key) returns (m: nat)
    requires n <= |events| && k in SlotsAfter(events, n)
    ensures LastTold(events, m, n, k, SlotsAfter(events, n)[k].holder)
    ensures SlotsAfter(events, n)[k].expires == Expiry(events, m)
  {
    m := LastTouch(events, 0, n, k);
    if Untouched(events, 0, n, k) {
      UntouchedStays(events, 0, n, k);
    }
    UntouchedStays(events, m + 1, n, k);
    var h := SlotsAfter(events, n)[k].holder;
    forall i: nat | m < i < n ensures !GrantsAt(events, i, k, h) && !ReleasesAt(events, i, k, h) {
      assert !WritesTo(events, i, k);
    }
  }

  /**
   A grant was claimed by a select of the same call, which found the slot without a lease, with an expired one or with
   one of the same holder; and it expires the time to live after the claim started.
   */
  lemma GrantWasClaimed(events: seq<SlotEvent>, m: nat, k: Key, h: Holder) returns (u: nat)
    requires GrantsAt(events, m, k, h)
    ensures u < m && events[u].ClaimSelect? && events[u].call == events[m].call
    ensures events[u].key == k && events[u].holder == h
    ensures Expiry(events, m) == events[u].started + events[u].ttl
    ensures var s := SlotsAfter(events, u); k in s ==> s[k].expires <= events[u].now || s[k].holder == h
  {
    u := PendingWasSelected(events, m, events[m].call);
  }

  /** A lease is removed only by a call that found it released by its holder, or found it expired. */
  lemma RemovalWasDecided(events: seq<SlotEvent>, m: nat, k: Key) returns (u: nat)
    requires WritesTo(events, m, k) && k !in SlotsAfter(events, m + 1)
    ensures u < m && events[u].call == events[m].call && !events[u].Write? && events[u].key == k
    ensures var s := SlotsAfter(events, u);
      k in s && if events[u].ReleaseSelect? then s[k].holder == events[u].holder
                else events[u].AskSelect? && s[k].expires <= events[u].now
  {
    u := PendingWasSelected(events, m, events[m].call);
  }

  /** Every holder whose last grant is still good has it recorded. */
  ghost predicate AllStand(events: seq<SlotEvent>) {
    forall m, n, k, h :: LastTold(events, m, n, k, h) && Expiry(events, m) > events[n - 1].now ==>
      k in SlotsAfter(events, n) && SlotsAfter(events, n)[k] == Lease(h, Expiry(events, m))
  }

  /** Over a whole run all good leases stand at every moment, if and only if no write clobbers one. */
  lemma AllStandIffNoneClobbered(events: seq<SlotEvent>)
    requires Timed(events)
    ensures AllStand(events) <==> forall n: nat, k :: !Clobbers(events, n, k)
  {
    if forall n: nat, k :: !Clobbers(events, n, k) {
      forall m, n, k, h | LastTold(events, m, n, k, h) && Expiry(events, m) > events[n - 1].now
        ensures k in SlotsAfter(events, n) && SlotsAfter(events, n)[k] == Lease(h, Expiry(events, m))
      {
        LeaseStands(events, m, n, k, h);
      }
    }
    if n: nat, k :| Clobbers(events, n, k) {
      var m, h := ClobberedHolder(events, n, k);
      assert LastTold(events, m, n + 1, k, h) && Expiry(events, m) > events[n + 1 - 1].now;
    }
  }

  /** The holder of a clobbered lease goes on relying on it. */
  lemma ClobberedHolder(events: seq<SlotEvent>, n: nat, k: Key) returns (m: nat, h: Holder)
    requires Clobbers(events, n, k)
    ensures LastTold(events, m, n + 1, k, h) && Expiry(events, m) > events[n].now
    ensures k in SlotsAfter(events, n + 1) ==> SlotsAfter(events, n + 1)[k].holder != h
  {
    m := RecordedLeaseWasGranted(events, n, k);
    h := SlotsAfter(events, n)[k].holder;
  }

  /** The n-th event is the select that decided what the call is about to write. */
  ghost predicate Selects(events: seq<SlotEvent>, n: nat, c: CallId, w: SlotWrite) {
    n < |events| && !events[n].Write? && events[n].call == c && PlanOf(SlotsAfter(events, n), events[n]) == Some(w)
  }

  lemma {:induction false} PendingWasSelected(events: seq<SlotEvent>, n: nat, c: CallId) returns (u: nat)
    requires n <= |events| && c in After(events, n).pending
    ensures u < n && Selects(events, u, c, After(events, n).pending[c])
    ensures forall i :: u < i <= n ==> c in After(events, i).pending
  {
    u := n - 1;
    if c in After(events, u).pending {
      u := PendingWasSelected(events, u, c);
    }
  }

  /** After the select of a write, a lease that is good and not its caller's was granted since. */
  lemma SelectSawNoGoodLease(s: Slots, e: SlotEvent, w: SlotWrite, now: int)
    requires PlanOf(s, e) == Some(w) && w.key in s && now >= e.now
    ensures s[w.key].expires <= now || Owns(w, s[w.key].holder)
  {
  }

  /** The g-th event grants the slot to a holder the write is not for, and nothing else is written to it before v. */
  ghost predicate GrantedMeanwhile(events: seq<SlotEvent>, u: nat, g: nat, v: nat, k: Key)
    requires WritesAt(events, v)
  {
    && u < g < v && WritesTo(events, g, k) && Written(events, g).PutLease? && Untouched(events, g + 1, v, k)
    && Expiry(events, g) > events[v].now && !Owns(Written(events, v), Written(events, g).lease.holder)
  }

  /**
   In terms of the schedule: a write clobbers a lease if and only if, between the select of its call and the write, the
   last thing written to the slot was a grant to somebody else that is still good. The write of a question is for
   nobody.
   */
  lemma ClobbersIffGrantedMeanwhile(events: seq<SlotEvent>, v: nat, k: Key) returns (u: nat)
    requires Timed(events) && WritesTo(events, v, k)
    ensures u < v && Selects(events, u, events[v].call, Written(events, v))
    ensures Clobbers(events, v, k) <==> exists g :: GrantedMeanwhile(events, u, g, v, k)
  {
    u := PendingWasSelected(events, v, events[v].call);
    if Clobbers(events, v, k) {
      var g := LastTouch(events, u, v, k);
      if Untouched(events, u, v, k) {
        UntouchedStays(events, u, v, k);
        SelectSawNoGoodLease(SlotsAfter(events, u), events[u], Written(events, v), events[v].now);
      } else {
        UntouchedStays(events, g + 1, v, k);
        assert GrantedMeanwhile(events, u, g, v, k);
      }
    }
    if g: nat :| GrantedMeanwhile(events, u, g, v, k) {
      UntouchedStays(events, g + 1, v, k);
    }
  }

  /** Every call writes right after its select. */
  ghost predicate Uninterrupted(events: seq<SlotEvent>) {
    forall n: nat, c, w :: Selects(events, n, c, w) ==>
      n + 1 < |events| && events[n + 1].Write? && events[n + 1].call == c
  }

  lemma SelectedJustBefore(events: seq<SlotEvent>, n: nat) returns (u: nat)
    requires Uninterrupted(events) && WritesAt(events, n)
    ensures n == u + 1 && Selects(events, u, events[n].call, Written(events, n))
  {
    u := PendingWasSelected(events, n, events[n].call);
    WriteEndsCall(events, u + 1);
  }

  /** Then nothing is ever clobbered, and all leases stand. */
  lemma UninterruptedNeverClobbers(events: seq<SlotEvent>)
    requires Timed(events) && Uninterrupted(events)
    ensures AllStand(events)
  {
    forall n: nat, k ensures !Clobbers(events, n, k) {
      if WritesTo(events, n, k) && k in SlotsAfter(events, n) {
        var u := SelectedJustBefore(events, n);
        SelectSawNoGoodLease(SlotsAfter(events, u), events[u], Written(events, n), events[n].now);
      }
    }
    AllStandIffNoneClobbered(events);
  }

  lemma WriteEndsCall(events: seq<SlotEvent>, n: nat)
    requires n < |events| && events[n].Write?
    ensures events[n].call !in After(events, n + 1).pending
  {
  }

  /** As long as nothing is clobbered, at any time at most one holder can take itself for the holder of a slot. */
  lemma AtMostOneHolder(events: seq<SlotEvent>, n: nat, now: int, k: Key, m1: nat, h1: Holder, m2: nat, h2: Holder)
    requires Timed(events) && 0 < n <= |events| && events[n - 1].now <= now
    requires forall i :: 0 <= i < n ==> !Clobbers(events, i, k)
    requires LastTold(events, m1, n, k, h1) && Expiry(events, m1) > now
    requires LastTold(events, m2, n, k, h2) && Expiry(events, m2) > now
    ensures h1 == h2 && m1 == m2
  {
    LeaseStands(events, m1, n, k, h1);
    LeaseStands(events, m2, n, k, h2);
    assert m1 < m2 ==> !GrantsAt(events, m2, k, h1);
    assert m2 < m1 ==> !GrantsAt(events, m1, k, h2);
  }

  /** And a claim that does clobber a lease, with a good one, makes two. */
  lemma ClobberingClaimMakesTwo(events: seq<SlotEvent>, n: nat, k: Key) returns (m: nat, h: Holder)
    requires Clobbers(events, n, k) && Written(events, n).PutLease? && Expiry(events, n) > events[n].now
    ensures LastTold(events, m, n + 1, k, h) && Expiry(events, m) > events[n].now
    ensures LastTold(events, n, n + 1, k, Written(events, n).lease.holder) && Written(events, n).lease.holder != h
  {
    m, h := ClobberedHolder(events, n, k);
  }

  /** A slot goes to another holder only when the last lease has expired or was released, or by clobbering it. */
  lemma GrantNeedsExpiryOrRelease(events: seq<SlotEvent>, m: nat, n: nat, k: Key, h1: Holder, h2: Holder)
    requires Timed(events) && h1 != h2 && LastTold(events, m, n, k, h1) && GrantsAt(events, n, k, h2)
    requires forall i :: m < i <= n ==> !Clobbers(events, i, k)
    ensures Expiry(events, m) <= events[n].now
  {
    if Expiry(events, m) > events[n].now {
      LeaseStands(events, m, n, k, h1);
      assert Clobbers(events, n, k);
    }
  }

  /** As long as nothing is clobbered, the store names a holder exactly when its last grant is still good. */
  lemma HolderAnswersTruly(events: seq<SlotEvent>, n: nat, k: Key, h: Holder, now: int)
    requires Timed(events) && 0 < n <= |events| && events[n - 1].now <= now
    requires forall i :: 0 <= i < n ==> !Clobbers(events, i, k)
    ensures HolderAt(SlotsAfter(events, n), k, now) == Some(h)
      <==> exists m: nat :: LastTold(events, m, n, k, h) && Expiry(events, m) > now
  {
    if HolderAt(SlotsAfter(events, n), k, now) == Some(h) {
      var m := RecordedLeaseWasGranted(events, n, k);
    }
    if m: nat :| LastTold(events, m, n, k, h) && Expiry(events, m) > now {
      LeaseStands(events, m, n, k, h);
    }
  }

  /**
   A holder that selects when its lease has passed to another one cannot release that, even when it has expired, and can
   take it back exactly when it has.
   */
  lemma StaleHolderIsHarmless(events: seq<SlotEvent>, n: nat, k: Key, stale: Holder, ttl: int, started: int, now: int)
    returns (m: nat)
    requires n <= |events| && k in SlotsAfter(events, n) && SlotsAfter(events, n)[k].holder != stale
    ensures LastTold(events, m, n, k, SlotsAfter(events, n)[k].holder)
    ensures ReleasePlan(SlotsAfter(events, n), k, stale) == None
    ensures ClaimPlan(SlotsAfter(events, n), k, stale, ttl, started, now) == None <==> now < Expiry(events, m)
  {
    m := RecordedLeaseWasGranted(events, n, k);
  }

  /** But one that selected before can: a release and a claim overlap, and the new lease is gone. */
  lemma StaleReleaseClobbers(k: Key, a: Holder, b: Holder)
    requires a != b
    ensures exists events :: Timed(events) && |events| == 6 && Clobbers(events, 5, k) && k !in SlotsAfter(events, 6)
  {
    var e0, e1, e2 := ClaimSelect(0, k, a, 1, 0, 0), Write(0, 0), ReleaseSelect(1, k, a, 0);
    var e3, e4, e5 := ClaimSelect(2, k, b, 10, 5, 5), Write(2, 5), Write(1, 5);
    var events := [e0, e1, e2, e3, e4, e5];
    assert After(events, 1) == SlotWorld(map[], map[0 := PutLease(k, Lease(a, 1))]);
    assert After(events, 2) == SlotWorld(map[k := Lease(a, 1)], map[]);
    assert After(events, 3) == SlotWorld(map[k := Lease(a, 1)], map[1 := DropReleased(k, a)]);
    assert After(events, 4).slots == map[k := Lease(a, 1)] && After(events, 4).pending[2] == PutLease(k, Lease(b, 15));
    assert After(events, 5).slots == map[k := Lease(b, 15)] && After(events, 5).pending[1] == DropReleased(k, a);
    assert Clobbers(events, 5, k);
  }

  /** And so do two claims that have both selected before either writes. */
  lemma OverlappingClaimsClobber(k: Key, a: Holder, b: Holder)
    requires a != b
    ensures exists events: seq<SlotEvent> :: Timed(events) && |events| == 4 && Clobbers(events, 3, k)
                             && Written(events, 3).PutLease? && Expiry(events, 3) > events[3].now
  {
    var e0, e1 := ClaimSelect(0, k, a, 10, 0, 0), ClaimSelect(1, k, b, 10, 0, 0);
    var events := [e0, e1, Write(0, 0), Write(1, 0)];
    assert After(events, 1) == SlotWorld(map[], map[0 := PutLease(k, Lease(a, 10))]);
    assert After(events, 2).slots == map[] && After(events, 2).pending[0] == PutLease(k, Lease(a, 10));
    assert After(events, 2).pending[1] == PutLease(k, Lease(b, 10));
    assert After(events, 3).slots == map[k := Lease(a, 10)] && After(events, 3).pending[1] == PutLease(k, Lease(b, 10));
    assert Clobbers(events, 3, k);
  }

  // ---------------------------------------------------------------------------
  // The index by state
  // ---------------------------------------------------------------------------

  datatype TaskEvent = TaskSelect(call: CallId, id: TaskId, row: Row) | TaskCommit(call: CallId)

  datatype TaskWorld = TaskWorld(tables: Tables, pending: map<CallId, TaskWrite>)

  function TaskStep(w: TaskWorld, e: TaskEvent): TaskWorld {
    match e
    case TaskSelect(c, id, row) =>
      if c in w.pending then w else w.(pending := w.pending[c := TaskWrite(id, row, StateOf(w.tables, id))])
    case TaskCommit(c) =>
      if c in w.pending then TaskWorld(Commit(w.tables, w.pending[c]), w.pending - {c}) else w
  }

  function TaskAfter(events: seq<TaskEvent>, n: nat): TaskWorld
    requires n <= |events|
  {
    if n == 0 then TaskWorld(Tables(map[], {}), map[]) else TaskStep(TaskAfter(events, n - 1), events[n - 1])
  }

  ghost predicate CommitsAt(events: seq<TaskEvent>, n: nat) {
    n < |events| && events[n].TaskCommit? && events[n].call in TaskAfter(events, n).pending
  }

  function Committed(events: seq<TaskEvent>, n: nat): TaskWrite
    requires CommitsAt(events, n)
  {
    TaskAfter(events, n).pending[events[n].call]
  }

  /** The index holds exactly the named current states. */
  ghost predicate Agrees(t: Tables) {
    forall state, id :: (state, id) in t.byState <==> state != NoName && StateOf(t, id) == Some(state)
  }

  /** The current state of the task is none, or not a name, or the new one, or the one that was seen. */
  predicate Settled(t: Tables, w: TaskWrite) {
    StateOf(t, w.id) in {None, Some(NoName), Some(w.row.state), w.seen}
  }

  /** A commit keeps the agreement exactly when its task is settled. */
  lemma CommitKeepsAgreementIffSettled(t: Tables, w: TaskWrite)
    requires Agrees(t)
    ensures Agrees(Commit(t, w)) <==> Settled(t, w)
  {
    var t' := Commit(t, w);
    if Settled(t, w) {
      forall state, id ensures (state, id) in t'.byState <==> state != NoName && StateOf(t', id) == Some(state) {
        assert (state, id) in t.byState <==> state != NoName && StateOf(t, id) == Some(state);
      }
    } else {
      assert (t.tasks[w.id].state, w.id) in t.byState;
      assert (t.tasks[w.id].state, w.id) in t'.byState && StateOf(t', w.id) != Some(t.tasks[w.id].state);
    }
  }

  ghost predicate AgreesAt(events: seq<TaskEvent>, n: nat)
    requires n <= |events|
  {
    Agrees(TaskAfter(events, n).tables)
  }

  ghost predicate SettledAt(events: seq<TaskEvent>, n: nat) {
    CommitsAt(events, n) ==> Settled(TaskAfter(events, n).tables, Committed(events, n))
  }

  lemma AgreementStep(events: seq<TaskEvent>, n: nat)
    requires n < |events| && AgreesAt(events, n)
    ensures AgreesAt(events, n + 1) <==> SettledAt(events, n)
  {
    if CommitsAt(events, n) {
      CommitKeepsAgreementIffSettled(TaskAfter(events, n).tables, Committed(events, n));
    }
  }

  lemma {:induction false} AgreesAfterSettled(events: seq<TaskEvent>, n: nat)
    requires n <= |events| && forall i :: 0 <= i < n ==> SettledAt(events, i)
    ensures AgreesAt(events, n)
  {
    if n > 0 {
      AgreesAfterSettled(events, n - 1);
      AgreementStep(events, n - 1);
    }
  }

  /** Over a whole run the index always agrees with the tasks, if and only if every commit finds its task settled. */
  lemma IndexAgreesIffSettled(events: seq<TaskEvent>)
    ensures (forall n :: 0 <= n <= |events| ==> AgreesAt(events, n))
      <==> (forall n :: 0 <= n < |events| ==> SettledAt(events, n))
  {
    if forall n :: 0 <= n < |events| ==> SettledAt(events, n) {
      forall n | 0 <= n <= |events| ensures AgreesAt(events, n) {
        AgreesAfterSettled(events, n);
      }
    }
    if forall n :: 0 <= n <= |events| ==> AgreesAt(events, n) {
      forall n | 0 <= n < |events| ensures SettledAt(events, n) {
        assert AgreesAt(events, n + 1);
        AgreementStep(events, n);
      }
    }
  }

  ghost predicate CommitsTo(events: seq<TaskEvent>, n: nat, id: TaskId) {
    CommitsAt(events, n) && Committed(events, n).id == id
  }

  /** The state a task has at n is what the last commit left, or what it was at m. */
  lemma {:induction false} StateStays(events: seq<TaskEvent>, m: nat, n: nat, id: TaskId)
    requires m <= n <= |events| && forall i :: m <= i < n ==> !CommitsTo(events, i, id)
    ensures StateOf(TaskAfter(events, n).tables, id) == StateOf(TaskAfter(events, m).tables, id)
    decreases n
  {
    if m < n {
      StateStays(events, m, n - 1, id);
      assert !CommitsTo(events, n - 1, id);
    }
  }

  lemma {:induction false} WriteWasSelected(events: seq<TaskEvent>, n: nat, c: CallId) returns (u: nat)
    requires n <= |events| && c in TaskAfter(events, n).pending
    ensures var w := TaskAfter(events, n).pending[c];
      u < n && events[u] == TaskSelect(c, w.id, w.row) && w.seen == StateOf(TaskAfter(events, u).tables, w.id)
    ensures forall i :: u < i <= n ==> c in TaskAfter(events, i).pending
  {
    u := n - 1;
    if c in TaskAfter(events, u).pending {
      u := WriteWasSelected(events, u, c);
    }
  }

  /** In terms of the schedule: a task is unsettled only if another write of it commits between select and commit. */
  lemma UnsettledNeedsCommitBetween(events: seq<TaskEvent>, n: nat) returns (u: nat, i: nat)
    requires CommitsAt(events, n) && !SettledAt(events, n)
    ensures u < i < n && events[u] == TaskSelect(events[n].call, Committed(events, n).id, Committed(events, n).row)
    ensures forall j :: u < j <= n ==> events[n].call in TaskAfter(events, j).pending
    ensures CommitsTo(events, i, Committed(events, n).id)
  {
    var id := Committed(events, n).id;
    u := WriteWasSelected(events, n, events[n].call);
    if forall j :: u <= j < n ==> !CommitsTo(events, j, id) {
      StateStays(events, u, n, id);
    }
    i :| u <= i < n && CommitsTo(events, i, id);
  }

  /** Every task write commits right after its select. */
  ghost predicate UninterruptedTasks(events: seq<TaskEvent>) {
    forall n :: 0 <= n < |events| && events[n].TaskSelect? ==>
      n + 1 < |events| && events[n + 1] == TaskCommit(events[n].call)
  }

  lemma CommitEndsCall(events: seq<TaskEvent>, n: nat)
    requires n < |events| && events[n].TaskCommit?
    ensures events[n].call !in TaskAfter(events, n + 1).pending
  {
  }

  /** Then the index agrees with the tasks at every moment. */
  lemma UninterruptedWritesAgree(events: seq<TaskEvent>, n: nat)
    requires UninterruptedTasks(events) && n <= |events|
    ensures AgreesAt(events, n)
  {
    forall i: nat | i < n ensures SettledAt(events, i) {
      if CommitsAt(events, i) {
        var u := WriteWasSelected(events, i, events[i].call);
        CommitEndsCall(events, u + 1);
        assert i == u + 1;
      }
    }
    AgreesAfterSettled(events, n);
  }

  /** And it happens: two writes see the same state, and the task stays listed under the first one's. */
  lemma OverlappingWritesDisagree(id: TaskId, data: Data)
    ensures exists events :: |events| == 6 && !AgreesAt(events, 6)
  {
    var a, b, c := Row(StateName("a"), data, 0), Row(StateName("b"), data, 1), Row(StateName("c"), data, 2);
    var s0, s1, s2 := TaskSelect(0, id, a), TaskSelect(1, id, b), TaskSelect(2, id, c);
    var events := [s0, TaskCommit(0), s1, s2, TaskCommit(1), TaskCommit(2)];
    assert TaskAfter(events, 1) == TaskWorld(Tables(map[], {}), map[0 := TaskWrite(id, a, None)]);
    assert TaskAfter(events, 2) == TaskWorld(Tables(map[id := a], {(a.state, id)}), map[]);
    assert TaskAfter(events, 3).pending == map[1 := TaskWrite(id, b, Some(a.state))];
    assert TaskAfter(events, 4).pending[2] == TaskWrite(id, c, Some(a.state));
    assert TaskAfter(events, 4).pending[1] == TaskWrite(id, b, Some(a.state));
    assert TaskAfter(events, 5).tables == Tables(map[id := b], {(b.state, id)});
    assert TaskAfter(events, 6).tables == Tables(map[id := c], {(b.state, id), (c.state, id)});
    assert (b.state, id) in TaskAfter(events, 6).tables.byState;
  }

  /** The m-th event is the last commit of its task before n. */
  ghost predicate LastCommit(events: seq<TaskEvent>, m: nat, n: nat, id: TaskId) {
    m < n <= |events| && CommitsTo(events, m, id) && forall i :: m < i < n ==> !CommitsTo(events, i, id)
  }

  /** Each task holds what its last commit said, and only those that were committed are there. */
  lemma {:induction false} LastCommitWins(events: seq<TaskEvent>, n: nat, id: TaskId) returns (m: nat)
    requires n <= |events| && id in TaskAfter(events, n).tables.tasks
    ensures LastCommit(events, m, n, id) && TaskAfter(events, n).tables.tasks[id] == Committed(events, m).row
  {
    m := n - 1;
    if !CommitsTo(events, m, id) {
      m := LastCommitWins(events, m, id);
    }
  }

  lemma OneLastCommit(events: seq<TaskEvent>, i: nat, j: nat, n: nat, id: TaskId)
    requires LastCommit(events, i, n, id) && LastCommit(events, j, n, id)
    ensures i == j
  {
  }

  lemma {:induction false} CommittedIsThere(events: seq<TaskEvent>, m: nat, n: nat, id: TaskId)
    requires m < n <= |events| && CommitsTo(events, m, id)
    ensures id in TaskAfter(events, n).tables.tasks
    decreases n
  {
    if m < n - 1 {
      CommittedIsThere(events, m, n - 1, id);
    }
  }

  /**
   As long as every commit finds its task settled: the list of a state joins the tasks whose last commit named it, and
   no others; the tasks written without a state are listed nowhere.
   */
  lemma ListedIffLastWritten(events: seq<TaskEvent>, n: nat, state: StateName, id: TaskId)
    requires n <= |events| && forall i :: 0 <= i < n ==> SettledAt(events, i)
    ensures id in Joined(TaskAfter(events, n).tables, state)
      <==> state != NoName && exists m: nat :: LastCommit(events, m, n, id) && Committed(events, m).row.state == state
  {
    AgreesAfterSettled(events, n);
    var t := TaskAfter(events, n).tables;
    assert (state, id) in t.byState <==> state != NoName && StateOf(t, id) == Some(state);
    if id in t.tasks {
      var m := LastCommitWins(events, n, id);
      forall i: nat | LastCommit(events, i, n, id) ensures i == m {
        OneLastCommit(events, i, m, n, id);
      }
    }
    if m: nat :| LastCommit(events, m, n, id) {
      CommittedIsThere(events, m, n, id);
    }
  }
}
