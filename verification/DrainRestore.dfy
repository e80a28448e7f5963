/**
 Draining a keyspace into a checkpoint and restoring it. The keyspace of the server is a map from keys to typed values;
 times to live are not part of it. A scan answers every key it matches at least once and may repeat keys.
 */
module DrainRestore {

  import opened Wrappers
  import opened Ordering

  datatype Result<T> = Ok(value: T) | Err(error: Error)

  datatype Error = GateClosed | LiveTasks | BadStreamId | NoCheckpoint

  datatype Key = Key(text: string)

  datatype Member = Member(text: seq<nat>)

  datatype Scored = Scored(member: Member, score: real)

  // ---------------------------------------------------------------------------
  // Streams
  // ---------------------------------------------------------------------------

  /** Both parts are unsigned numbers of 64 bits. */
  datatype StreamId = StreamId(ms: nat, seqNo: nat)

  const MAX_PART := 0xFFFF_FFFF_FFFF_FFFF

  type Fields = int

  datatype Entry = Entry(id: StreamId, fields: Fields)

  predicate IdLess(a: StreamId, b: StreamId) {
    a.ms < b.ms || (a.ms == b.ms && a.seqNo < b.seqNo)
  }

  predicate IsId(id: StreamId) {
    id.ms <= MAX_PART && id.seqNo <= MAX_PART
  }

  predicate InOrder(entries: seq<Entry>, i: nat, j: nat)
    requires i < |entries| && j < |entries|
  {
    IsId(entries[i].id) && (i < j ==> IdLess(entries[i].id, entries[j].id))
  }

  ghost predicate IsStream(entries: seq<Entry>) {
    forall i, j :: 0 <= i < |entries| && 0 <= j < |entries| ==> InOrder(entries, i, j)
  }

  /** The entries whose id is not before the start. */
  function NotBefore(entries: seq<Entry>, start: StreamId): seq<Entry> {
    if entries == [] then []
    else (if IdLess(entries[0].id, start) then [] else [entries[0]]) + NotBefore(entries[1..], start)
  }

  /** What a range query answers: the first entries not before the start, or an error if the start is no stream id. */
  function Range(entries: seq<Entry>, start: StreamId, count: nat): Result<seq<Entry>> {
    if !IsId(start) then Err(BadStreamId)
    else
      var all := NotBefore(entries, start);
      Ok(if |all| <= count then all else all[..count])
  }

  lemma {:induction false} NotBeforeIsSuffix(entries: seq<Entry>, start: StreamId, m: nat)
    requires m <= |entries|
    requires forall i :: 0 <= i < m ==> IdLess(entries[i].id, start)
    requires forall i :: m <= i < |entries| ==> !IdLess(entries[i].id, start)
    ensures NotBefore(entries, start) == entries[m..]
  {
    if entries != [] {
      var k := if m == 0 then 0 else m - 1;
      NotBeforeIsSuffix(entries[1..], start, k);
      if m == 0 {
        assert entries == [entries[0]] + entries[1..];
      } else {
        assert entries[1..][k..] == entries[m..];
      }
    }
  }

  function Next(id: StreamId): StreamId {
    StreamId(id.ms, id.seqNo + 1)
  }

  /** Reading on after the first m entries answers the following ones. */
  lemma ReadOn(entries: seq<Entry>, m: nat)
    requires IsStream(entries) && 0 < m <= |entries|
    ensures NotBefore(entries, Next(entries[m - 1].id)) == entries[m..]
  {
    var start := Next(entries[m - 1].id);
    forall i | 0 <= i < m ensures IdLess(entries[i].id, start) {
      assert InOrder(entries, i, m - 1);
    }
    forall i | m <= i < |entries| ensures !IdLess(entries[i].id, start) {
      assert InOrder(entries, m - 1, i);
    }
    NotBeforeIsSuffix(entries, start, m);
  }

  /** The number is a multiple of the page size. */
  predicate FullPages(m: nat, page: nat)
    requires page > 0
  {
    m == 0 || (m >= page && FullPages(m - page, page))
  }

  /** After m entries a page is full, and the last id has a second part that cannot be increased. */
  predicate PageEndsAtMax(entries: seq<Entry>, page: nat, m: nat)
    requires page > 0
  {
    0 < m <= |entries| && FullPages(m, page) && entries[m - 1].id.seqNo == MAX_PART
  }

  /** Where the next page starts cannot be said. */
  ghost predicate Unreadable(entries: seq<Entry>, page: nat)
    requires page > 0
  {
    exists m: nat :: PageEndsAtMax(entries, page, m)
  }

  /** Pages are full after a multiple of their size, and not between two multiples. */
  lemma {:induction false} PageEnds(m: nat, page: nat, k: nat)
    requires page > 0 && FullPages(m, page) && m < k <= m + page
    ensures FullPages(k, page) <==> k == m + page
  {
    if m > 0 {
      PageEnds(m - page, page, k - page);
    }
  }

  ghost predicate NoMaxUntil(entries: seq<Entry>, page: nat, n: nat)
    requires page > 0
  {
    forall m: nat :: m <= n ==> !PageEndsAtMax(entries, page, m)
  }

  /** The first n entries have been read in full pages, and the next page starts at the given id, if it is one. */
  ghost predicate ReadSoFar(entries: seq<Entry>, page: nat, n: nat, start: StreamId)
    requires page > 0
  {
    && n <= |entries| && FullPages(n, page)
    && (IsId(start) ==> NoMaxUntil(entries, page, n) && NotBefore(entries, start) == entries[n..])
    && (!IsId(start) ==> PageEndsAtMax(entries, page, n))
  }

  lemma FirstPage(entries: seq<Entry>, page: nat)
    requires page > 0
    ensures ReadSoFar(entries, page, 0, StreamId(0, 0))
  {
    NotBeforeIsSuffix(entries, StreamId(0, 0), 0);
  }

  lemma NextPage(entries: seq<Entry>, page: nat, n: nat, start: StreamId, batch: seq<Entry>)
    requires IsStream(entries) && page > 0 && IsId(start) && ReadSoFar(entries, page, n, start)
    requires Range(entries, start, page) == Ok(batch)
    ensures |batch| <= page && n + |batch| <= |entries| && entries[..n] + batch == entries[..n + |batch|]
    ensures |batch| < page ==> entries[..n] + batch == entries && !Unreadable(entries, page)
    ensures |batch| == page ==> ReadSoFar(entries, page, n + page, Next(batch[page - 1].id))
  {
    forall k: nat | n < k <= n + page ensures FullPages(k, page) <==> k == n + page {
      PageEnds(n, page, k);
    }
    if |batch| == page {
      ReadOn(entries, n + page);
      assert InOrder(entries, n + page - 1, n + page - 1);
    }
  }

  /** The paginated read: the whole stream, unless a full page ends on an id that has no successor. */
  method ReadStream(entries: seq<Entry>, page: nat) returns (r: Result<seq<Entry>>)
    requires IsStream(entries) && page > 0
    ensures r == if Unreadable(entries, page) then Err(BadStreamId) else Ok(entries)
  {
    var read, start := [], StreamId(0, 0);
    ghost var n: nat := 0;
    FirstPage(entries, page);
    while true
      invariant ReadSoFar(entries, page, n, start) && read == entries[..n]
      decreases |entries| - n
    {
      var batch := Range(entries, start, page);
      if batch.Err? {
        return Err(batch.error);
      }
      NextPage(entries, page, n, start, batch.value);
      if batch.value == [] {
        break;
      }
      read := read + batch.value;
      if |batch.value| < page {
        break;
      }
      start := Next(batch.value[page - 1].id);
      n := n + page;
    }
    return Ok(read);
  }

  // ---------------------------------------------------------------------------
  // Values and their snapshots
  // ---------------------------------------------------------------------------

  datatype Value =
    | Text(text: string)
    | Hash(fields: map<string, string>)
    | List(items: seq<string>)
    | Set(members: set<Member>)
    | SortedSet(scores: map<Member, real>)
    | Stream(entries: seq<Entry>)
    | Foreign(typeName: string, content: int)

  type Keyspace = map<Key, Value>

  /** The server keeps no empty collections but streams. */
  ghost predicate IsValue(v: Value) {
    match v
    case Hash(fields) => fields != map[]
    case List(items) => items != []
    case Set(members) => members != {}
    case SortedSet(scores) => scores != map[]
    case Stream(entries) => IsStream(entries)
    case _ => true
  }

  ghost predicate IsKeyspace(db: Keyspace) {
    forall k :: k in db ==> IsValue(db[k])
  }

  datatype Saved =
    | SavedText(text: string)
    | SavedHash(fields: map<string, string>)
    | SavedList(items: seq<string>)
    | SavedSet(members: seq<Member>)
    | SavedSortedSet(scored: seq<Scored>)
    | SavedStream(entries: seq<Entry>)
    | SavedNothing(typeName: string)

  type Checkpoint = map<Key, Saved>

  predicate MemberLess(a: Member, b: Member) {
    Less(a.text, b.text)
  }

  predicate ScoredLess(a: Scored, b: Scored) {
    a.score < b.score || (a.score == b.score && MemberLess(a.member, b.member))
  }

  function Pairs(scores: map<Member, real>): set<Scored> {
    set m | m in scores :: Scored(m, scores[m])
  }

  lemma MemberOrder()
    ensures StrictOrder(MemberLess)
  {
    forall x, y ensures MemberLess(x, y) || MemberLess(y, x) || x == y
      ensures !(MemberLess(x, y) && MemberLess(y, x))
    {
      LessIsTotal(x.text, y.text);
    }
    forall x, y, z | MemberLess(x, y) && MemberLess(y, z) ensures MemberLess(x, z) {
      LessIsTransitive(x.text, y.text, z.text);
    }
  }

  lemma ScoredOrder()
    ensures StrictOrder(ScoredLess)
  {
    MemberOrder();
  }

  /** What a snapshot of the value holds. */
  ghost predicate IsSnapshotOf(v: Value, s: Saved) {
    match v
    case Text(text) => s == SavedText(text)
    case Hash(fields) => s == SavedHash(fields)
    case List(items) => s == SavedList(items)
    case Set(members) => s.SavedSet? && SortedList(MemberLess, members, s.members)
    case SortedSet(scores) => s.SavedSortedSet? && SortedList(ScoredLess, Pairs(scores), s.scored)
    case Stream(entries) => s == SavedStream(entries)
    case Foreign(typeName, _) => s == SavedNothing(typeName)
  }

  /** What is written back from a snapshot, if it is written back at all. */
  function Written(s: Saved): Option<Value> {
    match s
    case SavedText(text) => Some(Text(text))
    case SavedHash(fields) => Some(Hash(fields))
    case SavedList(items) => if items == [] then None else Some(List(items))
    case SavedSet(members) => if members == [] then None else Some(Set(set m | m in members))
    case SavedSortedSet(scored) => if scored == [] then None else Some(SortedSet(AddAll(scored)))
    case SavedStream(_) => None
    case SavedNothing(_) => None
  }

  /** A snapshot without any item is not written back, so its key is gone afterwards. */
  lemma EmptyIsNotWritten(s: Saved)
    requires s == SavedList([]) || s == SavedSet([]) || s == SavedSortedSet([])
    ensures Written(s) == None
  {
  }

  /** The mapping made of the pairs; a later pair of a member replaces an earlier one. */
  function AddAll(scored: seq<Scored>): map<Member, real> {
    if scored == [] then map[]
    else AddAll(scored[..|scored| - 1])[scored[|scored| - 1].member := scored[|scored| - 1].score]
  }

  lemma {:induction false} AddAllOfPairs(scores: map<Member, real>, scored: seq<Scored>)
    requires forall x :: x in scored ==> x in Pairs(scores)
    ensures forall m :: m in AddAll(scored) <==> m in scores && Scored(m, scores[m]) in scored
    ensures forall m :: m in AddAll(scored) ==> AddAll(scored)[m] == scores[m]
  {
    if scored != [] {
      var rest, last := scored[..|scored| - 1], scored[|scored| - 1];
      assert scored == rest + [last];
      assert last in Pairs(scores);
      AddAllOfPairs(scores, rest);
    }
  }

  /** Writing back a snapshot restores the value, for all types but streams and unsupported ones. */
  lemma WrittenIsValue(v: Value, s: Saved)
    requires IsValue(v) && IsSnapshotOf(v, s)
    ensures Written(s) == if v.Stream? || v.Foreign? then None else Some(v)
  {
    match v
    case Set(members) =>
      var m :| m in members;
      assert m in s.members;
      assert members == set m | m in s.members;
    case SortedSet(scores) =>
      var m :| m in scores;
      assert Scored(m, scores[m]) in Pairs(scores);
      AddAllOfPairs(scores, s.scored);
      assert AddAll(s.scored) == scores;
    case _ =>
  }

  // ---------------------------------------------------------------------------
  // Drain and restore
  // ---------------------------------------------------------------------------

  const PAGE := 5000

  const TEST_PREFIX := "dod9:"

  predicate IsTestKey(k: Key) {
    TEST_PREFIX <= k.text
  }

  lemma TestKeysStartSo(rest: string)
    ensures IsTestKey(Key("dod9:" + rest))
  {
  }

  ghost predicate IsCheckpoint(db: Keyspace, cp: Checkpoint) {
    cp.Keys == db.Keys && forall k :: k in db ==> IsSnapshotOf(db[k], cp[k])
  }

  /** Some stream of the keyspace cannot be read page by page. */
  ghost predicate HasUnreadable(db: Keyspace) {
    exists k :: k in db && db[k].Stream? && Unreadable(db[k].entries, PAGE)
  }

  /** What restoring leaves at one key. */
  function AtKey(db: Keyspace, cp: Checkpoint, k: Key): Option<Value> {
    if k in cp && !cp[k].SavedStream? then Written(cp[k])
    else if k in db && (k in cp || !IsTestKey(k)) then Some(db[k])
    else None
  }

  /** The keyspace after restoring. */
  function Restored(db: Keyspace, cp: Checkpoint): Keyspace {
    map k | k in db.Keys + cp.Keys && AtKey(db, cp, k).Some? :: AtKey(db, cp, k).value
  }

  class Harness {
    var db: Keyspace
    var checkpoint: Option<Checkpoint>

    constructor (db: Keyspace)
      ensures this.db == db && checkpoint == None
    {
      this.db, checkpoint := db, None;
    }

    method SerialiseKey(k: Key) returns (r: Result<Saved>)
      requires k in db && IsKeyspace(db)
      ensures r.Ok? <==> !(db[k].Stream? && Unreadable(db[k].entries, PAGE))
      ensures r.Ok? ==> IsSnapshotOf(db[k], r.value)
      ensures r.Err? ==> r.error == BadStreamId
      ensures r.Ok? && r.value.SavedSortedSet? ==> forall i, j :: 0 <= i < j < |r.value.scored| ==>
        r.value.scored[i].score <= r.value.scored[j].score
    {
      assert IsValue(db[k]);
      match db[k] {
        case Text(text) => r := Ok(SavedText(text));
        case Hash(fields) => r := Ok(SavedHash(fields));
        case List(items) => r := Ok(SavedList(items));
        case Set(members) =>
          MemberOrder();
          var list := Sort(MemberLess, members);
          r := Ok(SavedSet(list));
        case SortedSet(scores) =>
          ScoredOrder();
          var scored := Sort(ScoredLess, Pairs(scores));
          r := Ok(SavedSortedSet(scored));
        case Stream(entries) =>
          var read := ReadStream(entries, PAGE);
          r := if read.Ok? then Ok(SavedStream(read.value)) else Err(read.error);
        case Foreign(typeName, _) => r := Ok(SavedNothing(typeName));
      }
    }

    /** Take a checkpoint of the scanned keys, if the gate is open and no live agent holds a claimed task. */
    method Drain(gate: bool, liveTasks: nat, scanned: seq<Key>) returns (r: Result<nat>)
      requires IsKeyspace(db) && forall k :: k in scanned <==> k in db
      modifies this`checkpoint
      ensures r.Ok? <==> gate && liveTasks == 0 && !HasUnreadable(db)
      ensures r.Ok? ==> checkpoint.Some? && IsCheckpoint(db, checkpoint.value) && r.value == |db|
      ensures r.Err? ==> checkpoint == old(checkpoint)
      ensures r.Err? ==> r.error == if !gate then GateClosed else if liveTasks > 0 then LiveTasks else BadStreamId
    {
      if !gate {
        return Err(GateClosed);
      }
      if liveTasks > 0 {
        return Err(LiveTasks);
      }
      var taken: Checkpoint := map[];
      for i := 0 to |scanned|
        invariant checkpoint == old(checkpoint)
        invariant forall k :: k in taken <==> k in scanned[..i]
        invariant forall k :: k in taken ==> k in db && IsSnapshotOf(db[k], taken[k])
        invariant forall k :: k in scanned[..i] ==> !(db[k].Stream? && Unreadable(db[k].entries, PAGE))
      {
        var k := scanned[i];
        assert k in scanned;
        var saved := SerialiseKey(k);
        if saved.Err? {
          return Err(saved.error);
        }
        taken := taken[k := saved.value];
        assert scanned[..i + 1] == scanned[..i] + [k];
      }
      assert scanned[..|scanned|] == scanned;
      assert taken.Keys == db.Keys;
      checkpoint := Some(taken);
      assert |taken.Keys| == |db.Keys|;
      return Ok(|taken|);
    }

    method RestoreKey(k: Key, saved: Saved)
      modifies this`db
      ensures db == if saved.SavedStream? then old(db)
                    else if Written(saved).Some? then old(db)[k := Written(saved).value] else old(db) - {k}
    {
      if saved.SavedStream? {
        return;
      }
      db := db - {k};
      if Written(saved).Some? {
        db := db[k := Written(saved).value];
      }
    }

    /** Delete the test keys that are not in the checkpoint. */
    method DeleteOrphans(cp: Checkpoint, scanned: seq<Key>)
      requires forall k :: k in scanned <==> k in db && IsTestKey(k)
      modifies this`db
      ensures db == map k | k in old(db) && (k in cp || !IsTestKey(k)) :: old(db)[k]
    {
      for i := 0 to |scanned|
        invariant db == map k | k in old(db) && (k in cp || k !in scanned[..i]) :: old(db)[k]
      {
        assert scanned[..i + 1] == scanned[..i] + [scanned[i]];
        if scanned[i] !in cp {
          db := db - {scanned[i]};
        }
      }
      assert scanned[..|scanned|] == scanned;
    }

    /** Write back the checkpoint; the answer is the number of keys written back. */
    method Restore(gate: bool, scanned: seq<Key>) returns (r: Result<nat>)
      requires forall k :: k in scanned <==> k in db && IsTestKey(k)
      modifies this`db
      ensures r.Ok? <==> gate && checkpoint.Some?
      ensures r.Ok? ==> db == Restored(old(db), checkpoint.value)
      ensures r.Ok? ==> r.value == |Replaced(checkpoint.value)|
      ensures r.Err? ==> db == old(db) && r.error == if gate then NoCheckpoint else GateClosed
    {
      if !gate {
        return Err(GateClosed);
      }
      if checkpoint.None? {
        return Err(NoCheckpoint);
      }
      var cp := checkpoint.value;
      DeleteOrphans(cp, scanned);
      ghost var cleaned := db;
      var restored := WriteBack(cp);
      forall k ensures Lookup(db, k) == Lookup(Restored(old(db), cp), k) {
        assert Lookup(cleaned, k) == if k in cp || !IsTestKey(k) then Lookup(old(db), k) else None;
      }
      SameKeyspace(db, Restored(old(db), cp));
      return Ok(restored);
    }

    method WriteBack(cp: Checkpoint) returns (restored: nat)
      modifies this`db
      ensures forall k :: Lookup(db, k) == if k in cp && !cp[k].SavedStream? then Written(cp[k]) else Lookup(old(db), k)
      ensures restored == |Replaced(cp)|
    {
      var left := cp.Keys;
      ghost var done: set<Key> := {};
      restored := 0;
      while left != {}
        invariant left <= cp.Keys && restored == |done| && done == Replaced(cp) - left
        invariant forall k :: Lookup(db, k) == if k in done then Written(cp[k]) else Lookup(old(db), k)
        decreases |left|
      {
        var k :| k in left;
        left := left - {k};
        if !cp[k].SavedStream? {
          RestoreKey(k, cp[k]);
          done := done + {k};
          restored := restored + 1;
        }
      }
    }
  }

  /** The keys that a checkpoint replaces. */
  function Replaced(cp: Checkpoint): set<Key> {
    set k | k in cp && !cp[k].SavedStream?
  }

  function Lookup(db: Keyspace, k: Key): Option<Value> {
    if k in db then Some(db[k]) else None
  }

  lemma SameKeyspace(a: Keyspace, b: Keyspace)
    requires forall k :: Lookup(a, k) == Lookup(b, k)
    ensures a == b
  {
    forall k ensures k in a <==> k in b {
      assert Lookup(a, k) == Lookup(b, k);
    }
    forall k | k in a ensures a[k] == b[k] {
      assert Lookup(a, k) == Lookup(b, k);
    }
  }

  // ---------------------------------------------------------------------------
  // What restoring gives back
  // ---------------------------------------------------------------------------

  /**
   What happened to one key since the drain can be undone: it was drained and its type can be written back, or it is a
   stream that has not changed, or it was not drained and is a test key or absent.
   */
  predicate Undoable(drained: Keyspace, db: Keyspace, k: Key) {
    if k !in drained then k in db ==> IsTestKey(k)
    else if drained[k].Stream? then Lookup(db, k) == Some(drained[k])
    else !drained[k].Foreign?
  }

  /** Whatever happened since the drain, the drained keyspace comes back exactly if all of it can be undone. */
  lemma RestoreGivesBackIff(drained: Keyspace, cp: Checkpoint, db: Keyspace)
    requires IsKeyspace(drained) && IsCheckpoint(drained, cp)
    ensures Restored(db, cp) == drained <==> forall k :: Undoable(drained, db, k)
  {
    forall k ensures Lookup(Restored(db, cp), k) == Lookup(drained, k) <==> Undoable(drained, db, k) {
      if k in drained {
        assert IsValue(drained[k]);
        WrittenIsValue(drained[k], cp[k]);
      }
    }
    if forall k :: Undoable(drained, db, k) {
      SameKeyspace(Restored(db, cp), drained);
    }
    if Restored(db, cp) == drained {
      forall k ensures Undoable(drained, db, k) {
        assert Lookup(Restored(db, cp), k) == Lookup(drained, k);
      }
    }
  }

  /** Restoring twice is restoring once, for any checkpoint and any keyspace. */
  lemma RestoreIsIdempotent(db: Keyspace, cp: Checkpoint)
    ensures Restored(Restored(db, cp), cp) == Restored(db, cp)
  {
    var once := Restored(db, cp);
    forall k ensures Lookup(Restored(once, cp), k) == Lookup(once, k) {
    }
    SameKeyspace(Restored(once, cp), once);
  }

  // ---------------------------------------------------------------------------
  // The checksum
  // ---------------------------------------------------------------------------

  /** A snapshot tells the values apart, but for those of an unsupported type. */
  predicate Alike(a: Value, b: Value) {
    if a.Foreign? then b.Foreign? && a.typeName == b.typeName else a == b
  }

  lemma SnapshotsAreAlike(a: Value, s: Saved, b: Value, t: Saved)
    requires IsValue(a) && IsValue(b) && IsSnapshotOf(a, s) && IsSnapshotOf(b, t)
    ensures s == t <==> Alike(a, b)
  {
    MemberOrder();
    ScoredOrder();
    WrittenIsValue(a, s);
    WrittenIsValue(b, t);
    if a.Set? && a == b {
      SortedListIsUnique(MemberLess, a.members, s.members, t.members);
    }
    if a.SortedSet? && a == b {
      SortedListIsUnique(ScoredLess, Pairs(a.scores), s.scored, t.scored);
    }
  }

  /**
   What the checksum is computed from determines the keyspace, and is determined by it: it is the same for two keyspaces
   exactly when they have the same keys and values, but for the contents of unsupported types.
   */
  lemma PayloadsEqualIff(a: Keyspace, p: Checkpoint, b: Keyspace, q: Checkpoint)
    requires IsKeyspace(a) && IsKeyspace(b) && IsCheckpoint(a, p) && IsCheckpoint(b, q)
    ensures p == q <==> a.Keys == b.Keys && forall k :: k in a ==> Alike(a[k], b[k])
  {
    assert p == q ==> a.Keys == b.Keys;
    forall k | k in a && k in b ensures p[k] == q[k] <==> Alike(a[k], b[k]) {
      SnapshotsAreAlike(a[k], p[k], b[k], q[k]);
    }
  }
}
