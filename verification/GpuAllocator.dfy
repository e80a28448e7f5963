/**
 GPU allocation: the inventory and allocation tables, and the scheduler that places tasks on them.
 The operations are serial; the tables are the fields of one object.
 */
module GpuAllocator {

  import opened Wrappers

  datatype Host = Host(name: string)
  type Key = (Host, int)

  datatype Gpu = Gpu(host: Host, index: int, total: nat, free: nat)

  datatype Allocation = Allocation(host: Host, index: int, task: string, vram: int, releasedAt: Option<int>)

  /** The answer of one host to a probe. */
  datatype Probe = Probe(gpus: seq<Gpu>, usable: bool)

  type Inventory = map<Key, Gpu>
  type Ledger = seq<Allocation>

  function KeyOf(g: Gpu): Key {
    (g.host, g.index)
  }

  function AllocKey(a: Allocation): Key {
    (a.host, a.index)
  }

  predicate IsActive(a: Allocation) {
    a.releasedAt.None?
  }

  predicate Unallocated(ledger: Ledger, k: Key) {
    forall i :: 0 <= i < |ledger| && AllocKey(ledger[i]) == k ==> !IsActive(ledger[i])
  }

  function UpperChar(c: char): char {
    if 'a' <= c <= 'z' then c - 'a' + 'A' else c
  }

  function Upper(s: string): string {
    if s == "" then "" else [UpperChar(s[0])] + Upper(s[1..])
  }

  predicate SameLetter(a: char, b: char) {
    a == b || ('a' <= a <= 'z' && b as int == a as int - 32) || ('a' <= b <= 'z' && a as int == b as int - 32)
  }

  lemma UpperCharIff(a: char, b: char)
    ensures UpperChar(a) == UpperChar(b) <==> SameLetter(a, b)
  {
    assert UpperChar(a) as int == if 'a' <= a <= 'z' then a as int - 32 else a as int;
    assert UpperChar(b) as int == if 'a' <= b <= 'z' then b as int - 32 else b as int;
  }

  /** Two names are the same in capitals exactly when each pair of characters is the same or differs in case only. */
  lemma {:induction false} UpperIff(a: string, b: string)
    ensures Upper(a) == Upper(b) <==> |a| == |b| && forall i :: 0 <= i < |a| ==> SameLetter(a[i], b[i])
  {
    if a != "" && b != "" {
      UpperCharIff(a[0], b[0]);
      UpperIff(a[1..], b[1..]);
      assert Upper(a)[0] == UpperChar(a[0]) && Upper(a)[1..] == Upper(a[1..]);
      assert Upper(b)[0] == UpperChar(b[0]) && Upper(b)[1..] == Upper(b[1..]);
    }
  }

  /** What a query for free GPUs may return at all. */
  ghost predicate Offered(inv: Inventory, ledger: Ledger, exclude: set<string>, min: int, g: Gpu) {
    && KeyOf(g) in inv && inv[KeyOf(g)] == g && Unallocated(ledger, KeyOf(g))
    && g.free >= min && Upper(g.host.name) !in exclude
  }

  ghost predicate Distinct(gpus: seq<Gpu>) {
    forall i, j :: 0 <= i < j < |gpus| ==> KeyOf(gpus[i]) != KeyOf(gpus[j])
  }

  ghost predicate Descending(gpus: seq<Gpu>) {
    forall i, j :: 0 <= i < j < |gpus| ==> gpus[i].free >= gpus[j].free
  }

  /** The rows of the query: everything on offer, each once, the most free memory first. */
  ghost predicate IsOffer(inv: Inventory, ledger: Ledger, exclude: set<string>, min: int, gpus: seq<Gpu>) {
    Distinct(gpus) && Descending(gpus) && forall g :: g in gpus <==> Offered(inv, ledger, exclude, min, g)
  }

  function InsertByFree(g: Gpu, gpus: seq<Gpu>): seq<Gpu> {
    if gpus == [] || gpus[0].free < g.free then [g] + gpus else [gpus[0]] + InsertByFree(g, gpus[1..])
  }

  lemma {:induction false} InsertByFreeMembers(g: Gpu, gpus: seq<Gpu>)
    ensures forall x :: x in InsertByFree(g, gpus) <==> x == g || x in gpus
    ensures Descending(gpus) ==> Descending(InsertByFree(g, gpus))
    ensures Distinct(gpus) && (forall x :: x in gpus ==> KeyOf(x) != KeyOf(g)) ==> Distinct(InsertByFree(g, gpus))
  {
    if gpus == [] || gpus[0].free < g.free {
    } else {
      var rest := InsertByFree(g, gpus[1..]);
      InsertByFreeMembers(g, gpus[1..]);
      assert gpus == [gpus[0]] + gpus[1..];
      forall i | 0 <= i < |rest| ensures rest[i] == g || rest[i] in gpus[1..] {
        assert rest[i] in rest;
      }
    }
  }

  function FreeSum(gpus: seq<Gpu>): nat {
    if gpus == [] then 0 else gpus[0].free + FreeSum(gpus[1..])
  }

  lemma {:induction false} FreeSumConcat(a: seq<Gpu>, b: seq<Gpu>)
    ensures FreeSum(a + b) == FreeSum(a) + FreeSum(b)
  {
    if a == [] {
      assert a + b == b;
    } else {
      assert (a + b)[1..] == a[1..] + b;
      FreeSumConcat(a[1..], b);
    }
  }

  /** The free memory of a list is 0 for none, and that of one more is its own on top. */
  lemma FreeSumOfMore(gpus: seq<Gpu>, g: Gpu)
    ensures FreeSum([]) == 0 && FreeSum(gpus + [g]) == FreeSum(gpus) + g.free
  {
    FreeSumConcat(gpus, [g]);
    assert [g][1..] == [];
  }

  /** Distinct GPUs taken from a list have no more memory together than the list. */
  lemma {:induction false} FreeSumOfSome(some: seq<Gpu>, all: seq<Gpu>)
    requires Distinct(some) && forall g :: g in some ==> g in all
    ensures FreeSum(some) <= FreeSum(all) && |some| <= |all|
  {
    if some != [] {
      var g, rest := some[0], some[1..];
      assert g in some;
      var i :| 0 <= i < |all| && all[i] == g;
      var others := all[..i] + all[i + 1..];
      forall x | x in rest ensures x in others {
        var j :| 0 <= j < |rest| && rest[j] == x;
        assert some[j + 1] == x && KeyOf(some[0]) != KeyOf(some[j + 1]);
        assert x in some;
        assert all == all[..i] + [g] + all[i + 1..];
      }
      FreeSumOfSome(rest, others);
      FreeSumConcat(all[..i], all[i + 1..]);
      FreeSumConcat(all[..i], [g] + all[i + 1..]);
      assert all == all[..i] + ([g] + all[i + 1..]);
      assert ([g] + all[i + 1..])[1..] == all[i + 1..];
    }
  }

  // ---------------------------------------------------------------------------
  // The tables
  // ---------------------------------------------------------------------------

  ghost predicate ValidTables(inv: Inventory, ledger: Ledger) {
    && KeyedByGpu(inv)
    && (forall i :: 0 <= i < |ledger| ==> AllocKey(ledger[i]) in inv)
    && (forall i, j :: 0 <= i < j < |ledger| && IsActive(ledger[i]) && IsActive(ledger[j]) ==>
         AllocKey(ledger[i]) != AllocKey(ledger[j]))
  }

  /** The ledger after every active allocation of one GPU has been marked as released. */
  function Released(ledger: Ledger, k: Key, now: int): (r: Ledger)
    ensures |r| == |ledger|
  {
    if ledger == [] then []
    else
      var a := ledger[0];
      [if AllocKey(a) == k && IsActive(a) then a.(releasedAt := Some(now)) else a] + Released(ledger[1..], k, now)
  }

  lemma {:induction false} ReleasedAt(ledger: Ledger, k: Key, now: int, i: nat)
    requires i < |ledger|
    ensures Released(ledger, k, now)[i] ==
      if AllocKey(ledger[i]) == k && IsActive(ledger[i]) then ledger[i].(releasedAt := Some(now)) else ledger[i]
  {
    if i > 0 {
      ReleasedAt(ledger[1..], k, now, i - 1);
    }
  }

  function SaveGpus(inv: Inventory, gpus: seq<Gpu>): Inventory {
    if gpus == [] then inv else SaveGpus(inv, gpus[..|gpus| - 1])[KeyOf(gpus[|gpus| - 1]) := gpus[|gpus| - 1]]
  }

  function SaveProbes(inv: Inventory, probes: seq<Probe>): Inventory {
    if probes == [] then inv
    else
      var before, last := SaveProbes(inv, probes[..|probes| - 1]), probes[|probes| - 1];
      if last.usable then SaveGpus(before, last.gpus) else before
  }

  ghost predicate KeyedByGpu(inv: Inventory) {
    forall k :: k in inv ==> KeyOf(inv[k]) == k
  }

  lemma {:induction false} SaveGpusKeeps(inv: Inventory, gpus: seq<Gpu>)
    requires KeyedByGpu(inv)
    ensures KeyedByGpu(SaveGpus(inv, gpus)) && inv.Keys <= SaveGpus(inv, gpus).Keys
  {
    if gpus != [] {
      SaveGpusKeeps(inv, gpus[..|gpus| - 1]);
    }
  }

  /** A refresh never drops a GPU, so allocations keep pointing into the inventory. */
  lemma {:induction false} SaveProbesKeeps(inv: Inventory, probes: seq<Probe>)
    requires KeyedByGpu(inv)
    ensures KeyedByGpu(SaveProbes(inv, probes)) && inv.Keys <= SaveProbes(inv, probes).Keys
  {
    if probes != [] {
      SaveProbesKeeps(inv, probes[..|probes| - 1]);
      SaveGpusKeeps(SaveProbes(inv, probes[..|probes| - 1]), probes[|probes| - 1].gpus);
    }
  }

  predicate Reports(gpus: seq<Gpu>, k: Key) {
    exists g :: g in gpus && KeyOf(g) == k
  }

  lemma {:induction false} SavedGpu(inv: Inventory, gpus: seq<Gpu>, k: Key)
    ensures if Reports(gpus, k)
            then k in SaveGpus(inv, gpus) && exists j :: IsLastReport(gpus, k, j) && SaveGpus(inv, gpus)[k] == gpus[j]
            else (k in SaveGpus(inv, gpus) <==> k in inv) && (k in inv ==> SaveGpus(inv, gpus)[k] == inv[k])
  {
    if gpus != [] {
      var rest, last := gpus[..|gpus| - 1], gpus[|gpus| - 1];
      assert gpus == rest + [last];
      if KeyOf(last) == k {
        assert IsLastReport(gpus, k, |gpus| - 1);
      } else {
        SavedGpu(inv, rest, k);
        if Reports(gpus, k) {
          var g :| g in gpus && KeyOf(g) == k;
          assert g in rest;
          var j :| IsLastReport(rest, k, j) && SaveGpus(inv, rest)[k] == rest[j];
          assert IsLastReport(gpus, k, j);
        }
      }
    }
  }

  /** The last GPU of the list with this key is the one at j. */
  predicate IsLastReport(gpus: seq<Gpu>, k: Key, j: int) {
    0 <= j < |gpus| && KeyOf(gpus[j]) == k && forall i :: j < i < |gpus| ==> KeyOf(gpus[i]) != k
  }

  /** The answer at i is the last usable one that reports the GPU. */
  predicate IsLastAnswer(probes: seq<Probe>, k: Key, i: int) {
    && 0 <= i < |probes| && probes[i].usable && Reports(probes[i].gpus, k)
    && forall j :: i < j < |probes| ==> !(probes[j].usable && Reports(probes[j].gpus, k))
  }

  lemma {:induction false} UnreportedIsKept(inv: Inventory, probes: seq<Probe>, k: Key)
    requires forall i :: 0 <= i < |probes| && probes[i].usable ==> !Reports(probes[i].gpus, k)
    ensures k in SaveProbes(inv, probes) <==> k in inv
    ensures k in inv ==> SaveProbes(inv, probes)[k] == inv[k]
  {
    if probes != [] {
      var rest, last := probes[..|probes| - 1], probes[|probes| - 1];
      UnreportedIsKept(inv, rest, k);
      SavedGpu(SaveProbes(inv, rest), last.gpus, k);
    }
  }

  /**
   After a refresh the inventory has of every GPU what the last usable answer that reports it said at last, and of a GPU
   that no usable answer reports what it had (UnreportedIsKept).
   */
  lemma {:induction false} SavedIsLastReported(inv: Inventory, probes: seq<Probe>, k: Key, i: nat, j: nat)
    requires IsLastAnswer(probes, k, i) && IsLastReport(probes[i].gpus, k, j)
    ensures k in SaveProbes(inv, probes) && SaveProbes(inv, probes)[k] == probes[i].gpus[j]
  {
    var rest, last := probes[..|probes| - 1], probes[|probes| - 1];
    SavedGpu(SaveProbes(inv, rest), last.gpus, k);
    if i < |rest| {
      assert IsLastAnswer(rest, k, i) && !(last.usable && Reports(last.gpus, k));
      SavedIsLastReported(inv, rest, k, i, j);
    }
  }

  /** A release frees that GPU and changes no other. */
  lemma ReleasedFrees(inv: Inventory, ledger: Ledger, k: Key, now: int)
    requires ValidTables(inv, ledger)
    ensures ValidTables(inv, Released(ledger, k, now))
    ensures forall x :: Unallocated(Released(ledger, k, now), x) <==> x == k || Unallocated(ledger, x)
  {
    var after := Released(ledger, k, now);
    forall i | 0 <= i < |ledger|
      ensures AllocKey(after[i]) == AllocKey(ledger[i])
      ensures IsActive(after[i]) <==> IsActive(ledger[i]) && AllocKey(ledger[i]) != k
    {
      ReleasedAt(ledger, k, now, i);
    }
  }

  class Store {
    var inventory: Inventory
    var ledger: Ledger

    ghost predicate Valid()
      reads this
    {
      ValidTables(inventory, ledger)
    }

    constructor ()
      ensures Valid() && inventory == map[] && ledger == []
    {
      inventory, ledger := map[], [];
    }

    /** Insert or replace the GPUs of every usable answer; nothing is ever removed from the inventory. */
    method SaveInventory(probes: seq<Probe>)
      requires Valid()
      modifies this
      ensures Valid() && ledger == old(ledger) && old(inventory).Keys <= inventory.Keys
      ensures inventory == SaveProbes(old(inventory), probes)
    {
      ghost var before := inventory;
      for i := 0 to |probes|
        invariant ledger == old(ledger) && inventory == SaveProbes(before, probes[..i])
      {
        assert probes[..i + 1][..i] == probes[..i];
        if probes[i].usable {
          ghost var saved := inventory;
          var gpus := probes[i].gpus;
          for j := 0 to |gpus|
            invariant ledger == old(ledger) && inventory == SaveGpus(saved, gpus[..j])
          {
            assert gpus[..j + 1][..j] == gpus[..j];
            inventory := inventory[KeyOf(gpus[j]) := gpus[j]];
          }
          assert gpus[..|gpus|] == gpus;
        }
      }
      assert probes[..|probes|] == probes;
      SaveProbesKeeps(before, probes);
    }

    method GetAvailable(min: int, exclude: set<string>) returns (gpus: seq<Gpu>)
      requires Valid()
      ensures IsOffer(inventory, ledger, exclude, min, gpus)
    {
      gpus := [];
      var rest := inventory.Keys;
      while rest != {}
        invariant rest <= inventory.Keys
        invariant Distinct(gpus) && Descending(gpus)
        invariant forall g :: g in gpus <==> KeyOf(g) !in rest && Offered(inventory, ledger, exclude, min, g)
      {
        var k :| k in rest;
        rest := rest - {k};
        var g := inventory[k];
        if Unallocated(ledger, k) && g.free >= min && Upper(g.host.name) !in exclude {
          InsertByFreeMembers(g, gpus);
          gpus := InsertByFree(g, gpus);
        }
      }
    }

    method Allocate(host: Host, index: int, task: string, vram: int) returns (ok: bool)
      requires Valid()
      modifies this
      ensures inventory == old(inventory) && ((host, index) in inventory ==> Valid())
      ensures ok <==> Unallocated(old(ledger), (host, index))
      ensures ledger == if ok then old(ledger) + [Allocation(host, index, task, vram, None)] else old(ledger)
    {
      ok := Unallocated(ledger, (host, index));
      if ok {
        ledger := ledger + [Allocation(host, index, task, vram, None)];
      }
    }

    method Release(host: Host, index: int, now: int)
      requires Valid()
      modifies this
      ensures Valid() && inventory == old(inventory) && ledger == Released(old(ledger), (host, index), now)
      ensures forall k :: Unallocated(ledger, k) <==> k == (host, index) || Unallocated(old(ledger), k)
    {
      ReleasedFrees(inventory, ledger, (host, index), now);
      ledger := Released(ledger, (host, index), now);
    }

    /** The counts of the status report: all GPUs, active allocations, and their difference. */
    method Status() returns (total: nat, taken: nat, available: int)
      requires Valid()
      ensures total == |inventory| && taken == CountActive(ledger) && available == total - taken
      ensures available >= 0
      ensures forall gpus :: IsOffer(inventory, ledger, {}, 0, gpus) ==> available == |gpus|
    {
      total := |inventory|;
      taken := CountActive(ledger);
      available := total - taken;
      StatusCounts(inventory, ledger);
    }
  }

  function CountActive(ledger: Ledger): nat {
    if ledger == [] then 0
    else CountActive(ledger[..|ledger| - 1]) + if IsActive(ledger[|ledger| - 1]) then 1 else 0
  }

  ghost function ActiveKeys(ledger: Ledger): set<Key> {
    set i | 0 <= i < |ledger| && IsActive(ledger[i]) :: AllocKey(ledger[i])
  }

  lemma ActiveKeysOfMore(rest: Ledger, last: Allocation)
    ensures ActiveKeys(rest + [last]) == ActiveKeys(rest) + if IsActive(last) then {AllocKey(last)} else {}
  {
    var ledger := rest + [last];
    forall k ensures k in ActiveKeys(ledger) <==> k in ActiveKeys(rest) || (IsActive(last) && k == AllocKey(last)) {
      if i :| 0 <= i < |rest| && IsActive(rest[i]) && k == AllocKey(rest[i]) {
        assert ledger[i] == rest[i];
      }
      assert ledger[|rest|] == last;
    }
  }

  lemma {:induction false} CountActiveKeys(inv: Inventory, ledger: Ledger)
    requires ValidTables(inv, ledger)
    ensures CountActive(ledger) == |ActiveKeys(ledger)|
  {
    if ledger != [] {
      var rest, last := ledger[..|ledger| - 1], ledger[|ledger| - 1];
      CountActiveKeys(inv, rest);
      assert ledger == rest + [last];
      ActiveKeysOfMore(rest, last);
      assert IsActive(last) ==> AllocKey(last) !in ActiveKeys(rest);
    }
  }

  lemma {:induction false} DistinctKeysCount(gpus: seq<Gpu>)
    requires Distinct(gpus)
    ensures |set g | g in gpus :: KeyOf(g)| == |gpus|
  {
    if gpus != [] {
      var rest, last := gpus[..|gpus| - 1], gpus[|gpus| - 1];
      DistinctKeysCount(rest);
      assert gpus == rest + [last];
      assert (set g | g in gpus :: KeyOf(g)) == (set g | g in rest :: KeyOf(g)) + {KeyOf(last)};
    }
  }

  /** The reported number of available GPUs is the number a query without limits would list. */
  lemma StatusCounts(inv: Inventory, ledger: Ledger)
    requires ValidTables(inv, ledger)
    ensures CountActive(ledger) <= |inv|
    ensures forall gpus :: IsOffer(inv, ledger, {}, 0, gpus) ==> |inv| - CountActive(ledger) == |gpus|
  {
    CountActiveKeys(inv, ledger);
    var active := ActiveKeys(ledger);
    assert active <= inv.Keys;
    assert |inv| == |inv.Keys| == |active| + |inv.Keys - active|;
    forall gpus | IsOffer(inv, ledger, {}, 0, gpus) ensures |inv.Keys - active| == |gpus| {
      DistinctKeysCount(gpus);
      forall k ensures k in inv.Keys - active <==> k in set g | g in gpus :: KeyOf(g) {
        if k in inv.Keys - active {
          assert Offered(inv, ledger, {}, 0, inv[k]);
        }
      }
      assert inv.Keys - active == set g | g in gpus :: KeyOf(g);
    }
  }

  // ---------------------------------------------------------------------------
  // The scheduler
  // ---------------------------------------------------------------------------

  const MODEL_VRAM: map<string, int> := map[
    "qwen3:8b" := 6000, "qwen3:14b" := 10000, "qwen3:32b" := 20000, "devstral:latest" := 14000,
    "deepseek-r1:32b" := 20000, "llama3.3:70b" := 42000, "project-a-14b" := 10000, "nomic-embed-text" := 1000]

  const DEFAULT_VRAM := 8000
  const MULTI_GPU_ABOVE := 16000

  /** The memory to ask for: as given, else by model, else the default. It is always positive. */
  function Need(model: string, required: int): (need: int)
    ensures need > 0
    ensures required > 0 ==> need == required
    ensures required <= 0 && model in MODEL_VRAM ==> need == MODEL_VRAM[model]
    ensures required <= 0 && model !in MODEL_VRAM ==> need == 8000
  {
    if required > 0 then required
    else if model in MODEL_VRAM then MODEL_VRAM[model]
    else DEFAULT_VRAM
  }

  datatype Result = Scheduled(host: Host, indices: seq<int>, vram: int) | NotScheduled

  /** Some GPU on offer is large enough on its own. */
  ghost predicate SomeFits(inv: Inventory, ledger: Ledger, exclude: set<string>, need: int) {
    exists g :: Offered(inv, ledger, exclude, need, g)
  }

  /** Two or more GPUs on offer on one host are large enough together. */
  ghost predicate SomeShare(inv: Inventory, ledger: Ledger, exclude: set<string>, need: int) {
    exists h, gpus :: OnHost(inv, ledger, exclude, h, gpus) && |gpus| >= 2 && FreeSum(gpus) >= need
  }

  ghost predicate OnHost(inv: Inventory, ledger: Ledger, exclude: set<string>, h: Host, gpus: seq<Gpu>) {
    Distinct(gpus) && forall g :: g in gpus ==> g.host == h && Offered(inv, ledger, exclude, 0, g)
  }

  ghost predicate CanServe(inv: Inventory, ledger: Ledger, exclude: set<string>, need: int) {
    SomeFits(inv, ledger, exclude, need) || (need > 16000 && SomeShare(inv, ledger, exclude, need))
  }

  function Indices(gpus: seq<Gpu>): (r: seq<int>)
    ensures |r| == |gpus| && forall i :: 0 <= i < |gpus| ==> r[i] == gpus[i].index
  {
    if gpus == [] then [] else Indices(gpus[..|gpus| - 1]) + [gpus[|gpus| - 1].index]
  }

  function NewAllocations(host: Host, indices: seq<int>, task: string, each: int): (r: Ledger)
    ensures |r| == |indices|
    ensures forall i :: 0 <= i < |indices| ==> r[i] == Allocation(host, indices[i], task, each, None)
  {
    if indices == [] then []
    else
      NewAllocations(host, indices[..|indices| - 1], task, each)
      + [Allocation(host, indices[|indices| - 1], task, each, None)]
  }

  /**
   The ledger has grown by one active allocation per index, each of an equal share of the need, and all on different
   GPUs that were free and not excluded.
   */
  ghost predicate Grants(inv: Inventory, exclude: set<string>, before: Ledger, after: Ledger,
    task: string, r: Result, need: int)
    requires r.Scheduled?
  {
    && |r.indices| >= 1
    && after == before + NewAllocations(r.host, r.indices, task, need / |r.indices|)
    && Upper(r.host.name) !in exclude
    && (forall i :: 0 <= i < |r.indices| ==>
         (r.host, r.indices[i]) in inv && Unallocated(before, (r.host, r.indices[i])))
    && (forall i, j :: 0 <= i < j < |r.indices| ==> r.indices[i] != r.indices[j])
  }

  /** A single GPU: the tightest fit, or if the preferred host has one that fits, the roomiest on that host. */
  ghost predicate SingleChoice(inv: Inventory, ledger: Ledger, exclude: set<string>,
    prefer: string, r: Result, need: int)
    requires r.Scheduled? && |r.indices| == 1 && (r.host, r.indices[0]) in inv
  {
    var g := inv[(r.host, r.indices[0])];
    && g.free >= need && r.vram == need
    && if prefer != "" && exists x :: Offered(inv, ledger, exclude, need, x) && Upper(x.host.name) == Upper(prefer)
       then Upper(r.host.name) == Upper(prefer)
            && forall x :: Offered(inv, ledger, exclude, need, x) && Upper(x.host.name) == Upper(prefer) ==>
              x.free <= g.free
       else forall x :: Offered(inv, ledger, exclude, need, x) ==> g.free <= x.free
  }

  /** Several GPUs: everything the host has on offer, together large enough, and only when no single one is. */
  ghost predicate SharedChoice(inv: Inventory, ledger: Ledger, exclude: set<string>, r: Result, need: int)
    requires r.Scheduled?
  {
    && need > 16000 && !SomeFits(inv, ledger, exclude, need) && r.vram >= need
    && TakesHost(inv, ledger, exclude, r) && TakesFirst(inv, ledger, exclude, r, need)
  }

  /** The host is the first one, in the order of some answer of the query, that is large enough; it is taken whole. */
  ghost predicate TakesFirst(inv: Inventory, ledger: Ledger, exclude: set<string>, r: Result, need: int)
    requires r.Scheduled?
  {
    exists all :: IsOffer(inv, ledger, exclude, 0, all) && IsTaken(all, r, need)
  }

  ghost predicate IsTaken(all: seq<Gpu>, r: Result, need: int)
    requires r.Scheduled?
  {
    && LargeEnough(OfHost(all, r.host), need) && IsFirstLarge(all, need, r.host)
    && r.indices == Indices(OfHost(all, r.host)) && r.vram == FreeSum(OfHost(all, r.host))
  }

  ghost predicate TakesHost(inv: Inventory, ledger: Ledger, exclude: set<string>, r: Result)
    requires r.Scheduled?
  {
    forall g :: Offered(inv, ledger, exclude, 0, g) && g.host == r.host ==> g.index in r.indices
  }

  predicate LargeEnough(gpus: seq<Gpu>, need: int) {
    FreeSum(gpus) >= need && |gpus| >= 2
  }

  /** The GPUs of one host, in the order of the list. */
  function OfHost(gpus: seq<Gpu>, h: Host): seq<Gpu> {
    if gpus == [] then []
    else OfHost(gpus[..|gpus| - 1], h) + if gpus[|gpus| - 1].host == h then [gpus[|gpus| - 1]] else []
  }

  lemma {:induction false} OfHostMembers(gpus: seq<Gpu>, h: Host)
    ensures forall g :: g in OfHost(gpus, h) <==> g in gpus && g.host == h
    ensures Distinct(gpus) ==> Distinct(OfHost(gpus, h))
  {
    if gpus != [] {
      var rest, last := gpus[..|gpus| - 1], gpus[|gpus| - 1];
      OfHostMembers(rest, h);
      assert gpus == rest + [last];
      var picked := OfHost(rest, h);
      forall i | 0 <= i < |picked| ensures picked[i] in rest {
        assert picked[i] in picked;
      }
    }
  }

  /** The GPUs of the hosts with the preferred name, in the order of the list. */
  function Preferred(gpus: seq<Gpu>, prefer: string): seq<Gpu> {
    if gpus == [] then []
    else (if Upper(gpus[0].host.name) == Upper(prefer) then [gpus[0]] else []) + Preferred(gpus[1..], prefer)
  }

  lemma {:induction false} PreferredMembers(gpus: seq<Gpu>, prefer: string)
    ensures var p := Preferred(gpus, prefer);
      && (forall g :: g in p <==> g in gpus && Upper(g.host.name) == Upper(prefer))
      && (Descending(gpus) ==> forall g :: g in p ==> g.free <= p[0].free)
  {
    if gpus != [] {
      PreferredMembers(gpus[1..], prefer);
      assert gpus == [gpus[0]] + gpus[1..];
      var p := Preferred(gpus, prefer);
      if Descending(gpus) {
        forall g | g in p ensures g.free <= p[0].free {
          assert g in gpus;
        }
      }
    }
  }

  /** The first GPU with the least free memory. */
  method Tightest(gpus: seq<Gpu>) returns (best: Gpu)
    requires gpus != []
    ensures best in gpus && forall g :: g in gpus ==> best.free <= g.free
    ensures exists k :: IsFirstOf(gpus, best, k)
  {
    best := gpus[0];
    ghost var k := 0;
    for i := 1 to |gpus|
      invariant IsFirstOf(gpus, best, k) && k < i && forall j :: 0 <= j < i ==> best.free <= gpus[j].free
    {
      if gpus[i].free < best.free {
        best, k := gpus[i], i;
      }
    }
  }

  /** All that come before it have more free memory. */
  predicate IsFirstOf(gpus: seq<Gpu>, g: Gpu, k: int) {
    0 <= k < |gpus| && gpus[k] == g && forall j :: 0 <= j < k ==> gpus[j].free > g.free
  }

  /** No host that comes before this one has a large enough offer. */
  ghost predicate IsFirstLarge(gpus: seq<Gpu>, need: int, host: Host) {
    exists i :: 0 <= i < |HostsInOrder(gpus)| && HostsInOrder(gpus)[i] == host
      && forall j :: 0 <= j < i ==> !LargeEnough(OfHost(gpus, HostsInOrder(gpus)[j]), need)
  }

  /** The hosts of the list, each where it first appears. */
  function HostsInOrder(gpus: seq<Gpu>): (hosts: seq<Host>)
    ensures forall h :: h in hosts <==> exists g :: g in gpus && g.host == h
  {
    if gpus == [] then []
    else
      var rest, last := HostsInOrder(gpus[..|gpus| - 1]), gpus[|gpus| - 1];
      assert gpus == gpus[..|gpus| - 1] + [last];
      if last.host in rest then rest else rest + [last.host]
  }

  /** The host has a GPU at p, and the other has none up to there. */
  predicate AppearsAt(gpus: seq<Gpu>, h: Host, other: Host, p: int) {
    0 <= p < |gpus| && gpus[p].host == h && forall q :: 0 <= q <= p ==> gpus[q].host != other
  }

  lemma AppearsBeforeNew(rest: seq<Gpu>, h: Host, other: Host) returns (p: int)
    requires h in HostsInOrder(rest) && other !in HostsInOrder(rest)
    ensures AppearsAt(rest, h, other, p)
  {
    var g :| g in rest && g.host == h;
    p :| 0 <= p < |rest| && rest[p] == g;
    forall q | 0 <= q <= p ensures rest[q].host != other {
      assert rest[q] in rest;
    }
  }

  /** They are listed once, and a host that is listed before another appears before it. */
  lemma {:induction false} HostsAppearInOrder(gpus: seq<Gpu>, i: nat, j: nat) returns (p: int)
    requires i < j < |HostsInOrder(gpus)|
    ensures AppearsAt(gpus, HostsInOrder(gpus)[i], HostsInOrder(gpus)[j], p)
  {
    var rest, last := gpus[..|gpus| - 1], gpus[|gpus| - 1];
    var hosts := HostsInOrder(rest);
    assert hosts[i] in hosts;
    if j < |hosts| {
      p := HostsAppearInOrder(rest, i, j);
    } else {
      p := AppearsBeforeNew(rest, hosts[i], last.host);
    }
  }

  /** The GPUs of one host keep their order. */
  lemma {:induction false} OfHostDescending(gpus: seq<Gpu>, h: Host)
    requires Descending(gpus)
    ensures Descending(OfHost(gpus, h))
  {
    if gpus != [] {
      var rest := gpus[..|gpus| - 1];
      OfHostDescending(rest, h);
      OfHostMembers(rest, h);
      forall i | 0 <= i < |OfHost(rest, h)| ensures OfHost(rest, h)[i].free >= gpus[|gpus| - 1].free {
        assert OfHost(rest, h)[i] in OfHost(rest, h);
      }
    }
  }

  lemma OfHostIsOnHost(inv: Inventory, ledger: Ledger, exclude: set<string>, all: seq<Gpu>, h: Host)
    requires IsOffer(inv, ledger, exclude, 0, all)
    ensures OnHost(inv, ledger, exclude, h, OfHost(all, h))
    ensures forall g :: Offered(inv, ledger, exclude, 0, g) && g.host == h ==> g.index in Indices(OfHost(all, h))
  {
    OfHostMembers(all, h);
    forall g | Offered(inv, ledger, exclude, 0, g) && g.host == h ensures g.index in Indices(OfHost(all, h)) {
      assert g in OfHost(all, h);
      var i :| 0 <= i < |OfHost(all, h)| && OfHost(all, h)[i] == g;
      assert Indices(OfHost(all, h))[i] == g.index;
    }
  }

  /** If no host's whole offer is large enough, no selection of GPUs on one host is. */
  lemma NoHostIsLargeEnough(inv: Inventory, ledger: Ledger, exclude: set<string>, all: seq<Gpu>, need: int)
    requires IsOffer(inv, ledger, exclude, 0, all)
    requires forall h :: h in HostsInOrder(all) ==> !LargeEnough(OfHost(all, h), need)
    ensures !SomeShare(inv, ledger, exclude, need)
  {
    forall h, gpus | OnHost(inv, ledger, exclude, h, gpus) && |gpus| >= 2 ensures FreeSum(gpus) < need {
      OfHostMembers(all, h);
      assert gpus[0] in gpus;
      assert gpus[0] in all;
      FreeSumOfSome(gpus, OfHost(all, h));
    }
  }

  /** So two GPUs on offer on one host that are large enough together can share. */
  lemma TwoCanShare(inv: Inventory, ledger: Ledger, exclude: set<string>, a: Gpu, b: Gpu, need: int)
    requires Offered(inv, ledger, exclude, 0, a) && Offered(inv, ledger, exclude, 0, b)
    requires a.host == b.host && a.index != b.index && a.free + b.free >= need
    ensures SomeShare(inv, ledger, exclude, need)
  {
    FreeSumOfMore([], a);
    FreeSumOfMore([a], b);
    assert [] + [a] == [a];
    assert OnHost(inv, ledger, exclude, a.host, [a] + [b]);
  }

  lemma StillUnallocated(before: Ledger, host: Host, gpus: seq<Gpu>, i: nat, task: string, each: int)
    requires i < |gpus| && Distinct(gpus) && (forall g :: g in gpus ==> g.host == host)
    requires Unallocated(before, (host, gpus[i].index))
    ensures Unallocated(before + NewAllocations(host, Indices(gpus[..i]), task, each), (host, gpus[i].index))
  {
    forall j | 0 <= j < i ensures Indices(gpus[..i])[j] != gpus[i].index {
      assert gpus[j] in gpus && gpus[i] in gpus;
      assert KeyOf(gpus[j]) != KeyOf(gpus[i]);
    }
  }

  ghost predicate AllocatedUpTo(before: Ledger, now: Ledger, host: Host, gpus: seq<Gpu>, i: nat, indices: seq<int>,
                                 task: string, each: int)
  {
    i <= |gpus| && indices == Indices(gpus[..i]) && now == before + NewAllocations(host, indices, task, each)
  }

  lemma NextAllocated(before: Ledger, host: Host, gpus: seq<Gpu>, i: nat, task: string, each: int)
    requires i < |gpus|
    ensures Indices(gpus[..i]) + [gpus[i].index] == Indices(gpus[..i + 1])
    ensures before + NewAllocations(host, Indices(gpus[..i]), task, each)
      + [Allocation(host, gpus[i].index, task, each, None)]
         == before + NewAllocations(host, Indices(gpus[..i + 1]), task, each)
  {
  }

  lemma OnHostAt(inv: Inventory, ledger: Ledger, exclude: set<string>, host: Host, gpus: seq<Gpu>, i: nat)
    requires OnHost(inv, ledger, exclude, host, gpus) && i < |gpus|
    ensures (host, gpus[i].index) in inv && Unallocated(ledger, (host, gpus[i].index)) && Upper(host.name) !in exclude
  {
    assert gpus[i] in gpus;
  }

  /** The allocations of a whole group are a proper grant. */
  lemma AllGranted(inv: Inventory, before: Ledger, exclude: set<string>, host: Host, gpus: seq<Gpu>,
    task: string, each: int, need: int)
    requires OnHost(inv, before, exclude, host, gpus) && |gpus| >= 2 && each == need / |gpus|
    ensures Grants(inv, exclude, before, before + NewAllocations(host, Indices(gpus), task, each), task,
                   Scheduled(host, Indices(gpus), FreeSum(gpus)), need)
  {
    var indices := Indices(gpus);
    forall i | 0 <= i < |indices|
      ensures (host, indices[i]) in inv && Unallocated(before, (host, indices[i])) && Upper(host.name) !in exclude
    {
      OnHostAt(inv, before, exclude, host, gpus, i);
    }
    assert Upper(host.name) !in exclude by { OnHostAt(inv, before, exclude, host, gpus, 0); }
    forall i, j | 0 <= i < j < |indices| ensures indices[i] != indices[j] {
      assert gpus[i] in gpus && gpus[j] in gpus;
      assert KeyOf(gpus[i]) != KeyOf(gpus[j]);
    }
  }

  function RecordedVram(ledger: Ledger): int {
    if ledger == [] then 0 else RecordedVram(ledger[..|ledger| - 1]) + ledger[|ledger| - 1].vram
  }

  lemma {:induction false} EqualShares(host: Host, indices: seq<int>, task: string, each: int)
    ensures RecordedVram(NewAllocations(host, indices, task, each)) == each * |indices|
  {
    if indices != [] {
      var rest := indices[..|indices| - 1];
      EqualShares(host, rest, task, each);
      assert NewAllocations(host, indices, task, each)[..|rest|] == NewAllocations(host, rest, task, each);
      assert each * |rest| + each == each * |indices|;
    }
  }

  /** A grant records no more memory than was asked for, and misses it by less than one unit for each of its GPUs. */
  lemma GrantRecordsNeed(inv: Inventory, exclude: set<string>, before: Ledger, after: Ledger,
    task: string, r: Result, need: int)
    requires r.Scheduled? && need > 0 && Grants(inv, exclude, before, after, task, r, need)
    ensures |before| <= |after| && after[..|before|] == before
    ensures need - |r.indices| < RecordedVram(after[|before|..]) <= need
  {
    var granted := NewAllocations(r.host, r.indices, task, need / |r.indices|);
    EqualShares(r.host, r.indices, task, need / |r.indices|);
    assert after[|before|..] == granted;
  }

  /** And so is the allocation of one GPU on offer. */
  lemma OneGranted(inv: Inventory, before: Ledger, exclude: set<string>, g: Gpu, task: string, need: int)
    requires Offered(inv, before, exclude, need, g)
    ensures Grants(inv, exclude, before, before + [Allocation(g.host, g.index, task, need, None)], task,
                   Scheduled(g.host, [g.index], need), need)
  {
    assert [g.index][..0] == [];
    assert NewAllocations(g.host, [g.index], task, need) == [] + [Allocation(g.host, g.index, task, need, None)];
  }

  class Scheduler {
    const store: Store
    const exclude: set<string>
    const refreshInterval: int
    var lastRefresh: int

    constructor (store: Store, excludeHosts: set<string>, refreshInterval: int)
      ensures this.store == store && lastRefresh == 0
      ensures exclude == set h | h in excludeHosts :: Upper(h)
    {
      this.store := store;
      this.exclude := set h | h in excludeHosts :: Upper(h);
      this.refreshInterval := refreshInterval;
      lastRefresh := 0;
    }

    method RefreshInventory(force: bool, now: int, probes: seq<Probe>)
      requires store.Valid()
      modifies this, store
      ensures store.Valid() && store.ledger == old(store.ledger)
      ensures var due := force || now - old(lastRefresh) >= refreshInterval;
        && store.inventory == (if due then SaveProbes(old(store.inventory), probes) else old(store.inventory))
        && lastRefresh == (if due then now else old(lastRefresh))
    {
      if force || now - lastRefresh >= refreshInterval {
        store.SaveInventory(probes);
        lastRefresh := now;
      }
    }

    /** Allocate one GPU that is on offer. */
    method GrantOne(task: string, g: Gpu, need: int) returns (r: Result)
      requires store.Valid() && need > 0 && Offered(store.inventory, store.ledger, exclude, need, g)
      modifies store
      ensures store.Valid() && store.inventory == old(store.inventory)
      ensures r == Scheduled(g.host, [g.index], need)
      ensures Grants(store.inventory, exclude, old(store.ledger), store.ledger, task, r, need)
    {
      var ok := store.Allocate(g.host, g.index, task, need);
      assert ok;
      r := Scheduled(g.host, [g.index], need);
      OneGranted(store.inventory, old(store.ledger), exclude, g, task, need);
    }

    method Schedule(task: string, model: string, required: int, prefer: string, now: int, probes: seq<Probe>)
      returns (r: Result)
      requires store.Valid()
      modifies this, store
      ensures store.Valid()
      ensures var due := now - old(lastRefresh) >= refreshInterval;
        && store.inventory == (if due then SaveProbes(old(store.inventory), probes) else old(store.inventory))
        && lastRefresh == (if due then now else old(lastRefresh))
      ensures r.Scheduled? <==> CanServe(store.inventory, old(store.ledger), exclude, Need(model, required))
      ensures r.NotScheduled? ==> store.ledger == old(store.ledger)
      ensures r.Scheduled? ==>
        Grants(store.inventory, exclude, old(store.ledger), store.ledger, task, r, Need(model, required))
      ensures r.Scheduled? && |r.indices| == 1 ==>
        SingleChoice(store.inventory, old(store.ledger), exclude, prefer, r, Need(model, required))
      ensures r.Scheduled? && |r.indices| > 1 ==>
        SharedChoice(store.inventory, old(store.ledger), exclude, r, Need(model, required))
    {
      RefreshInventory(false, now, probes);
      var need := Need(model, required);
      var available := store.GetAvailable(need, exclude);
      if prefer != "" {
        var preferred := Preferred(available, prefer);
        PreferredMembers(available, prefer);
        if preferred != [] {
          assert preferred[0] in preferred;
          r := GrantOne(task, preferred[0], need);
          return;
        }
      }
      if available != [] {
        var g := Tightest(available);
        r := GrantOne(task, g, need);
        return;
      }
      r := NotScheduled;
      if need > MULTI_GPU_ABOVE {
        r := TryMultiGpu(task, need);
      }
    }

    method TryMultiGpu(task: string, need: int) returns (r: Result)
      requires store.Valid() && need > 0
      modifies store
      ensures store.Valid() && store.inventory == old(store.inventory)
      ensures r.Scheduled? <==> SomeShare(store.inventory, old(store.ledger), exclude, need)
      ensures r.NotScheduled? ==> store.ledger == old(store.ledger)
      ensures r.Scheduled? ==> |r.indices| >= 2 && r.vram >= need
      ensures r.Scheduled? ==> Grants(store.inventory, exclude, old(store.ledger), store.ledger, task, r, need)
      ensures r.Scheduled? ==> TakesHost(store.inventory, old(store.ledger), exclude, r)
      ensures r.Scheduled? ==> TakesFirst(store.inventory, old(store.ledger), exclude, r, need)
    {
      var all := store.GetAvailable(0, exclude);
      var host := FindHost(all, need);
      if host.None? {
        NoHostIsLargeEnough(store.inventory, store.ledger, exclude, all, need);
        return NotScheduled;
      }
      OfHostIsOnHost(store.inventory, store.ledger, exclude, all, host.value);
      r := GrantAll(task, host.value, OfHost(all, host.value), need);
      assert IsTaken(all, r, need);
    }

    /** The first host whose whole offer is large enough and has at least two GPUs. */
    method FindHost(all: seq<Gpu>, need: int) returns (host: Option<Host>)
      ensures host.Some? ==> LargeEnough(OfHost(all, host.value), need) && IsFirstLarge(all, need, host.value)
      ensures host.None? ==> forall h :: h in HostsInOrder(all) ==> !LargeEnough(OfHost(all, h), need)
    {
      var hosts := HostsInOrder(all);
      for i := 0 to |hosts|
        invariant forall j :: 0 <= j < i ==> !LargeEnough(OfHost(all, hosts[j]), need)
      {
        if LargeEnough(OfHost(all, hosts[i]), need) {
          return Some(hosts[i]);
        }
      }
      return None;
    }

    /** Allocate every one of these GPUs, recording an equal share of the need for each. */
    method GrantAll(task: string, host: Host, gpus: seq<Gpu>, need: int) returns (r: Result)
      requires store.Valid() && need > 0 && |gpus| >= 2
      requires OnHost(store.inventory, store.ledger, exclude, host, gpus)
      modifies store
      ensures store.Valid() && store.inventory == old(store.inventory)
      ensures r == Scheduled(host, Indices(gpus), FreeSum(gpus))
      ensures Grants(store.inventory, exclude, old(store.ledger), store.ledger, task, r, need)
    {
      var each := need / |gpus|;
      var indices: seq<int> := [];
      ghost var before := store.ledger;
      for i := 0 to |gpus|
        invariant store.Valid() && store.inventory == old(store.inventory)
        invariant AllocatedUpTo(before, store.ledger, host, gpus, i, indices, task, each)
      {
        OnHostAt(store.inventory, before, exclude, host, gpus, i);
        StillUnallocated(before, host, gpus, i, task, each);
        var ok := store.Allocate(host, gpus[i].index, task, each);
        if ok {
          indices := indices + [gpus[i].index];
        }
        NextAllocated(before, host, gpus, i, task, each);
      }
      assert gpus[..|gpus|] == gpus;
      r := Scheduled(host, indices, FreeSum(gpus));
      AllGranted(store.inventory, before, exclude, host, gpus, task, each, need);
    }

    method Release(host: Host, indices: seq<int>, now: int)
      requires store.Valid()
      modifies store
      ensures store.Valid() && store.inventory == old(store.inventory)
      ensures |store.ledger| == |old(store.ledger)|
      ensures forall k: Key ::
        Unallocated(store.ledger, k) <==> Unallocated(old(store.ledger), k) || (k.0 == host && k.1 in indices)
    {
      for i := 0 to |indices|
        invariant store.Valid() && store.inventory == old(store.inventory) && |store.ledger| == |old(store.ledger)|
        invariant forall k: Key ::
          Unallocated(store.ledger, k) <==> Unallocated(old(store.ledger), k) || (k.0 == host && k.1 in indices[..i])
      {
        assert indices[..i + 1] == indices[..i] + [indices[i]];
        store.Release(host, indices[i], now);
      }
      assert indices[..|indices|] == indices;
    }

    /** Any serial run of requests: no GPU is ever given out twice, and every allocation stays in the inventory. */
    method Serve(requests: seq<Request>)
      requires store.Valid()
      modifies this, store
      ensures ValidTables(store.inventory, store.ledger) && |old(store.ledger)| <= |store.ledger|
    {
      for i := 0 to |requests|
        invariant store.Valid() && |old(store.ledger)| <= |store.ledger|
      {
        match requests[i]
        case Ask(task, model, required, prefer, now, probes) =>
          var r := Schedule(task, model, required, prefer, now, probes);
        case GiveBack(host, indices, now) => Release(host, indices, now);
        case Refresh(now, probes) => RefreshInventory(true, now, probes);
      }
    }
  }

  datatype Request =
    | Ask(task: string, model: string, required: int, prefer: string, now: int, probes: seq<Probe>)
    | GiveBack(host: Host, indices: seq<int>, now: int)
    | Refresh(now: int, probes: seq<Probe>)
}
