/**
 The dependency graph of a pipeline: names mapped to the names they depend on.
 A name that no stage declares is a leaf, as in a dictionary lookup that defaults to the empty list.

 The module gives reachability and cycles by explicit paths, and the layers of a Kahn-style ordering,
 and relates the two: a name is placed in some layer exactly when everything below it is declared and acyclic.
 */
module StageGraph {

  datatype Name = Name(text: string)
  type Graph = map<Name, seq<Name>>

  function Deps(g: Graph, n: Name): seq<Name> {
    if n in g then g[n] else []
  }

  ghost predicate IsPath(g: Graph, p: seq<Name>) {
    |p| >= 1 && forall i :: 0 <= i < |p| - 1 ==> p[i + 1] in Deps(g, p[i])
  }

  /** There is a chain of at least one dependency from `a` to `b`. */
  ghost predicate Reaches(g: Graph, a: Name, b: Name) {
    exists p :: IsPath(g, p) && |p| >= 2 && p[0] == a && p[|p| - 1] == b
  }

  ghost predicate OnCycle(g: Graph, n: Name) {
    Reaches(g, n, n)
  }

  ghost predicate Cyclic(g: Graph) {
    exists n :: OnCycle(g, n)
  }

  /** `n` is on a cycle or has one below it. */
  ghost predicate ReachesCycle(g: Graph, n: Name) {
    exists c :: (c == n || Reaches(g, n, c)) && OnCycle(g, c)
  }

  lemma EdgeReaches(g: Graph, a: Name, b: Name)
    requires b in Deps(g, a)
    ensures Reaches(g, a, b)
  {
    assert IsPath(g, [a, b]);
  }

  lemma ReachesTransitive(g: Graph, a: Name, b: Name, c: Name)
    requires Reaches(g, a, b) && Reaches(g, b, c)
    ensures Reaches(g, a, c)
  {
    var p :| IsPath(g, p) && |p| >= 2 && p[0] == a && p[|p| - 1] == b;
    var q :| IsPath(g, q) && |q| >= 2 && q[0] == b && q[|q| - 1] == c;
    var r := p + q[1..];
    forall i | 0 <= i < |r| - 1
      ensures r[i + 1] in Deps(g, r[i])
    {
      if i >= |p| - 1 {
        assert r[i] == q[i - (|p| - 1)] && r[i + 1] == q[i + 1 - (|p| - 1)];
      }
    }
    assert IsPath(g, r);
  }

  /** A chain starts with one dependency and goes on from there. */
  lemma ReachesFirstStep(g: Graph, a: Name, b: Name) returns (d: Name)
    requires Reaches(g, a, b)
    ensures d in Deps(g, a) && (d == b || Reaches(g, d, b))
  {
    var p :| IsPath(g, p) && |p| >= 2 && p[0] == a && p[|p| - 1] == b;
    d := p[1];
    if |p| > 2 {
      var q := p[1..];
      forall i | 0 <= i < |q| - 1
        ensures q[i + 1] in Deps(g, q[i])
      {
        assert p[i + 2] in Deps(g, p[i + 1]);
      }
      assert IsPath(g, q);
    }
  }

  lemma StepToCycle(g: Graph, a: Name, d: Name)
    requires d in Deps(g, a) && ReachesCycle(g, d)
    ensures ReachesCycle(g, a)
  {
    var c :| (c == d || Reaches(g, d, c)) && OnCycle(g, c);
    EdgeReaches(g, a, d);
    if c != d {
      ReachesTransitive(g, a, d, c);
    }
  }

  /** The graph is cyclic exactly when some declared name reaches a cycle. */
  lemma CyclicIffSomeDeclared(g: Graph)
    ensures Cyclic(g) <==> exists n :: n in g && ReachesCycle(g, n)
  {
    if Cyclic(g) {
      var n :| OnCycle(g, n);
      var d := ReachesFirstStep(g, n, n);
      assert n in g && ReachesCycle(g, n);
    }
  }

  /** Closed under dependencies and free of cycles: what a finished depth-first search leaves behind. */
  ghost predicate Explored(g: Graph, s: set<Name>) {
    && (forall v, d :: v in s && d in Deps(g, v) ==> d in s)
    && (forall v :: v in s ==> !OnCycle(g, v))
  }

  lemma {:induction false} ExploredPathStays(g: Graph, s: set<Name>, p: seq<Name>)
    requires Explored(g, s) && IsPath(g, p) && p[0] in s
    ensures p[|p| - 1] in s
  {
    if |p| > 1 {
      var q := p[..|p| - 1];
      assert IsPath(g, q) by {
        forall i | 0 <= i < |q| - 1 ensures q[i + 1] in Deps(g, q[i]) {
          assert p[i + 1] in Deps(g, p[i]);
        }
      }
      ExploredPathStays(g, s, q);
      assert p[|p| - 2 + 1] in Deps(g, p[|p| - 2]);
    }
  }

  lemma ExploredHasNoCycleBelow(g: Graph, s: set<Name>, n: Name)
    requires Explored(g, s) && n in s
    ensures !ReachesCycle(g, n)
  {
    if ReachesCycle(g, n) {
      var c :| (c == n || Reaches(g, n, c)) && OnCycle(g, c);
      if c != n {
        var p :| IsPath(g, p) && |p| >= 2 && p[0] == n && p[|p| - 1] == c;
        ExploredPathStays(g, s, p);
      }
    }
  }

  /** A name all of whose dependencies are explored can be added, unless it depends on itself. */
  lemma ExploredGrows(g: Graph, s: set<Name>, n: Name)
    requires Explored(g, s) && n !in s
    requires forall d :: d in Deps(g, n) ==> d in s
    ensures Explored(g, s + {n})
  {
    if OnCycle(g, n) {
      var d := ReachesFirstStep(g, n, n);
      var p :| IsPath(g, p) && |p| >= 2 && p[0] == d && p[|p| - 1] == n;
      ExploredPathStays(g, s, p);
    }
  }

  // ---------------------------------------------------------------------------
  // Layers
  // ---------------------------------------------------------------------------

  /** The declared names whose dependencies all lie in `done`. */
  ghost function Settled(g: Graph, done: set<Name>): set<Name> {
    set n | n in g && forall d :: d in g[n] ==> d in done
  }

  /** The names placed by the first `k` rounds of a layering. */
  ghost function Layer(g: Graph, k: nat): set<Name> {
    if k == 0 then {} else Settled(g, Layer(g, k - 1))
  }

  lemma {:induction false} LayerMonotone(g: Graph, k: nat)
    ensures Layer(g, k) <= Layer(g, k + 1) <= g.Keys
  {
    if k > 0 {
      LayerMonotone(g, k - 1);
    }
  }

  lemma {:induction false} LayerMonotoneFar(g: Graph, j: nat, k: nat)
    requires j <= k
    ensures Layer(g, j) <= Layer(g, k)
    decreases k - j
  {
    if j < k {
      LayerMonotone(g, j);
      LayerMonotoneFar(g, j + 1, k);
    }
  }

  lemma {:induction false} LayerFixpoint(g: Graph, j: nat, k: nat)
    requires Layer(g, j) == Layer(g, j + 1) && j <= k
    ensures Layer(g, k) == Layer(g, j)
    decreases k
  {
    if j < k {
      LayerFixpoint(g, j, k - 1);
      assert Layer(g, k) == Settled(g, Layer(g, k - 1));
      assert Layer(g, j + 1) == Settled(g, Layer(g, j));
    }
  }

  ghost predicate AllDeclared(g: Graph, p: seq<Name>) {
    forall x :: x in p ==> x in g
  }

  ghost predicate PathFrom(g: Graph, n: Name, p: seq<Name>) {
    IsPath(g, p) && p[0] == n
  }

  lemma PathTail(g: Graph, p: seq<Name>)
    requires IsPath(g, p) && |p| >= 2
    ensures IsPath(g, p[1..]) && p[1] in Deps(g, p[0])
  {
    forall i | 0 <= i < |p[1..]| - 1 ensures p[1..][i + 1] in Deps(g, p[1..][i]) {
      assert p[i + 1 + 1] in Deps(g, p[i + 1]);
    }
  }

  lemma PathPrepend(g: Graph, n: Name, q: seq<Name>)
    requires IsPath(g, q) && q[0] in Deps(g, n)
    ensures IsPath(g, [n] + q)
  {
    var p := [n] + q;
    forall i | 0 <= i < |p| - 1 ensures p[i + 1] in Deps(g, p[i]) {
      if i > 0 {
        assert q[i - 1 + 1] in Deps(g, q[i - 1]);
      }
    }
  }

  /** A layered name has only short, fully declared chains below it. */
  lemma {:induction false} LayerBoundsChains(g: Graph, k: nat, n: Name, p: seq<Name>)
    requires n in Layer(g, k) && PathFrom(g, n, p)
    ensures |p| <= k && AllDeclared(g, p)
    decreases k
  {
    if |p| >= 2 {
      PathTail(g, p);
      LayerBoundsChains(g, k - 1, p[1], p[1..]);
      assert p == [n] + p[1..];
    }
  }

  /** A declared name missing from the k-th layer has a chain that is too long or leaves the declared names. */
  lemma {:induction false} UnlayeredHasLongChain(g: Graph, k: nat, n: Name) returns (p: seq<Name>)
    requires n !in Layer(g, k)
    ensures PathFrom(g, n, p) && (|p| > k || !AllDeclared(g, p))
    decreases k
  {
    p := [n];
    if k > 0 && n in g {
      var d :| d in g[n] && d !in Layer(g, k - 1);
      var q := UnlayeredHasLongChain(g, k - 1, d);
      PathPrepend(g, n, q);
      p := [n] + q;
      if !AllDeclared(g, q) {
        var x :| x in q && x !in g;
        assert x in p;
      }
    }
  }

  /** Membership in a layer, said without layers: every chain below is declared and has at most k names. */
  lemma LayerIffChainsBounded(g: Graph, k: nat, n: Name)
    ensures n in Layer(g, k) <==> forall p :: PathFrom(g, n, p) ==> |p| <= k && AllDeclared(g, p)
  {
    if n in Layer(g, k) {
      forall p | PathFrom(g, n, p) ensures |p| <= k && AllDeclared(g, p) {
        LayerBoundsChains(g, k, n, p);
      }
    } else {
      var p := UnlayeredHasLongChain(g, k, n);
    }
  }

  /** Everything at or below `n` is declared, and no cycle is there. */
  ghost predicate Grounded(g: Graph, n: Name) {
    forall p :: PathFrom(g, n, p) ==> p[|p| - 1] in g && !OnCycle(g, p[|p| - 1])
  }

  lemma {:induction false} LayeredIsAcyclic(g: Graph, k: nat, n: Name)
    requires n in Layer(g, k)
    ensures !OnCycle(g, n)
    decreases k
  {
    if OnCycle(g, n) {
      var d := ReachesFirstStep(g, n, n);
      EdgeReaches(g, n, d);
      if d != n {
        ReachesTransitive(g, d, n, d);
      }
      LayeredIsAcyclic(g, k - 1, d);
    }
  }

  lemma {:induction false} LayeredPathEnd(g: Graph, k: nat, p: seq<Name>)
    requires IsPath(g, p) && p[0] in Layer(g, k)
    ensures p[|p| - 1] in Layer(g, k)
    decreases |p|
  {
    if |p| >= 2 {
      PathTail(g, p);
      LayerMonotone(g, k - 1);
      LayeredPathEnd(g, k, p[1..]);
    }
  }

  ghost predicate Distinct(p: seq<Name>) {
    forall i, j :: 0 <= i < j < |p| ==> p[i] != p[j]
  }

  lemma {:induction false} DistinctFits(p: seq<Name>, s: set<Name>)
    requires Distinct(p) && forall x :: x in p ==> x in s
    ensures |p| <= |s|
  {
    if p != [] {
      var q := p[..|p| - 1];
      forall x | x in q ensures x in s - {p[|p| - 1]} {
        assert x in p;
      }
      DistinctFits(q, s - {p[|p| - 1]});
    }
  }

  lemma SubPath(g: Graph, p: seq<Name>, i: nat, j: nat)
    requires IsPath(g, p) && i < j <= |p|
    ensures IsPath(g, p[i..j])
  {
    forall m | 0 <= m < |p[i..j]| - 1 ensures p[i..j][m + 1] in Deps(g, p[i..j][m]) {
      assert p[i + m + 1] in Deps(g, p[i + m]);
    }
  }

  lemma GroundedChainFits(g: Graph, n: Name, p: seq<Name>)
    requires Grounded(g, n) && PathFrom(g, n, p)
    ensures AllDeclared(g, p) && |p| <= |g|
  {
    forall i | 0 <= i < |p| ensures p[i] in g && !OnCycle(g, p[i]) {
      SubPath(g, p, 0, i + 1);
      assert PathFrom(g, n, p[0..i + 1]);
    }
    forall i, j | 0 <= i < j < |p| ensures p[i] != p[j] {
      if p[i] == p[j] {
        SubPath(g, p, i, j + 1);
        assert Reaches(g, p[i], p[i]);
      }
    }
    DistinctFits(p, g.Keys);
    assert |g| == |g.Keys|;
  }

  /** The names a layering ever places are exactly those with nothing undeclared and no cycle below them. */
  lemma LayeredIffGrounded(g: Graph, n: Name)
    ensures (exists k :: n in Layer(g, k)) <==> Grounded(g, n)
    ensures Grounded(g, n) <==> n in Layer(g, |g|)
  {
    if k :| n in Layer(g, k) {
      forall p | PathFrom(g, n, p) ensures p[|p| - 1] in g && !OnCycle(g, p[|p| - 1]) {
        LayeredPathEnd(g, k, p);
        LayeredIsAcyclic(g, k, p[|p| - 1]);
        LayerBoundsChains(g, k, p[|p| - 1], [p[|p| - 1]]);
      }
    }
    if Grounded(g, n) {
      forall p | PathFrom(g, n, p) ensures |p| <= |g| && AllDeclared(g, p) {
        GroundedChainFits(g, n, p);
      }
      LayerIffChainsBounded(g, |g|, n);
    }
  }

  /** No undeclared dependency and no cycle: exactly then every declared name is placed. */
  lemma AllLayeredIffSound(g: Graph)
    ensures (forall n :: n in g ==> n in Layer(g, |g|))
       <==> (forall n, d :: n in g && d in g[n] ==> d in g) && !Cyclic(g)
  {
    if forall n :: n in g ==> n in Layer(g, |g|) {
      forall n, d | n in g && d in g[n] ensures d in g {
        assert PathFrom(g, n, [n, d]);
        LayerBoundsChains(g, |g|, n, [n, d]);
        assert d in [n, d];
      }
      if n :| OnCycle(g, n) {
        var d := ReachesFirstStep(g, n, n);
        LayeredIsAcyclic(g, |g|, n);
      }
    }
    if (forall n, d :: n in g && d in g[n] ==> d in g) && !Cyclic(g) {
      forall n | n in g ensures n in Layer(g, |g|) {
        forall p | PathFrom(g, n, p) ensures p[|p| - 1] in g && !OnCycle(g, p[|p| - 1]) {
          if |p| >= 2 {
            assert p[|p| - 2 + 1] in Deps(g, p[|p| - 2]);
          }
        }
        LayeredIffGrounded(g, n);
      }
    }
  }
}
