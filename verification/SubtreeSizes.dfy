/** The bucket sizes of all trees of the recursive variant, and where they put the buckets once the
    strings stand in the order of their routes. */
module SubtreeSizes {
  import opened Strings
  import opened Permute
  import opened Subtrees
  import opened SubtreePermute

  // ---- the strings that come through a tree -----------------------------------------------------------

  /** In their order. */
  ghost function Via(trees: seq<Tree>, q: seq<Str>, u: nat): seq<Str> {
    if q == [] then []
    else Via(trees, q[..|q| - 1], u) + (if Passes(trees, 0, q[|q| - 1], u) then [q[|q| - 1]] else [])
  }

  lemma {:induction false} ViaPaired(trees: seq<Tree>, q: seq<Str>, u: nat)
    requires u < |trees|
    ensures Paired(CacheVia(trees, q, 0, u), Via(trees, q, u), trees[u].bkt)
  {
    hide Passes;
    if q != [] { ViaPaired(trees, q[..|q| - 1], u); }
  }

  lemma {:induction false} ViaRoot(trees: seq<Tree>, q: seq<Str>)
    ensures Via(trees, q, 0) == q
  {
    if q != [] {
      ViaRoot(trees, q[..|q| - 1]);
      assert q[..|q| - 1] + [q[|q| - 1]] == q;
    }
  }

  lemma {:induction false} ViaIn(trees: seq<Tree>, q: seq<Str>, u: nat)
    ensures forall s :: s in Via(trees, q, u) ==> s in q && Passes(trees, 0, s, u)
  {
    if q != [] { ViaIn(trees, q[..|q| - 1], u); }
  }

  /** Before the string comes to tree u it comes through one that u hangs below. */
  lemma {:induction false} ComesFrom(trees: seq<Tree>, r: nat, s: Str, u: nat) returns (p: nat)
    requires Passes(trees, r, s, u) && u != r
    ensures p < u && p < |trees| && Passes(trees, r, s, p) && Next(trees, p, s) == u
    decreases |trees| - r
  {
    var n := Next(trees, r, s);
    if n == u {
      p := r;
    } else {
      p := ComesFrom(trees, n, s, u);
      PassesLater(trees, n, s, p);
    }
  }

  /** The strings of an attached tree are those of the equal bucket it hangs below. */
  lemma PassesAttached(trees: seq<Tree>, ns: nat, t: nat, i: nat, s: Str)
    requires Forest(trees, ns) && t < |trees| && i < ns && trees[t].sub[i] != 0
    ensures Passes(trees, 0, s, trees[t].sub[i]) <==> Passes(trees, 0, s, t) && trees[t].bkt(s) == 2 * i + 1
  {
    var u := trees[t].sub[i];
    if Passes(trees, 0, s, u) {
      var p := ComesFrom(trees, 0, s, u);
      assert trees[p].sub[trees[p].bkt(s) / 2] == u;
    }
    if Passes(trees, 0, s, t) && trees[t].bkt(s) == 2 * i + 1 {
      assert Next(trees, t, s) == u;
      PathGoesOn(trees, 0, t, s, u);
    }
  }

  lemma InBucketAppend(w: seq<Str>, x: Str, f: Str -> nat, c: nat)
    ensures InBucket(w + [x], f, c) == InBucket(w, f, c) + (if f(x) == c then [x] else [])
  {
    assert (w + [x])[..|w|] == w;
  }

  lemma {:induction false} ViaAttached(trees: seq<Tree>, ns: nat, q: seq<Str>, t: nat, i: nat)
    requires Forest(trees, ns) && t < |trees| && i < ns && i < |trees[t].sub| && trees[t].sub[i] != 0
    ensures Via(trees, q, trees[t].sub[i]) == InBucket(Via(trees, q, t), trees[t].bkt, 2 * i + 1)
  {
    hide Forest, Passes;
    if q != [] {
      var n := |q| - 1;
      var w := Via(trees, q[..n], t);
      ViaAttached(trees, ns, q[..n], t, i);
      PassesAttached(trees, ns, t, i, q[n]);
      InBucketAppend(w, q[n], trees[t].bkt, 2 * i + 1);
      if Passes(trees, 0, q[n], t) {
        assert Via(trees, q, t) == w + [q[n]];
      } else {
        assert Via(trees, q, t) == w;
      }
    }
  }

  // ---- step 3 ---------------------------------------------------------------------------------------------

  ghost predicate SizesOk(trees: seq<Tree>, q: seq<Str>, sizes: seq<seq<nat>>, bktnum: nat) {
    |sizes| == |trees| && forall u :: 0 <= u < |trees| ==> |sizes[u]| == bktnum && IsSizes(Via(trees, q, u), trees[u].bkt, sizes[u])
  }

  /** The bucket sizes of every tree. */
  method AllSizes(trees: seq<Tree>, ns: nat, caches: seq<seq<nat>>, ghost q: seq<Str>) returns (sizes: seq<seq<nat>>)
    requires Forest(trees, ns) && |caches| == |trees|
    requires forall u :: 0 <= u < |trees| ==> caches[u] == CacheVia(trees, q, 0, u)
    ensures SizesOk(trees, q, sizes, 2 * ns + 1)
  {
    hide IsSizes, Forest;
    sizes := [];
    for u := 0 to |trees|
      invariant |sizes| == u
      invariant forall v :: 0 <= v < u ==> |sizes[v]| == 2 * ns + 1 && IsSizes(Via(trees, q, v), trees[v].bkt, sizes[v])
    {
      ViaPaired(trees, q, u);
      CachesSmall(trees, ns, q, u);
      var size, _ := SizesAndIndex(caches[u], 2 * ns + 1, Via(trees, q, u), trees[u].bkt);
      sizes := sizes + [size[..]];
    }
  }

  lemma CachesSmall(trees: seq<Tree>, ns: nat, q: seq<Str>, u: nat)
    requires Forest(trees, ns) && u < |trees|
    ensures forall p :: 0 <= p < |CacheVia(trees, q, 0, u)| ==> CacheVia(trees, q, 0, u)[p] < 2 * ns + 1
  {
    ViaPaired(trees, q, u);
  }

  // ---- order of buckets ---------------------------------------------------------------------------------------

  lemma {:induction false} InBucketMultiset(q: seq<Str>, f: Str -> nat, c: nat, s: Str)
    ensures multiset(InBucket(q, f, c))[s] == if f(s) == c then multiset(q)[s] else 0
  {
    if q != [] {
      InBucketMultiset(q[..|q| - 1], f, c, s);
      assert q == q[..|q| - 1] + [q[|q| - 1]];
    }
  }

  lemma SameInBucket(q: seq<Str>, r: seq<Str>, f: Str -> nat, c: nat)
    requires multiset(q) == multiset(r)
    ensures multiset(InBucket(q, f, c)) == multiset(InBucket(r, f, c))
  {
    forall s ensures multiset(InBucket(q, f, c))[s] == multiset(InBucket(r, f, c))[s] {
      InBucketMultiset(q, f, c, s);
      InBucketMultiset(r, f, c, s);
    }
  }

  /** Sizes do not depend on the order. */
  lemma SameSizes(q: seq<Str>, r: seq<Str>, f: Str -> nat, size: seq<nat>)
    requires IsSizes(q, f, size) && multiset(q) == multiset(r)
    ensures IsSizes(r, f, size)
  {
    assert |multiset(q)| == |multiset(r)|;
    forall c | 0 <= c < |size| ensures size[c] == |InBucket(r, f, c)| {
      SameInBucket(q, r, f, c);
      assert |multiset(InBucket(q, f, c))| == |multiset(InBucket(r, f, c))|;
    }
    forall i | 0 <= i < |r| ensures f(r[i]) < |size| {
      assert r[i] in multiset(r) && r[i] in multiset(q);
    }
  }

  ghost predicate Ascending(r: seq<Str>, f: Str -> nat) {
    forall i, j :: 0 <= i < j < |r| ==> f(r[i]) <= f(r[j])
  }

  lemma {:induction false} NoneInBucket(q: seq<Str>, f: Str -> nat, c: nat)
    requires forall i :: 0 <= i < |q| ==> f(q[i]) != c
    ensures InBucket(q, f, c) == []
  {
    if q != [] { NoneInBucket(q[..|q| - 1], f, c); }
  }

  lemma {:induction false} StartEnd(size: seq<nat>, c: nat, d: nat)
    requires c <= d <= |size| && forall b :: c <= b < d ==> size[b] == 0
    ensures Start(size, d) == Start(size, c)
  {
    if c < d { StartEnd(size, c, d - 1); }
  }

  /** One bucket with one string less. */
  function OneLess(size: seq<nat>, c: nat): (r: seq<nat>)
    requires c < |size| && size[c] > 0
    ensures |r| == |size|
  {
    size[c := size[c] - 1]
  }

  lemma StartsLess(size: seq<nat>, c: nat)
    requires c < |size| && size[c] > 0
    ensures forall k :: 0 <= k <= |size| ==> Start(size, k) == Start(OneLess(size, c), k) + (if c < k then 1 else 0)
  {
    var size' := OneLess(size, c);
    assert size'[c := size'[c] + 1] == size;
    hide Start;
    forall k | 0 <= k <= |size| ensures Start(size, k) == Start(size', k) + (if c < k then 1 else 0) { StartBump(size', c, k); }
  }

  lemma SizesLess(r: seq<Str>, f: Str -> nat, size: seq<nat>)
    requires r != [] && IsSizes(r, f, size)
    ensures var n, c := |r| - 1, f(r[|r| - 1]); c < |size| && size[c] > 0 && IsSizes(r[..n], f, OneLess(size, c))
  {
    var n, c := |r| - 1, f(r[|r| - 1]);
    assert size[c] == |InBucket(r, f, c)|;
    StartsLess(size, c);
    forall b | 0 <= b < |size| ensures OneLess(size, c)[b] == |InBucket(r[..n], f, b)| {
      assert size[b] == |InBucket(r, f, b)|;
    }
    hide Start;
  }

  /** Nothing stands behind the highest bucket in use. */
  lemma TopBucket(r: seq<Str>, f: Str -> nat, size: seq<nat>, c: nat)
    requires IsSizes(r, f, size) && c < |size| && forall i :: 0 <= i < |r| ==> f(r[i]) <= c
    ensures Start(size, c + 1) == |r|
  {
    forall b | c + 1 <= b < |size| ensures size[b] == 0 { NoneInBucket(r, f, b); }
    StartEnd(size, c + 1, |size|);
    hide Start;
  }

  lemma AscendingFront(r: seq<Str>, f: Str -> nat)
    requires r != [] && Ascending(r, f)
    ensures var n, c := |r| - 1, f(r[|r| - 1]); Ascending(r[..n], f) && forall i :: 0 <= i < n ==> f(r[..n][i]) <= c
  {
  }

  /** Strings in ascending order of their buckets stand in their buckets. */
  lemma {:induction false} AscendingPlaces(r: seq<Str>, f: Str -> nat, size: seq<nat>)
    requires Ascending(r, f) && IsSizes(r, f, size)
    ensures InBuckets(r, size, f)
  {
    hide Start, Ascending, InBucket, OneLess;
    if r == [] {
      NothingPlaced(f, size);
    } else {
      var n, c := |r| - 1, f(r[|r| - 1]);
      SizesLess(r, f, size);
      AscendingFront(r, f);
      TopBucket(r[..n], f, OneLess(size, c), c);
      StartsLess(size, c);
      AscendingPlaces(r[..n], f, OneLess(size, c));
      forall b, p | 0 <= b < |size| && Start(size, b) <= p < Start(size, b + 1) && p < |r| ensures f(r[p]) == b {
        PlaceBefore(r, f, size, OneLess(size, c), c, b, p);
      }
    }
  }

  lemma NothingPlaced(f: Str -> nat, size: seq<nat>)
    requires Start(size, |size|) == 0
    ensures InBuckets([], size, f)
  {
  }

  lemma PlaceBefore(r: seq<Str>, f: Str -> nat, size: seq<nat>, size': seq<nat>, c: nat, b: nat, p: nat)
    requires r != [] && c == f(r[|r| - 1]) && c < |size| == |size'| && b < |size| && InBuckets(r[..|r| - 1], size', f)
    requires Start(size', c + 1) == |r| - 1 && forall k :: 0 <= k <= |size| ==> Start(size, k) == Start(size', k) + (if c < k then 1 else 0)
    requires Start(size, b) <= p < Start(size, b + 1) && p < |r|
    ensures f(r[p]) == b
  {
    hide Start;
    if b > c {
      StartMono(size', c + 1, b);
    } else if b < c {
      StartMono(size', b + 1, c);
      StartMono(size', c, c + 1);
    }
    if p < |r| - 1 { assert r[..|r| - 1][p] == r[p]; }
  }
}
