/** The permutation of the recursive variant: every tree deals its strings stably into its buckets
    and then lets the trees attached to its equal buckets permute those. */
module SubtreePermute {
  import opened Strings
  import opened Permute
  import opened LcpOutput
  import opened Subtrees

  // ---- sizes ------------------------------------------------------------------------------

  lemma {:induction false} StartBump(size: seq<nat>, c: nat, k: nat)
    requires c < |size| && k <= |size|
    ensures Start(size[c := size[c] + 1], k) == Start(size, k) + (if c < k then 1 else 0)
  {
    if k > 0 { StartBump(size, c, k - 1); }
  }

  lemma {:induction false} StartZero(size: seq<nat>, k: nat)
    requires k <= |size| && forall c :: 0 <= c < |size| ==> size[c] == 0
    ensures Start(size, k) == 0
  {
    if k > 0 { StartZero(size, k - 1); }
  }

  ghost predicate IsSizes(q: seq<Str>, f: Str -> nat, size: seq<nat>) {
    && Start(size, |size|) == |q|
    && (forall c :: 0 <= c < |size| ==> size[c] == |InBucket(q, f, c)|)
    && (forall i :: 0 <= i < |q| ==> f(q[i]) < |size|)
  }

  lemma NoSizes(f: Str -> nat, size: seq<nat>)
    requires forall c :: 0 <= c < |size| ==> size[c] == 0
    ensures IsSizes([], f, size)
  {
    StartZero(size, |size|);
  }

  lemma SizesStep(q: seq<Str>, f: Str -> nat, size: seq<nat>, s: Str)
    requires IsSizes(q, f, size) && f(s) < |size|
    ensures IsSizes(q + [s], f, size[f(s) := size[f(s)] + 1])
  {
    StartBump(size, f(s), |size|);
    assert (q + [s])[..|q|] == q;
  }

  /** calc_bktsize_prefixsum: counts and exclusive sums. */
  method SizesAndIndex(bktcache: seq<nat>, bktnum: nat, ghost q: seq<Str>, ghost f: Str -> nat)
    returns (bktsize: array<nat>, bktindex: array<nat>)
    requires bktnum > 0 && Paired(bktcache, q, f) && forall p :: 0 <= p < |bktcache| ==> bktcache[p] < bktnum
    ensures fresh(bktsize) && fresh(bktindex) && bktsize != bktindex && bktsize.Length == bktindex.Length == bktnum
    ensures IsSizes(q, f, bktsize[..])
    ensures forall c :: 0 <= c < bktnum ==> bktindex[c] == Start(bktsize[..], c)
  {
    hide IsSizes;
    bktsize := new nat[bktnum](_ => 0);
    NoSizes(f, bktsize[..]);
    assert q[..0] == [];
    for b := 0 to |bktcache|
      invariant IsSizes(q[..b], f, bktsize[..])
    {
      SizesStep(q[..b], f, bktsize[..], q[b]);
      ghost var size := bktsize[..];
      bktsize[bktcache[b]] := bktsize[bktcache[b]] + 1;
      assert bktsize[..] == size[bktcache[b] := size[bktcache[b]] + 1];
      assert q[..b] + [q[b]] == q[..b + 1];
    }
    assert q[..|bktcache|] == q;
    ghost var total := bktsize[..];
    bktindex := new nat[bktnum];
    bktindex[0] := 0;
    for i := 1 to bktnum
      modifies bktindex
      invariant bktsize[..] == total
      invariant forall c :: 0 <= c < i ==> bktindex[c] == Start(bktsize[..], c)
    {
      bktindex[i] := bktindex[i - 1] + bktsize[i - 1];
      assert bktindex[i - 1] == Start(bktsize[..], i - 1);
      assert Start(bktsize[..], i) == Start(bktsize[..], i - 1) + bktsize[i - 1];
    }
  }

  // ---- dealing ----------------------------------------------------------------------------

  lemma {:induction false} InBucketGrows(q: seq<Str>, f: Str -> nat, c: nat, i: nat)
    requires i <= |q|
    ensures |InBucket(q[..i], f, c)| <= |InBucket(q, f, c)|
    decreases |q|
  {
    if i < |q| {
      InBucketGrows(q[..|q| - 1], f, c, i);
      assert q[..|q| - 1][..i] == q[..i];
    } else {
      assert q[..i] == q;
    }
  }

  lemma InBucketStep(q: seq<Str>, f: Str -> nat, c: nat, i: nat)
    requires i < |q|
    ensures InBucket(q[..i + 1], f, c) == InBucket(q[..i], f, c) + (if f(q[i]) == c then [q[i]] else [])
  {
    assert q[..i + 1][..i] == q[..i];
  }

  /** Positions from x on hold the strings w, all before y. */
  ghost predicate HoldsAt(r: seq<Str>, x: nat, y: nat, w: seq<Str>) {
    x + |w| <= y <= |r| && r[x..x + |w|] == w
  }

  /** Bucket c begins with the strings w. */
  ghost predicate Holds(r: seq<Str>, size: seq<nat>, c: nat, w: seq<Str>) {
    c < |size| && HoldsAt(r, Start(size, c), Start(size, c + 1), w)
  }

  /** The first i strings stand at the starts of their buckets, in their order. */
  ghost predicate Dealt(q: seq<Str>, r: seq<Str>, f: Str -> nat, size: seq<nat>, idx: seq<nat>, i: nat) {
    && i <= |q| == |r| && |idx| == |size| && IsSizes(q, f, size)
    && (forall c :: 0 <= c < |size| ==> Holds(r, size, c, InBucket(q[..i], f, c)))
    && (forall c :: 0 <= c < |size| ==> idx[c] == Start(size, c) + |InBucket(q[..i], f, c)|)
  }

  /** Every bucket holds its strings in their order. */
  ghost predicate StablyIn(q: seq<Str>, r: seq<Str>, f: Str -> nat, size: seq<nat>) {
    && |r| == |q| && IsSizes(q, f, size)
    && forall c :: 0 <= c < |size| ==> Holds(r, size, c, InBucket(q, f, c))
  }

  lemma BucketFits(size: seq<nat>, c: nat, n: nat)
    requires c < |size| && Start(size, |size|) == n
    ensures Start(size, c) + size[c] == Start(size, c + 1) <= n
  {
    StartMono(size, c + 1, |size|);
  }

  lemma DealtNone(q: seq<Str>, r: seq<Str>, f: Str -> nat, size: seq<nat>, idx: seq<nat>)
    requires |r| == |q| && |idx| == |size| && IsSizes(q, f, size)
    requires forall c :: 0 <= c < |size| ==> idx[c] == Start(size, c)
    ensures Dealt(q, r, f, size, idx, 0)
  {
    assert q[..0] == [];
    forall c | 0 <= c < |size| ensures Holds(r, size, c, InBucket(q[..0], f, c)) {
      BucketFits(size, c, |q|);
    }
  }

  lemma HoldsOther(r: seq<Str>, k: nat, s: Str, x: nat, y: nat, w: seq<Str>)
    requires HoldsAt(r, x, y, w) && k < |r| && (k < x || y <= k)
    ensures HoldsAt(r[k := s], x, y, w)
  {
  }

  lemma HoldsMore(r: seq<Str>, s: Str, x: nat, y: nat, w: seq<Str>)
    requires HoldsAt(r, x, y, w) && x + |w| < y
    ensures x + |w| < |r| && HoldsAt(r[x + |w| := s], x, y, w + [s])
  {
  }

  lemma BucketsApart(size: seq<nat>, b: nat, c: nat)
    requires b < c < |size|
    ensures Start(size, b + 1) <= Start(size, c)
  {
    StartMono(size, b + 1, c);
  }

  lemma NextStart(size: seq<nat>, b: nat)
    requires b < |size|
    ensures Start(size, b + 1) == Start(size, b) + size[b]
  {
  }

  lemma Extent(r: seq<Str>, size: seq<nat>, b: nat, v: seq<Str>)
    requires Holds(r, size, b, v)
    ensures Start(size, b) + |v| <= Start(size, b + 1) <= |r|
  {
  }

  /** Dealing s to bucket b, which holds v, leaves another bucket alone. */
  lemma DealOther(r: seq<Str>, size: seq<nat>, b: nat, v: seq<Str>, c: nat, w: seq<Str>, s: Str)
    requires Holds(r, size, b, v) && Holds(r, size, c, w) && |v| < size[b] && b != c
    ensures Start(size, b) + |v| < |r| && Holds(r[Start(size, b) + |v| := s], size, c, w)
  {
    hide Start, HoldsAt;
    NextStart(size, b);
    Extent(r, size, b, v);
    if c < b { BucketsApart(size, c, b); } else { BucketsApart(size, b, c); }
    var k, x, y := Start(size, b) + |v|, Start(size, c), Start(size, c + 1);
    HoldsOther(r, k, s, x, y, w);
  }

  lemma DealSame(r: seq<Str>, size: seq<nat>, b: nat, v: seq<Str>, s: Str)
    requires Holds(r, size, b, v) && |v| < size[b]
    ensures Start(size, b) + |v| < |r| && Holds(r[Start(size, b) + |v| := s], size, b, v + [s])
  {
    hide Start, HoldsAt;
    NextStart(size, b);
    HoldsMore(r, s, Start(size, b), Start(size, b + 1), v);
  }

  lemma DealOne(q: seq<Str>, r: seq<Str>, f: Str -> nat, size: seq<nat>, idx: seq<nat>, i: nat)
    requires Dealt(q, r, f, size, idx, i) && i < |q|
    ensures f(q[i]) < |idx| && idx[f(q[i])] < |r|
    ensures Dealt(q, r[idx[f(q[i])] := q[i]], f, size, idx[f(q[i]) := idx[f(q[i])] + 1], i + 1)
  {
    hide Holds, Start, InBucket;
    var b := f(q[i]);
    InBucketGrows(q, f, b, i + 1);
    InBucketStep(q, f, b, i);
    var v := InBucket(q[..i], f, b);
    DealSame(r, size, b, v, q[i]);
    var r' := r[idx[b] := q[i]];
    var dealt := q[..i + 1];
    forall c | 0 <= c < |size| ensures Holds(r', size, c, InBucket(dealt, f, c)) {
      InBucketStep(q, f, c, i);
      if c != b {
        DealOther(r, size, b, v, c, InBucket(q[..i], f, c), q[i]);
        assert InBucket(dealt, f, c) == InBucket(q[..i], f, c);
      }
    }
    forall c | 0 <= c < |size| ensures idx[b := idx[b] + 1][c] == Start(size, c) + |InBucket(q[..i + 1], f, c)| {
      InBucketStep(q, f, c, i);
    }
  }

  lemma AllDealt(q: seq<Str>, r: seq<Str>, f: Str -> nat, size: seq<nat>, idx: seq<nat>)
    requires Dealt(q, r, f, size, idx, |q|)
    ensures StablyIn(q, r, f, size)
  {
    hide Holds, InBucket;
    assert q[..|q|] == q;
  }

  /** Step 4 for one tree: out of place and back. */
  method Deal(strings: array<Str>, sorted: array<Str>, lo: nat, n: nat, bktcache: seq<nat>, bktindex: array<nat>,
              ghost q: seq<Str>, ghost f: Str -> nat, ghost size: seq<nat>)
    requires strings != sorted && lo + n <= strings.Length && n <= sorted.Length && n == |bktcache|
    requires strings[lo..lo + n] == q && Paired(bktcache, q, f)
    requires Dealt(q, sorted[..n], f, size, bktindex[..], 0)
    modifies strings, sorted, bktindex
    ensures StablyIn(q, strings[lo..lo + n], f, size)
    ensures OutsideKept(old(strings[..]), strings[..], lo, lo + n)
  {
    hide Dealt, StablyIn;
    for i := 0 to n
      modifies sorted, bktindex
      invariant strings[lo..lo + n] == q
      invariant Dealt(q, sorted[..n], f, size, bktindex[..], i)
    {
      ghost var r, idx := sorted[..n], bktindex[..];
      DealOne(q, r, f, size, idx, i);
      var c := bktcache[i];
      assert c == f(q[i]) && q[i] == strings[lo + i];
      sorted[bktindex[c]] := strings[lo + i];
      bktindex[c] := bktindex[c] + 1;
      assert sorted[..n] == r[idx[c] := q[i]];
      assert bktindex[..] == idx[c := idx[c] + 1];
    }
    AllDealt(q, sorted[..n], f, size, bktindex[..]);
    CopyIn(strings, sorted, lo, n);
  }

  method CopyIn(strings: array<Str>, sorted: array<Str>, lo: nat, n: nat)
    requires strings != sorted && lo + n <= strings.Length && n <= sorted.Length
    modifies strings
    ensures strings[lo..lo + n] == sorted[..n]
    ensures OutsideKept(old(strings[..]), strings[..], lo, lo + n)
  {
    for i := 0 to n
      invariant strings[lo..lo + i] == sorted[..i]
      invariant OutsideKept(old(strings[..]), strings[..], lo, lo + n)
    {
      strings[lo + i] := sorted[i];
      assert strings[lo..lo + (i + 1)] == strings[lo..lo + i] + [sorted[i]];
    }
  }

  // ---- the order reached -----------------------------------------------------------------

  /** x may stand before y: at the first tree where their buckets differ, x's bucket is the smaller. */
  ghost predicate RouteLeq(trees: seq<Tree>, t: nat, x: Str, y: Str)
    decreases |trees| - t
  {
    t < |trees| ==>
      || trees[t].bkt(x) < trees[t].bkt(y)
      || (trees[t].bkt(x) == trees[t].bkt(y) && (t < Next(trees, t, x) < |trees| ==> RouteLeq(trees, Next(trees, t, x), x, y)))
  }

  ghost predicate RouteSorted(trees: seq<Tree>, t: nat, r: seq<Str>) {
    forall i, j :: 0 <= i < j < |r| ==> RouteLeq(trees, t, r[i], r[j])
  }

  lemma {:induction false} RouteSame(trees: seq<Tree>, t: nat, q: seq<Str>, c: nat)
    requires t < |trees|
    ensures forall s :: s in InBucket(q, trees[t].bkt, c) ==> trees[t].bkt(s) == c
  {
    if q != [] { RouteSame(trees, t, q[..|q| - 1], c); }
  }

  /** Bucket c of tree t, at positions x to y, has the strings w of that bucket. */
  ghost predicate Keeps(trees: seq<Tree>, t: nat, r: seq<Str>, x: nat, y: nat, c: nat, w: seq<Str>) {
    && t < |trees| && x <= y <= |r| && multiset(r[x..y]) == multiset(w)
    && forall s :: s in w ==> trees[t].bkt(s) == c
  }

  ghost predicate KeepsAll(trees: seq<Tree>, t: nat, q: seq<Str>, r: seq<Str>, size: seq<nat>) {
    && t < |trees| && |r| == |q| && IsSizes(q, trees[t].bkt, size)
    && (forall c :: 0 <= c < |size| ==> Keeps(trees, t, r, Start(size, c), Start(size, c + 1), c, InBucket(q, trees[t].bkt, c)))
  }

  ghost predicate OrderedAt(trees: seq<Tree>, t: nat, r: seq<Str>, x: nat, y: nat) {
    x <= y <= |r| && RouteSorted(trees, t, r[x..y])
  }

  ghost predicate OrderedBefore(trees: seq<Tree>, t: nat, r: seq<Str>, size: seq<nat>, b: nat) {
    forall c :: 0 <= c < |size| && c < b ==> OrderedAt(trees, t, r, Start(size, c), Start(size, c + 1))
  }

  ghost predicate DealtFrom(q: seq<Str>, r: seq<Str>, f: Str -> nat, size: seq<nat>, b: nat) {
    forall c :: 0 <= c < |size| && b <= c ==> Holds(r, size, c, InBucket(q, f, c))
  }

  /** The buckets before b are in their final order, those from b on in the order of the input. */
  ghost predicate Settled(trees: seq<Tree>, t: nat, q: seq<Str>, r: seq<Str>, size: seq<nat>, b: nat) {
    && KeepsAll(trees, t, q, r, size) && OrderedBefore(trees, t, r, size, b) && DealtFrom(q, r, trees[t].bkt, size, b)
  }

  // ---- every string is kept ----------------------------------------------------------------

  /** The strings of the buckets before b. */
  ghost function Below(q: seq<Str>, f: Str -> nat, b: nat): seq<Str> {
    if q == [] then []
    else Below(q[..|q| - 1], f, b) + (if f(q[|q| - 1]) < b then [q[|q| - 1]] else [])
  }

  lemma {:induction false} BelowStep(q: seq<Str>, f: Str -> nat, b: nat)
    ensures multiset(Below(q, f, b + 1)) == multiset(Below(q, f, b)) + multiset(InBucket(q, f, b))
  {
    if q != [] { BelowStep(q[..|q| - 1], f, b); }
  }

  lemma {:induction false} BelowNone(q: seq<Str>, f: Str -> nat)
    ensures Below(q, f, 0) == []
  {
    if q != [] { BelowNone(q[..|q| - 1], f); }
  }

  lemma {:induction false} BelowAll(q: seq<Str>, f: Str -> nat, b: nat)
    requires forall i :: 0 <= i < |q| ==> f(q[i]) < b
    ensures Below(q, f, b) == q
  {
    if q != [] {
      BelowAll(q[..|q| - 1], f, b);
      assert q == q[..|q| - 1] + [q[|q| - 1]];
    }
  }

  lemma KeptMore(trees: seq<Tree>, t: nat, r: seq<Str>, x: nat, y: nat, c: nat, w: seq<Str>)
    requires Keeps(trees, t, r, x, y, c, w)
    ensures multiset(r[..y]) == multiset(r[..x]) + multiset(w)
  {
    assert r[..y] == r[..x] + r[x..y];
  }

  lemma KeepsAt(trees: seq<Tree>, t: nat, q: seq<Str>, r: seq<Str>, size: seq<nat>, c: nat)
    requires KeepsAll(trees, t, q, r, size) && c < |size|
    ensures t < |trees| && Start(size, c) <= Start(size, c + 1) <= |r|
    ensures Keeps(trees, t, r, Start(size, c), Start(size, c + 1), c, InBucket(q, trees[t].bkt, c))
  {
    hide Start, InBucket, IsSizes;
    assert Keeps(trees, t, r, Start(size, c), Start(size, c + 1), c, InBucket(q, trees[t].bkt, c));
  }

  ghost predicate KeptBelow(q: seq<Str>, r: seq<Str>, f: Str -> nat, x: nat, b: nat) {
    x <= |r| && multiset(r[..x]) == multiset(Below(q, f, b))
  }

  lemma KeptNone(q: seq<Str>, r: seq<Str>, f: Str -> nat)
    ensures KeptBelow(q, r, f, 0, 0)
  {
    BelowNone(q, f);
  }

  lemma KeptNext(trees: seq<Tree>, t: nat, q: seq<Str>, r: seq<Str>, x: nat, y: nat, b: nat)
    requires t < |trees| && KeptBelow(q, r, trees[t].bkt, x, b)
    requires Keeps(trees, t, r, x, y, b, InBucket(q, trees[t].bkt, b))
    ensures KeptBelow(q, r, trees[t].bkt, y, b + 1)
  {
    BelowStep(q, trees[t].bkt, b);
    KeptMore(trees, t, r, x, y, b, InBucket(q, trees[t].bkt, b));
  }

  lemma {:induction false} KeptUpTo(trees: seq<Tree>, t: nat, q: seq<Str>, r: seq<Str>, size: seq<nat>, b: nat)
    requires KeepsAll(trees, t, q, r, size) && t < |trees| && b <= |size|
    ensures KeptBelow(q, r, trees[t].bkt, Start(size, b), b)
  {
    var f := trees[t].bkt;
    if b == 0 {
      KeptNone(q, r, f);
    } else {
      hide *;
      var c := b - 1;
      KeptUpTo(trees, t, q, r, size, c);
      KeepsAt(trees, t, q, r, size, c);
      KeptNext(trees, t, q, r, Start(size, c), Start(size, b), c);
    }
  }

  lemma AllKept(trees: seq<Tree>, t: nat, q: seq<Str>, r: seq<Str>, size: seq<nat>)
    requires KeepsAll(trees, t, q, r, size)
    ensures multiset(r) == multiset(q)
  {
    KeptUpTo(trees, t, q, r, size, |size|);
    BelowAll(q, trees[t].bkt, |size|);
    assert r[..Start(size, |size|)] == r;
  }

  // ---- order -------------------------------------------------------------------------------

  lemma {:induction false} BucketAt(size: seq<nat>, b: nat, p: nat) returns (c: nat)
    requires b <= |size| && p < Start(size, b)
    ensures c < b && Start(size, c) <= p < Start(size, c + 1)
  {
    if Start(size, b - 1) <= p { c := b - 1; } else { c := BucketAt(size, b - 1, p); }
  }

  lemma KeepsBucket(trees: seq<Tree>, t: nat, r: seq<Str>, x: nat, y: nat, c: nat, w: seq<Str>, p: nat)
    requires Keeps(trees, t, r, x, y, c, w) && x <= p < y
    ensures trees[t].bkt(r[p]) == c
  {
    assert r[x..y][p - x] in multiset(r[x..y]);
  }

  lemma OrderedPair(trees: seq<Tree>, t: nat, r: seq<Str>, x: nat, y: nat, i: nat, j: nat)
    requires OrderedAt(trees, t, r, x, y) && x <= i < j < y
    ensures RouteLeq(trees, t, r[i], r[j])
  {
    hide RouteLeq;
    assert r[x..y][i - x] == r[i] && r[x..y][j - x] == r[j];
  }

  /** Buckets follow each other. */
  lemma LaterBucket(size: seq<nat>, c: nat, d: nat, i: nat, j: nat)
    requires c < |size| && d < |size| && i < j
    requires Start(size, c) <= i < Start(size, c + 1) && Start(size, d) <= j < Start(size, d + 1)
    ensures c <= d
  {
    if d < c { StartMono(size, d + 1, c); }
  }

  lemma SettledPair(trees: seq<Tree>, t: nat, q: seq<Str>, r: seq<Str>, size: seq<nat>, i: nat, j: nat)
    requires Settled(trees, t, q, r, size, |size|) && i < j < |r|
    ensures RouteLeq(trees, t, r[i], r[j])
  {
    hide InBucket, Keeps, OrderedAt, RouteLeq, Start;
    var c := BucketAt(size, |size|, i);
    var d := BucketAt(size, |size|, j);
    LaterBucket(size, c, d, i, j);
    KeepsBucket(trees, t, r, Start(size, c), Start(size, c + 1), c, InBucket(q, trees[t].bkt, c), i);
    KeepsBucket(trees, t, r, Start(size, d), Start(size, d + 1), d, InBucket(q, trees[t].bkt, d), j);
    if c == d {
      OrderedPair(trees, t, r, Start(size, c), Start(size, c + 1), i, j);
    } else {
      SmallerFirst(trees, t, r[i], r[j]);
    }
  }

  lemma SmallerFirst(trees: seq<Tree>, t: nat, x: Str, y: Str)
    requires t < |trees| && trees[t].bkt(x) < trees[t].bkt(y)
    ensures RouteLeq(trees, t, x, y)
  {
  }

  lemma SettledSorted(trees: seq<Tree>, t: nat, q: seq<Str>, r: seq<Str>, size: seq<nat>)
    requires Settled(trees, t, q, r, size, |size|)
    ensures RouteSorted(trees, t, r) && multiset(r) == multiset(q)
  {
    AllKept(trees, t, q, r, size);
    hide RouteLeq, Settled;
    forall i, j | 0 <= i < j < |r| ensures RouteLeq(trees, t, r[i], r[j]) {
      SettledPair(trees, t, q, r, size, i, j);
    }
  }

  /** Without an attached tree a bucket is settled as it was dealt. */
  lemma PlainBucket(trees: seq<Tree>, t: nat, w: seq<Str>, c: nat)
    requires t < |trees| && forall s :: s in w ==> trees[t].bkt(s) == c
    requires c % 2 == 0 || c / 2 >= |trees[t].sub| || trees[t].sub[c / 2] == 0
    ensures RouteSorted(trees, t, w)
  {
    forall i, j | 0 <= i < j < |w| ensures RouteLeq(trees, t, w[i], w[j]) {
      assert w[i] in w && w[j] in w;
    }
  }

  /** With an attached tree it is settled when that tree is done. */
  lemma AttachedBucket(trees: seq<Tree>, t: nat, w: seq<Str>, c: nat)
    requires t < |trees| && forall s :: s in w ==> trees[t].bkt(s) == c
    requires c % 2 == 1 && c / 2 < |trees[t].sub| && RouteSorted(trees, trees[t].sub[c / 2], w)
    ensures RouteSorted(trees, t, w)
  {
    forall i, j | 0 <= i < j < |w| ensures RouteLeq(trees, t, w[i], w[j]) {
      assert w[i] in w && w[j] in w;
    }
  }

  lemma DealtSettled(trees: seq<Tree>, t: nat, q: seq<Str>, r: seq<Str>, size: seq<nat>)
    requires t < |trees| && StablyIn(q, r, trees[t].bkt, size)
    ensures Settled(trees, t, q, r, size, 0)
  {
    forall c | 0 <= c < |size|
      ensures Keeps(trees, t, r, Start(size, c), Start(size, c + 1), c, InBucket(q, trees[t].bkt, c))
    {
      RouteSame(trees, t, q, c);
      assert Start(size, c + 1) == Start(size, c) + size[c];
    }
  }

  lemma HoldsKept(r: seq<Str>, r': seq<Str>, x: nat, y: nat, a: nat, b: nat, w: seq<Str>)
    requires HoldsAt(r, a, b, w) && OutsideKept(r, r', x, y) && x <= y <= a
    ensures HoldsAt(r', a, b, w)
  {
  }

  lemma SliceKept(r: seq<Str>, r': seq<Str>, x: nat, y: nat, a: nat, b: nat)
    requires OutsideKept(r, r', x, y) && a <= b <= |r| && (b <= x || y <= a)
    ensures r'[a..b] == r[a..b]
  {
  }

  /** Positions x to y of r have been put in order, nothing else has moved. */
  ghost predicate PutInOrder(trees: seq<Tree>, t: nat, r: seq<Str>, r': seq<Str>, x: nat, y: nat) {
    && x <= y <= |r| && OutsideKept(r, r', x, y)
    && multiset(r'[x..y]) == multiset(r[x..y]) && RouteSorted(trees, t, r'[x..y])
  }

  lemma KeepsKept(trees: seq<Tree>, t: nat, r: seq<Str>, r': seq<Str>, x: nat, y: nat, a: nat, b: nat, c: nat, w: seq<Str>)
    requires Keeps(trees, t, r, a, b, c, w) && PutInOrder(trees, t, r, r', x, y)
    requires b <= x || y <= a || (a == x && b == y)
    ensures Keeps(trees, t, r', a, b, c, w)
  {
    hide RouteSorted;
    if b <= x || y <= a { SliceKept(r, r', x, y, a, b); }
  }

  lemma OrderKept(trees: seq<Tree>, t: nat, r: seq<Str>, r': seq<Str>, x: nat, y: nat, a: nat, b: nat)
    requires PutInOrder(trees, t, r, r', x, y)
    requires (b <= x && OrderedAt(trees, t, r, a, b)) || (a == x && b == y)
    ensures OrderedAt(trees, t, r', a, b)
  {
    hide RouteSorted;
    if b <= x && a <= b { SliceKept(r, r', x, y, a, b); }
  }

  lemma Apart(size: seq<nat>, b: nat, c: nat)
    requires b < |size| && c < |size|
    ensures c < b ==> Start(size, c + 1) <= Start(size, b)
    ensures b < c ==> Start(size, b + 1) <= Start(size, c)
  {
    if c < b { BucketsApart(size, c, b); }
    if b < c { BucketsApart(size, b, c); }
  }

  lemma KeepsAgain(trees: seq<Tree>, t: nat, q: seq<Str>, r: seq<Str>, r': seq<Str>, size: seq<nat>, b: nat, c: nat)
    requires KeepsAll(trees, t, q, r, size) && b < |size| && c < |size| && t < |trees|
    requires PutInOrder(trees, t, r, r', Start(size, b), Start(size, b + 1))
    ensures Keeps(trees, t, r', Start(size, c), Start(size, c + 1), c, InBucket(q, trees[t].bkt, c))
  {
    hide *;
    KeepsAt(trees, t, q, r, size, c);
    Apart(size, b, c);
    KeepsKept(trees, t, r, r', Start(size, b), Start(size, b + 1), Start(size, c), Start(size, c + 1), c, InBucket(q, trees[t].bkt, c));
  }

  lemma SettleKeeps(trees: seq<Tree>, t: nat, q: seq<Str>, r: seq<Str>, r': seq<Str>, size: seq<nat>, b: nat)
    requires KeepsAll(trees, t, q, r, size) && b < |size|
    requires PutInOrder(trees, t, r, r', Start(size, b), Start(size, b + 1))
    ensures KeepsAll(trees, t, q, r', size)
  {
    assert |r'| == |r|;
    hide InBucket, IsSizes, Start, PutInOrder, Keeps;
    forall c | 0 <= c < |size|
      ensures Keeps(trees, t, r', Start(size, c), Start(size, c + 1), c, InBucket(q, trees[t].bkt, c))
    {
      KeepsAgain(trees, t, q, r, r', size, b, c);
    }
  }

  lemma SettleOrder(trees: seq<Tree>, t: nat, r: seq<Str>, r': seq<Str>, size: seq<nat>, b: nat)
    requires OrderedBefore(trees, t, r, size, b) && b < |size|
    requires PutInOrder(trees, t, r, r', Start(size, b), Start(size, b + 1))
    ensures OrderedBefore(trees, t, r', size, b + 1)
  {
    hide Start, PutInOrder, OrderedAt;
    forall c | 0 <= c < |size| && c < b + 1 ensures OrderedAt(trees, t, r', Start(size, c), Start(size, c + 1)) {
      Apart(size, b, c);
      OrderKept(trees, t, r, r', Start(size, b), Start(size, b + 1), Start(size, c), Start(size, c + 1));
    }
  }

  lemma SettleRest(q: seq<Str>, r: seq<Str>, r': seq<Str>, f: Str -> nat, size: seq<nat>, b: nat)
    requires DealtFrom(q, r, f, size, b) && b < |size|
    requires Start(size, b) <= Start(size, b + 1) && OutsideKept(r, r', Start(size, b), Start(size, b + 1))
    ensures DealtFrom(q, r', f, size, b + 1)
  {
    hide Start, HoldsAt, InBucket, OutsideKept;
    forall c | 0 <= c < |size| && b + 1 <= c ensures Holds(r', size, c, InBucket(q, f, c)) {
      Apart(size, b, c);
      assert Holds(r, size, c, InBucket(q, f, c));
      HoldsKept(r, r', Start(size, b), Start(size, b + 1), Start(size, c), Start(size, c + 1), InBucket(q, f, c));
    }
  }

  lemma SettleOne(trees: seq<Tree>, t: nat, q: seq<Str>, r: seq<Str>, r': seq<Str>, size: seq<nat>, b: nat)
    requires Settled(trees, t, q, r, size, b) && b < |size|
    requires PutInOrder(trees, t, r, r', Start(size, b), Start(size, b + 1))
    ensures Settled(trees, t, q, r', size, b + 1)
  {
    SettleKeeps(trees, t, q, r, r', size, b);
    SettleOrder(trees, t, r, r', size, b);
    SettleRest(q, r, r', trees[t].bkt, size, b);
  }

  // ---- recursive_permute --------------------------------------------------------------------

  /** Every tree from t down has the bucket of each string that comes through t, in their order. */
  ghost predicate CachesFit(trees: seq<Tree>, caches: seq<seq<nat>>, q: seq<Str>, t: nat) {
    |caches| == |trees| && forall v :: 0 <= v < |trees| && Reach(trees, t, v) ==> caches[v] == CacheVia(trees, q, t, v)
  }

  lemma {:induction false} ReachOn(trees: seq<Tree>, t: nat, i: nat, u: nat, v: nat)
    requires t < |trees| && i < |trees[t].sub| && trees[t].sub[i] == u && t < u && Reach(trees, u, v)
    ensures Reach(trees, t, v)
    decreases v
  {
    if v == u {
      assert Reach(trees, t, t);
    } else {
      var p: nat, j: nat :| p < v && p < |trees| && j < |trees[p].sub| && trees[p].sub[j] == v && Reach(trees, u, p);
      ReachOn(trees, t, i, u, p);
    }
  }

  /** The caches fit the equal bucket of an attached tree, in particular in size. */
  lemma FitBelow(trees: seq<Tree>, ns: nat, caches: seq<seq<nat>>, q: seq<Str>, t: nat, i: nat)
    requires Forest(trees, ns) && CachesFit(trees, caches, q, t) && t < |trees| && i < ns && trees[t].sub[i] != 0
    ensures t < trees[t].sub[i] < |trees| == |caches|
    ensures CachesFit(trees, caches, InBucket(q, trees[t].bkt, 2 * i + 1), trees[t].sub[i])
    ensures |caches[trees[t].sub[i]]| == |InBucket(q, trees[t].bkt, 2 * i + 1)|
  {
    var u := trees[t].sub[i];
    var w := InBucket(q, trees[t].bkt, 2 * i + 1);
    forall v | 0 <= v < |trees| && Reach(trees, u, v) ensures caches[v] == CacheVia(trees, w, u, v) {
      ReachOn(trees, t, i, u, v);
      CacheOfBucket(trees, ns, q, t, i, v);
    }
    OwnCache(trees, w, u);
  }

  lemma OwnPaired(trees: seq<Tree>, ns: nat, caches: seq<seq<nat>>, q: seq<Str>, t: nat)
    requires Forest(trees, ns) && CachesFit(trees, caches, q, t) && t < |trees|
    ensures |caches| == |trees| && Paired(caches[t], q, trees[t].bkt) && |trees[t].sub| == ns
    ensures forall p :: 0 <= p < |caches[t]| ==> caches[t][p] < 2 * ns + 1
  {
    OwnCache(trees, q, t);
  }

  /** The strings of a bucket that has not been visited yet. */
  lemma BucketInput(trees: seq<Tree>, t: nat, q: seq<Str>, r: seq<Str>, size: seq<nat>, b: nat)
    requires Settled(trees, t, q, r, size, b) && b < |size|
    ensures t < |trees| && Start(size, b) + size[b] == Start(size, b + 1) <= |r|
    ensures r[Start(size, b)..Start(size, b + 1)] == InBucket(q, trees[t].bkt, b)
  {
    hide InBucket;
    BucketFits(size, b, |q|);
    assert Holds(r, size, b, InBucket(q, trees[t].bkt, b));
  }

  lemma SettlePlain(trees: seq<Tree>, t: nat, q: seq<Str>, r: seq<Str>, size: seq<nat>, b: nat)
    requires Settled(trees, t, q, r, size, b) && b < |size| && t < |trees|
    requires b % 2 == 0 || b / 2 >= |trees[t].sub| || trees[t].sub[b / 2] == 0
    ensures Settled(trees, t, q, r, size, b + 1)
  {
    hide Settled, InBucket, RouteSorted;
    BucketInput(trees, t, q, r, size, b);
    RouteSame(trees, t, q, b);
    PlainBucket(trees, t, InBucket(q, trees[t].bkt, b), b);
    SettleOne(trees, t, q, r, r, size, b);
  }

  lemma SettleAttached(trees: seq<Tree>, t: nat, q: seq<Str>, r: seq<Str>, r': seq<Str>, size: seq<nat>, b: nat)
    requires Settled(trees, t, q, r, size, b) && b < |size| && t < |trees|
    requires b % 2 == 1 && b / 2 < |trees[t].sub|
    requires PutInOrder(trees, trees[t].sub[b / 2], r, r', Start(size, b), Start(size, b + 1))
    ensures Settled(trees, t, q, r', size, b + 1)
  {
    hide Settled, InBucket, RouteSorted;
    BucketInput(trees, t, q, r, size, b);
    RouteSame(trees, t, q, b);
    var w := InBucket(q, trees[t].bkt, b);
    var w' := r'[Start(size, b)..Start(size, b + 1)];
    forall s | s in w' ensures trees[t].bkt(s) == b {
      assert s in multiset(w') && s in multiset(w);
    }
    AttachedBucket(trees, t, w', b);
    SettleOne(trees, t, q, r, r', size, b);
  }

  lemma SliceOfSlice(s: seq<Str>, lo: nat, n: nat, x: nat, y: nat)
    requires x <= y <= n && lo + n <= |s|
    ensures s[lo..lo + n][x..y] == s[lo + x..lo + y]
  {
    var a, b := s[lo..lo + n][x..y], s[lo + x..lo + y];
    assert |a| == |b|;
    forall k: nat | k < |a| ensures a[k] == b[k] {
      assert a[k] == s[lo..lo + n][x + k];
    }
  }

  /** What a call on part of the range means for the range. */
  lemma PartOrdered(trees: seq<Tree>, u: nat, s0: seq<Str>, s1: seq<Str>, lo: nat, n: nat, x: nat, y: nat)
    requires x <= y <= n && lo + n <= |s0| && OutsideKept(s0, s1, lo + x, lo + y)
    requires multiset(s1[lo + x..lo + y]) == multiset(s0[lo + x..lo + y]) && RouteSorted(trees, u, s1[lo + x..lo + y])
    ensures PutInOrder(trees, u, s0[lo..lo + n], s1[lo..lo + n], x, y)
    ensures OutsideKept(s0, s1, lo, lo + n)
  {
    hide RouteSorted;
    var r, r' := s0[lo..lo + n], s1[lo..lo + n];
    SliceOfSlice(s0, lo, n, x, y);
    SliceOfSlice(s1, lo, n, x, y);
  }

  lemma KeptTwice(s0: seq<Str>, s1: seq<Str>, s2: seq<Str>, x: nat, y: nat)
    requires OutsideKept(s0, s1, x, y) && OutsideKept(s1, s2, x, y)
    ensures OutsideKept(s0, s2, x, y)
  {
  }

  /** One equal bucket with an attached tree. */
  method PermuteAttached(trees: seq<Tree>, ns: nat, t: nat, i: nat, caches: seq<seq<nat>>, strings: array<Str>, sorted: array<Str>,
                         lo: nat, n: nat, bsum: nat, ghost q: seq<Str>, size: array<nat>)
    requires Forest(trees, ns) && t < |trees| && i < 2 * ns && i % 2 == 1 && |trees[t].sub| == ns && trees[t].sub[i / 2] != 0
    requires strings != sorted && lo + n <= strings.Length && n <= sorted.Length && size.Length == 2 * ns + 1
    requires CachesFit(trees, caches, q, t) && Settled(trees, t, q, strings[lo..lo + n], size[..], i)
    requires bsum == Start(size[..], i)
    modifies strings, sorted
    ensures OutsideKept(old(strings[..]), strings[..], lo, lo + n)
    ensures Settled(trees, t, q, strings[lo..lo + n], size[..], i + 1)
    decreases |trees| - t, 0
  {
    hide Forest, Settled, CachesFit, RouteSorted, Start, InBucket, PutInOrder, OutsideKept, Reach;
    ghost var r, s0 := strings[lo..lo + n], strings[..];
    ghost var w := InBucket(q, trees[t].bkt, i);
    BucketInput(trees, t, q, r, size[..], i);
    FitBelow(trees, ns, caches, q, t, i / 2);
    var u := trees[t].sub[i / 2];
    SliceOfSlice(s0, lo, n, bsum, bsum + size[i]);
    assert size[i] == |caches[u]|;
    RecursivePermute(trees, ns, u, caches, strings, sorted, lo + bsum, size[i], w);
    PartOrdered(trees, u, s0, strings[..], lo, n, bsum, bsum + size[i]);
    SettleAttached(trees, t, q, r, strings[lo..lo + n], size[..], i);
  }

  lemma StartNone(size: seq<nat>)
    ensures Start(size, 0) == 0
  {
  }

  /** The tree's own strings, dealt. */
  method PermuteOwn(trees: seq<Tree>, ns: nat, t: nat, caches: seq<seq<nat>>, strings: array<Str>, sorted: array<Str>,
                    lo: nat, n: nat, ghost q: seq<Str>)
    returns (bktsize: array<nat>)
    requires Forest(trees, ns) && t < |trees| && CachesFit(trees, caches, q, t)
    requires strings != sorted && lo + n <= strings.Length && n <= sorted.Length && q == strings[lo..lo + n]
    modifies strings, sorted
    ensures OutsideKept(old(strings[..]), strings[..], lo, lo + n)
    ensures fresh(bktsize) && bktsize.Length == 2 * ns + 1 && |trees[t].sub| == ns
    ensures Settled(trees, t, q, strings[lo..lo + n], bktsize[..], 0)
  {
    hide Forest, Settled, StablyIn, CachesFit, InBucket, OutsideKept;
    ghost var f := trees[t].bkt;
    OwnPaired(trees, ns, caches, q, t);
    var bktindex;
    bktsize, bktindex := SizesAndIndex(caches[t], 2 * ns + 1, q, f);
    ghost var size := bktsize[..];
    DealtNone(q, sorted[..n], f, size, bktindex[..]);
    Deal(strings, sorted, lo, n, caches[t], bktindex, q, f, size);
    DealtSettled(trees, t, q, strings[lo..lo + n], size);
  }

  /** Steps 3 and 4: afterwards every tree has its strings in the order of their buckets. */
  method RecursivePermute(trees: seq<Tree>, ns: nat, t: nat, caches: seq<seq<nat>>, strings: array<Str>, sorted: array<Str>,
                          lo: nat, n: nat, ghost q: seq<Str>)
    requires Forest(trees, ns) && t < |trees| && CachesFit(trees, caches, q, t)
    requires strings != sorted && lo + n <= strings.Length && n <= sorted.Length && q == strings[lo..lo + n]
    modifies strings, sorted
    ensures OutsideKept(old(strings[..]), strings[..], lo, lo + n)
    ensures multiset(strings[lo..lo + n]) == multiset(q) && RouteSorted(trees, t, strings[lo..lo + n])
    decreases |trees| - t, 1
  {
    hide *;
    var bktnum := 2 * ns + 1;
    ghost var s0 := strings[..];
    var bktsize := PermuteOwn(trees, ns, t, caches, strings, sorted, lo, n, q);
    ghost var size := bktsize[..];
    StartNone(size);
    var i, bsum := 0, 0;
    while i < bktnum - 1
      modifies strings, sorted
      invariant i <= bktnum - 1 && i % 2 == 0 && bktsize[..] == size && bsum == Start(size, i)
      invariant Settled(trees, t, q, strings[lo..lo + n], size, i)
      invariant OutsideKept(s0, strings[..], lo, lo + n)
    {
      BucketInput(trees, t, q, strings[lo..lo + n], size, i);
      SettlePlain(trees, t, q, strings[lo..lo + n], size, i);
      bsum, i := bsum + bktsize[i], i + 1;
      BucketInput(trees, t, q, strings[lo..lo + n], size, i);
      if trees[t].sub[i / 2] != 0 {
        ghost var s1 := strings[..];
        PermuteAttached(trees, ns, t, i, caches, strings, sorted, lo, n, bsum, q, bktsize);
        KeptTwice(s0, s1, strings[..], lo, lo + n);
      } else {
        SettlePlain(trees, t, q, strings[lo..lo + n], size, i);
      }
      bsum, i := bsum + bktsize[i], i + 1;
    }
    BucketInput(trees, t, q, strings[lo..lo + n], size, i);
    SettlePlain(trees, t, q, strings[lo..lo + n], size, i);
    SettledSorted(trees, t, q, strings[lo..lo + n], size);
  }

  /** Steps 2.2 to 4 of one call of the sorter: classified through the trees and permuted by them,
      the strings stand in the order of their routes. */
  method ClassifyAndPermute(trees: seq<Tree>, ns: nat, strings: array<Str>, lo: nat, n: nat)
    requires Forest(trees, ns) && lo + n <= strings.Length
    modifies strings
    ensures OutsideKept(old(strings[..]), strings[..], lo, lo + n)
    ensures multiset(strings[lo..lo + n]) == multiset(old(strings[lo..lo + n]))
    ensures RouteSorted(trees, 0, strings[lo..lo + n])
  {
    hide RouteSorted, Reach;
    ghost var q := strings[lo..lo + n];
    var caches := ClassifyStrings(trees, strings, lo, n, ns);
    var sorted := new Str[n](_ => []);
    RecursivePermute(trees, ns, 0, caches, strings, sorted, lo, n, q);
  }
}
