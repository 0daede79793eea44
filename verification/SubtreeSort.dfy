/** The recursive variant of sample sort from end to end: trees hung below equal buckets, classification
    through all of them, the permutation they prescribe, and the recursion into their buckets. */
module SubtreeSort {
  import opened Bits
  import opened Strings
  import opened Keys
  import opened SplitterTree
  import opened TreeBuilder
  import opened Classifier
  import opened EqualDescent
  import opened Permute
  import opened Buckets
  import opened Subtrees
  import opened SubtreePermute
  import opened SubtreeOrder
  import opened SubtreeBuilder
  import opened SubtreeSizes
  import LcpOutput
  import RadixSort
  import SampleSort

  /** Size of the trees, and where the base case begins. */
  datatype Config = Config(bits: nat, smallsort: nat, insertion: nat) {
    predicate Valid() {
      2 <= bits <= WIDTH && smallsort >= 1
    }
  }

  // ---- the trees as classifiers --------------------------------------------------------------------

  function TreeOf(d: TreeData, bits: nat): Tree
    requires |d.nodes| == Pow2(bits) && bits <= WIDTH
  {
    EqualStart(bits);
    Tree((s: Str) => EqualBucket(d.nodes, KeyAt(s, d.depth), bits, 1, bits), d.sub)
  }

  function TreesOf(list: seq<TreeData>, bits: nat): (trees: seq<Tree>)
    requires bits <= WIDTH && forall t :: 0 <= t < |list| ==> |list[t].nodes| == Pow2(bits)
    ensures |trees| == |list| && forall t :: 0 <= t < |list| ==> trees[t] == TreeOf(list[t], bits)
  {
    seq(|list|, t requires 0 <= t < |list| => TreeOf(list[t], bits))
  }

  ghost function KeyTreesOf(list: seq<TreeData>, os: seq<Origin>): (kts: seq<KeyTree>)
    requires |os| == |list|
    ensures |kts| == |list| && forall t :: 0 <= t < |list| ==> kts[t] == KeyTree(list[t].nodes, os[t].keys, os[t].depth)
  {
    seq(|list|, t requires 0 <= t < |list| => KeyTree(list[t].nodes, os[t].keys, os[t].depth))
  }

  lemma Nodes(q: seq<Str>, bits: nat, list: seq<TreeData>, os: seq<Origin>)
    requires ListGood(q, bits, list, os, 0)
    ensures forall t :: 0 <= t < |list| ==> |list[t].nodes| == Pow2(bits)
  {
    hide SubsGood, Embeds, FromStrings;
  }

  /** The bucket of a string says how its key stands to the splitters. */
  lemma BktMeans(q: seq<Str>, bits: nat, list: seq<TreeData>, os: seq<Origin>, t: nat, s: Str)
    requires bits <= WIDTH && t < |list| == |os| && TreeGood(q, bits, list[t], os[t])
    ensures BucketFor(os[t].keys, KeyAt(s, os[t].depth), TreeOf(list[t], bits).bkt(s))
    ensures TreeOf(list[t], bits).bkt(s) < 2 * |os[t].keys| + 1
  {
    hide Embeds, FromStrings, KeyAt, EqualBucket, SplitterTree.Below, IsLcpTable;
    EqualDescentFinds(list[t].nodes, KeyAt(s, os[t].depth), bits, os[t].keys);
    BelowBound(os[t].keys, KeyAt(s, os[t].depth));
  }

  lemma BelowBound(keys: seq<Key>, key: Key)
    ensures SplitterTree.Below(keys, key) <= |keys|
  {
  }

  /** The list is a forest of key trees. */
  lemma ListForest(q: seq<Str>, bits: nat, list: seq<TreeData>, os: seq<Origin>)
    requires 1 <= bits <= WIDTH && list != [] && ListGood(q, bits, list, os, 0)
    ensures forall t :: 0 <= t < |list| ==> |list[t].nodes| == Pow2(bits)
    ensures Forest(TreesOf(list, bits), Pow2(bits) - 1) && KeyTrees(TreesOf(list, bits), KeyTreesOf(list, os), bits)
  {
    hide EqualBucket, KeyAt, BucketFor, FromStrings, IsLcpTable, TreeOf;
    Nodes(q, bits, list, os);
    var trees, kts := TreesOf(list, bits), KeyTreesOf(list, os);
    forall t | 0 <= t < |list| ensures TreeGood(q, bits, list[t], os[t]) && SubsGood(os, t, list[t].sub, os[t].keys) && trees[t].sub == list[t].sub {
      SubOf(list[t], bits);
    }
    hide TreeGood, SubsGood;
    forall t | 0 <= t < |list| ensures TreeOk(kts[t], bits) && |trees[t].sub| == Pow2(bits) - 1 { GoodTree(q, bits, list[t], os[t]); }
    forall t, s | 0 <= t < |list| ensures trees[t].bkt(s) == BucketIn(kts[t], bits, s) && trees[t].bkt(s) < 2 * (Pow2(bits) - 1) + 1 {
      GoodTree(q, bits, list[t], os[t]);
      BktMeans(q, bits, list, os, t, s);
      BktIs(list[t], os[t], bits, s);
    }
    forall t, i | 0 <= t < |list| && 0 <= i < |trees[t].sub| && trees[t].sub[i] != 0
      ensures i < |os[t].keys| && Attached(os, t, os[t].keys[i], i, trees[t].sub[i])
    {
      GoodSub(os, t, list[t].sub, os[t].keys, i);
    }
    hide TreeOk;
  }

  lemma SubOf(d: TreeData, bits: nat)
    requires |d.nodes| == Pow2(bits) && bits <= WIDTH
    ensures TreeOf(d, bits).sub == d.sub
  {
  }

  lemma GoodTree(q: seq<Str>, bits: nat, d: TreeData, o: Origin)
    requires TreeGood(q, bits, d, o)
    ensures TreeOk(KeyTree(d.nodes, o.keys, o.depth), bits) && |d.sub| == |o.keys| == Pow2(bits) - 1 && d.depth == o.depth
  {
  }

  lemma BktIs(d: TreeData, o: Origin, bits: nat, s: Str)
    requires bits <= WIDTH && d.depth == o.depth && TreeOk(KeyTree(d.nodes, o.keys, o.depth), bits)
    ensures TreeOf(d, bits).bkt(s) == BucketIn(KeyTree(d.nodes, o.keys, o.depth), bits, s)
  {
  }

  lemma GoodSub(os: seq<Origin>, t: nat, sub: seq<nat>, keys: seq<Key>, i: nat)
    requires SubsGood(os, t, sub, keys) && i < |sub| && sub[i] != 0
    ensures i < |keys| && Attached(os, t, keys[i], i, sub[i])
  {
  }

  // ---- one call of the sorter ------------------------------------------------------------------------

  /** The strings of the call, the trees built from samples of them, and the sizes of all buckets. */
  datatype Call = Call(q: seq<Str>, bits: nat, list: seq<TreeData>, os: seq<Origin>, sizes: seq<seq<nat>>)

  ghost predicate CallOk(c: Call) {
    && 2 <= c.bits <= WIDTH && c.list != [] && ListGood(c.q, c.bits, c.list, c.os, 0)
    && (forall t :: 0 <= t < |c.list| ==> |c.list[t].nodes| == Pow2(c.bits))
    && SizesOk(Trees(c), c.q, c.sizes, 2 * (Pow2(c.bits) - 1) + 1)
    && c.q != [] && c.os[0].rep == c.q[0] && CommonPrefix(c.q, c.os[0].depth)
  }

  ghost function Trees(c: Call): (trees: seq<Tree>)
    requires c.bits <= WIDTH && forall t :: 0 <= t < |c.list| ==> |c.list[t].nodes| == Pow2(c.bits)
    ensures |trees| == |c.list|
  {
    TreesOf(c.list, c.bits)
  }

  lemma CallForest(c: Call)
    requires CallOk(c)
    ensures Forest(Trees(c), Pow2(c.bits) - 1) && KeyTrees(Trees(c), KeyTreesOf(c.list, c.os), c.bits) && |c.os| == |c.list|
  {
    hide ListGood, SizesOk, CommonPrefix;
    ListForest(c.q, c.bits, c.list, c.os);
    ListSizes(c.q, c.bits, c.list, c.os);
  }

  lemma ListSizes(q: seq<Str>, bits: nat, list: seq<TreeData>, os: seq<Origin>)
    requires ListGood(q, bits, list, os, 0)
    ensures |list| == |os|
  {
  }

  /** What is known of tree t. */
  lemma TreeFacts(c: Call, t: nat)
    requires CallOk(c) && t < |c.list|
    ensures 2 <= c.bits <= WIDTH && forall u :: 0 <= u < |c.list| ==> |c.list[u].nodes| == Pow2(c.bits)
    ensures |c.os| == |c.list| && |c.sizes| == |c.list| && TreeGood(c.q, c.bits, c.list[t], c.os[t])
    ensures SubsGood(c.os, t, c.list[t].sub, c.os[t].keys) && |c.os[t].keys| == Pow2(c.bits) - 1 >= 3
    ensures |c.sizes[t]| == 2 * |c.os[t].keys| + 1 && IsSizes(Via(Trees(c), c.q, t), Trees(c)[t].bkt, c.sizes[t])
    ensures Trees(c)[t] == TreeOf(c.list[t], c.bits) && Trees(c)[t].sub == c.list[t].sub && c.list[t].depth == c.os[t].depth
  {
    hide SubsGood, IsSizes, Embeds, FromStrings, IsLcpTable, SortedKeys, CommonPrefix, Via;
    TreeSize(c.bits);
  }

  lemma {:induction false} Shares(c: Call, t: nat, s: Str)
    requires CallOk(c) && t < |c.list| && s in c.q && Passes(Trees(c), 0, s, t)
    ensures |c.os| == |c.list| && SamePrefix(s, c.os[t].rep, c.os[t].depth)
    decreases t
  {
    hide CallOk, TreeGood, SubsGood, IsSizes, KeyAt, TreeOf, Passes, Forest, KeyTrees;
    TreeFacts(c, t);
    if t == 0 {
      FirstShares(c, s);
    } else {
      CallForest(c);
      var p := ComesFrom(Trees(c), 0, s, t);
      TreeFacts(c, p);
      Shares(c, p, s);
      BktMeans(c.q, c.bits, c.list, c.os, p, s);
      var i := Trees(c)[p].bkt(s) / 2;
      GoodSub(c.os, p, c.list[p].sub, c.os[p].keys, i);
      KeysEqualLong(s, c.os[t].rep, c.os[p].depth);
    }
  }

  lemma FirstShares(c: Call, s: Str)
    requires CallOk(c) && s in c.q && |c.os| == |c.list|
    ensures SamePrefix(s, c.os[0].rep, c.os[0].depth)
  {
    hide ListGood, SizesOk;
    var i :| 0 <= i < |c.q| && c.q[i] == s;
    assert SamePrefix(c.q[i], c.q[0], c.os[0].depth);
  }

  // ---- strings of one bucket of one tree ------------------------------------------------------------------

  /** x comes through tree t and goes to bucket b. */
  ghost predicate Goes(c: Call, t: nat, b: nat, x: Str)
    requires CallOk(c)
  {
    t < |c.list| && x in c.q && Passes(Trees(c), 0, x, t) && Trees(c)[t].bkt(x) == b
  }

  ghost predicate AllGo(c: Call, t: nat, b: nat, w: seq<Str>)
    requires CallOk(c)
  {
    forall s :: s in w ==> Goes(c, t, b, s)
  }

  lemma GoesFacts(c: Call, t: nat, b: nat, x: Str)
    requires CallOk(c) && Goes(c, t, b, x)
    ensures t < |c.os| == |c.list| && SamePrefix(x, c.os[t].rep, c.os[t].depth) && BucketFor(c.os[t].keys, KeyAt(x, c.os[t].depth), b)
    ensures SortedKeys(c.os[t].keys) && FromStrings(c.q, c.os[t].depth, c.os[t].rep, c.os[t].keys)
  {
    hide CallOk, SubsGood, IsSizes, KeyAt, TreeOf, Passes, BucketFor, SortedKeys, FromStrings, Embeds, IsLcpTable;
    TreeFacts(c, t);
    Shares(c, t, x);
    BktMeans(c.q, c.bits, c.list, c.os, t, x);
  }

  /** Strings of a bucket without done mark agree as far as the recursion skips. */
  lemma BucketShares(c: Call, t: nat, b: nat, x: Str, y: Str)
    requires CallOk(c) && Goes(c, t, b, x) && Goes(c, t, b, y) && t < |c.os| && SampleSort.Open(c.os[t].keys, b)
    ensures SamePrefix(x, y, c.os[t].depth + SampleSort.Deeper(c.os[t].keys, b))
  {
    hide CallOk, Goes, KeyAt, SplitterTree.Below, SortedKeys, LcpKeyType;
    GoesFacts(c, t, b, x);
    GoesFacts(c, t, b, y);
    var keys, d := c.os[t].keys, c.os[t].depth;
    assert SamePrefix(x, y, d);
    if b % 2 == 1 {
      KeysEqualLong(x, y, d);
    } else if 0 < b / 2 < |keys| {
      BelowSplits(keys, KeyAt(x, d));
      BelowSplits(keys, KeyAt(y, d));
      var lo, hi := keys[b / 2 - 1], keys[b / 2];
      assert lo in keys && hi in keys;
      var p :| 0 <= p < |c.q| && SamePrefix(c.q[p], c.os[t].rep, d) && KeyAt(c.q[p], d) == lo;
      var r :| 0 <= r < |c.q| && SamePrefix(c.q[r], c.os[t].rep, d) && KeyAt(c.q[r], d) == hi;
      assert SamePrefix(c.q[p], x, d) && SamePrefix(c.q[r], x, d);
      KeysBetween(x, x, y, d, lo, hi);
    }
  }

  lemma BucketEqual(c: Call, t: nat, b: nat, x: Str, y: Str)
    requires CallOk(c) && Goes(c, t, b, x) && Goes(c, t, b, y) && t < |c.os| && b % 2 == 1 && b / 2 < |c.os[t].keys| && c.os[t].keys[b / 2] % 256 == 0
    ensures x == y
  {
    hide CallOk, Goes, KeyAt, SplitterTree.Below, SortedKeys, FromStrings;
    GoesFacts(c, t, b, x);
    GoesFacts(c, t, b, y);
    assert SamePrefix(x, y, c.os[t].depth);
    KeysEqualShort(x, y, c.os[t].depth);
  }

  /** The order of the buckets is the order of the strings. */
  lemma BucketLeq(c: Call, t: nat, b: nat, b': nat, x: Str, y: Str)
    requires CallOk(c) && Goes(c, t, b, x) && Goes(c, t, b', y) && b < b'
    ensures Leq(x, y)
  {
    hide CallOk, KeyAt, SortedKeys, FromStrings, BucketFor, Leq, Lcp, Forest, KeyTrees, Passes, TreeGood, SubsGood, IsSizes;
    TreeFacts(c, t);
    GoesFacts(c, t, b, x);
    GoesFacts(c, t, b', y);
    CallForest(c);
    assert SamePrefix(x, y, c.os[t].depth);
    BucketsTell(Trees(c), KeyTreesOf(c.list, c.os), c.bits, t, x, y);
    LessLeq(x, y);
  }

  // ---- recursion over the buckets of a tree ---------------------------------------------------------------

  /** r holds the strings of tree t in the order of their routes. */
  ghost predicate InTree(c: Call, t: nat, r: seq<Str>)
    requires CallOk(c)
  {
    t < |c.list| && multiset(r) == multiset(Via(Trees(c), c.q, t)) && RouteSorted(Trees(c), t, r)
  }

  ghost predicate RestKept(before: seq<Str>, now: seq<Str>, x: nat, y: nat) {
    |now| == |before| && forall p :: x <= p < y && p < |before| ==> now[p] == before[p]
  }

  /** Buckets before b are sorted, those from b on are as they were. */
  ghost predicate AtBucket(c: Call, t: nat, before: seq<Str>, now: seq<Str>, lo: nat, n: nat, b: nat)
    requires CallOk(c)
  {
    && lo + n <= |before| && t < |c.list| && |c.sizes| == |c.list| && b <= |c.sizes[t]| && InTree(c, t, before[lo..lo + n])
    && Recursing(before, now, lo, n, c.sizes[t], Trees(c)[t].bkt, b)
    && RestKept(before, now, lo + Start(c.sizes[t], b), lo + n)
  }

  lemma InTreeGoes(c: Call, t: nat, r: seq<Str>, i: nat)
    requires CallOk(c) && InTree(c, t, r) && i < |r|
    ensures Goes(c, t, Trees(c)[t].bkt(r[i]), r[i])
  {
    hide CallOk, Passes, RouteSorted, Via, TreeGood, SubsGood, IsSizes;
    TreeFacts(c, t);
    ViaIn(Trees(c), c.q, t);
    SameElements(Via(Trees(c), c.q, t), r, r[i]);
  }

  lemma RouteAscending(trees: seq<Tree>, t: nat, r: seq<Str>)
    requires t < |trees| && RouteSorted(trees, t, r)
    ensures Ascending(r, trees[t].bkt)
  {
    forall i, j | 0 <= i < j < |r| ensures trees[t].bkt(r[i]) <= trees[t].bkt(r[j]) { assert RouteLeq(trees, t, r[i], r[j]); }
  }

  lemma TreeBegins(c: Call, t: nat, before: seq<Str>, lo: nat, n: nat)
    requires CallOk(c) && lo + n <= |before| && InTree(c, t, before[lo..lo + n])
    ensures t < |c.list| && AtBucket(c, t, before, before, lo, n, 0)
  {
    hide CallOk, RouteSorted, Via, IsSizes, InBuckets, TreeGood, SubsGood, Ascending, Recursing;
    TreeFacts(c, t);
    var r, f := before[lo..lo + n], Trees(c)[t].bkt;
    SameSizes(Via(Trees(c), c.q, t), r, f, c.sizes[t]);
    RouteAscending(Trees(c), t, r);
    AscendingPlaces(r, f, c.sizes[t]);
    StartRecursing(before, before, lo, n, c.sizes[t], f);
  }

  /** The strings of the next bucket, where they stand. */
  lemma BucketNow(c: Call, t: nat, before: seq<Str>, now: seq<Str>, lo: nat, n: nat, b: nat)
    requires CallOk(c) && AtBucket(c, t, before, now, lo, n, b) && b < |c.sizes[t]|
    ensures |now| == |before| && Start(c.sizes[t], b) + c.sizes[t][b] == Start(c.sizes[t], b + 1) <= n
    ensures var x, m := lo + Start(c.sizes[t], b), c.sizes[t][b];
            x + m <= lo + n <= |now| && now[x..x + m] == before[x..x + m] && AllGo(c, t, b, now[x..x + m])
  {
    hide CallOk, Goes, InTree, Recursing, TreeGood, SubsGood, IsSizes, Start;
    TreeFacts(c, t);
    var size, f := c.sizes[t], Trees(c)[t].bkt;
    NowPlaces(before, now, lo, n, size, f, b);
    var x, m := lo + Start(size, b), size[b];
    assert now[x..x + m] == before[x..x + m];
    forall s | s in now[x..x + m] ensures Goes(c, t, b, s) {
      var i :| 0 <= i < m && now[x..x + m][i] == s;
      assert s == now[x + i] == before[x + i] == before[lo..lo + n][x + i - lo];
      InTreeGoes(c, t, before[lo..lo + n], x + i - lo);
    }
  }

  lemma NowPlaces(before: seq<Str>, now: seq<Str>, lo: nat, n: nat, size: seq<nat>, f: Str -> nat, b: nat)
    requires Recursing(before, now, lo, n, size, f, b) && b < |size|
    ensures Start(size, b) + size[b] == Start(size, b + 1) <= n && lo + n <= |now| == |before|
    ensures forall p :: lo + Start(size, b) <= p < lo + Start(size, b) + size[b] ==> f(now[p]) == b
  {
    hide Recursing;
    BucketStrings(before, now, lo, n, size, f, b, b);
  }

  /** Everything the recursive call on an open bucket relies on. */
  lemma SegmentReady(c: Call, t: nat, b: nat, w: seq<Str>, maxLen: nat)
    requires CallOk(c) && t < |c.os| && w != [] && Bounded(c.q, maxLen) && SampleSort.Open(c.os[t].keys, b)
    requires AllGo(c, t, b, w)
    ensures CommonPrefix(w, c.os[t].depth + SampleSort.Deeper(c.os[t].keys, b)) && Bounded(w, maxLen)
    ensures c.os[t].depth + SampleSort.Deeper(c.os[t].keys, b) <= maxLen
  {
    hide CallOk, SampleSort.Open, SampleSort.Deeper;
    var d := c.os[t].depth + SampleSort.Deeper(c.os[t].keys, b);
    forall i, j | 0 <= i < |w| && 0 <= j < |w| ensures SamePrefix(w[i], w[j], d) {
      assert Goes(c, t, b, w[i]) && Goes(c, t, b, w[j]);
      BucketShares(c, t, b, w[i], w[j]);
    }
    forall i | 0 <= i < |w| ensures |w[i]| <= maxLen {
      assert Goes(c, t, b, w[i]);
      var j :| 0 <= j < |c.q| && c.q[j] == w[i];
    }
    assert SamePrefix(w[0], w[0], d) && |w[0]| <= maxLen;
  }

  lemma SegmentEqual(c: Call, t: nat, before: seq<Str>, now: seq<Str>, lo: nat, n: nat, b: nat)
    requires CallOk(c) && t < |c.list| && t < |c.os| && AtBucket(c, t, before, now, lo, n, b) && b < |c.sizes[t]|
    requires b % 2 == 1 && b / 2 < |c.os[t].keys| && c.os[t].keys[b / 2] % 256 == 0
    ensures lo + n <= |now| && BucketSorted(now[lo..lo + n], c.sizes[t], b)
  {
    hide CallOk, AtBucket, Goes, Leq, Start, TreeGood, SubsGood, IsSizes;
    TreeFacts(c, t);
    BucketNow(c, t, before, now, lo, n, b);
    var x, m := lo + Start(c.sizes[t], b), c.sizes[t][b];
    var r := now[lo..lo + n];
    forall i, j | Start(c.sizes[t], b) <= i < j < Start(c.sizes[t], b + 1) ensures Leq(r[i], r[j]) {
      var w := now[x..x + m];
      assert r[i] == w[lo + i - x] && r[j] == w[lo + j - x];
      BucketEqual(c, t, b, r[i], r[j]);
      LeqTotal(r[i], r[j]);
    }
  }

  /** The strings of an equal bucket with an attached tree are that tree's strings, in the order of their routes. */
  lemma SegmentAttached(c: Call, t: nat, before: seq<Str>, now: seq<Str>, lo: nat, n: nat, i: nat)
    requires CallOk(c) && AtBucket(c, t, before, now, lo, n, 2 * i + 1) && 2 * i + 1 < |c.sizes[t]|
    requires i < |c.list[t].sub| && c.list[t].sub[i] != 0
    ensures var x, m := lo + Start(c.sizes[t], 2 * i + 1), c.sizes[t][2 * i + 1];
            x + m <= |now| && t < c.list[t].sub[i] < |c.list| && InTree(c, c.list[t].sub[i], now[x..x + m])
  {
    hide CallOk, RouteSorted, Via, IsSizes, TreeGood, SubsGood, Recursing, Forest, KeyTrees, InBucket, Start;
    var b, u := 2 * i + 1, c.list[t].sub[i];
    TreeFacts(c, t);
    CallForest(c);
    BucketNow(c, t, before, now, lo, n, b);
    var x, m := lo + Start(c.sizes[t], b), c.sizes[t][b];
    var r, w, f := before[lo..lo + n], before[x..x + m], Trees(c)[t].bkt;
    SubHere(Trees(c), Pow2(c.bits) - 1, t, i);
    ViaAttached(Trees(c), Pow2(c.bits) - 1, c.q, t, i);
    SameInBucket(Via(Trees(c), c.q, t), r, f, b);
    SegmentIs(c, t, before, now, lo, n, b);
    SubSlice(before, lo, lo + n, x, x + m);
    SliceRoutes(Trees(c), t, r, x - lo, m, b, u);
  }

  lemma SubHere(trees: seq<Tree>, ns: nat, t: nat, i: nat)
    requires Forest(trees, ns) && t < |trees| && i < |trees[t].sub| && trees[t].sub[i] != 0
    ensures i < ns && t < trees[t].sub[i] < |trees|
  {
  }

  /** The strings of a bucket, as a slice and as a selection. */
  lemma {:induction false} SliceSelects(r: seq<Str>, f: Str -> nat, b: nat, x: nat, m: nat)
    requires x + m <= |r| && forall p :: 0 <= p < |r| ==> (f(r[p]) == b <==> x <= p < x + m)
    ensures InBucket(r, f, b) == r[x..x + m]
  {
    if r != [] {
      var n := |r| - 1;
      if x + m == |r| && m > 0 {
        SliceSelects(r[..n], f, b, x, m - 1);
        assert r[x..x + m] == r[..n][x..x + m - 1] + [r[n]];
      } else if m == 0 {
        SliceSelects(r[..n], f, b, 0, 0);
      } else {
        SliceSelects(r[..n], f, b, x, m);
        assert r[x..x + m] == r[..n][x..x + m];
      }
    }
  }

  lemma SegmentIs(c: Call, t: nat, before: seq<Str>, now: seq<Str>, lo: nat, n: nat, b: nat)
    requires CallOk(c) && AtBucket(c, t, before, now, lo, n, b) && b < |c.sizes[t]|
    ensures var x, m := Start(c.sizes[t], b), c.sizes[t][b];
            x + m <= n && InBucket(before[lo..lo + n], Trees(c)[t].bkt, b) == before[lo..lo + n][x..x + m]
  {
    hide CallOk, InTree, Goes, TreeGood, SubsGood, IsSizes, InBuckets, InBucket, Start;
    TreeFacts(c, t);
    var r, size, f := before[lo..lo + n], c.sizes[t], Trees(c)[t].bkt;
    TreeBegins(c, t, before, lo, n);
    BeginsPlaced(before, lo, n, size, f);
    PlacesOf(r, size, f, b);
    SliceSelects(r, f, b, Start(size, b), size[b]);
  }

  lemma BeginsPlaced(before: seq<Str>, lo: nat, n: nat, size: seq<nat>, f: Str -> nat)
    requires Recursing(before, before, lo, n, size, f, 0)
    ensures InBuckets(before[lo..lo + n], size, f)
  {
  }

  lemma PlacesOf(r: seq<Str>, size: seq<nat>, f: Str -> nat, b: nat)
    requires InBuckets(r, size, f) && b < |size|
    ensures Start(size, b) + size[b] == Start(size, b + 1) <= |r|
    ensures forall p :: 0 <= p < |r| ==> (f(r[p]) == b <==> Start(size, b) <= p < Start(size, b) + size[b])
  {
    StartMono(size, b + 1, |size|);
    forall p | 0 <= p < |r| ensures f(r[p]) == b <==> Start(size, b) <= p < Start(size, b) + size[b] {
      var d := FindBucket(size, |size|, p);
      if Start(size, b) <= p < Start(size, b + 1) { SameBucket(size, b, d, p); }
    }
  }

  /** Within an equal bucket the routes go on through the attached tree. */
  lemma SliceRoutes(trees: seq<Tree>, t: nat, r: seq<Str>, x: nat, m: nat, b: nat, u: nat)
    requires t < u < |trees| && x + m <= |r| && RouteSorted(trees, t, r) && b % 2 == 1 && b / 2 < |trees[t].sub| && trees[t].sub[b / 2] == u
    requires forall s :: s in r[x..x + m] ==> trees[t].bkt(s) == b
    ensures RouteSorted(trees, u, r[x..x + m])
  {
    var w := r[x..x + m];
    forall i, j | 0 <= i < j < |w| ensures RouteLeq(trees, u, w[i], w[j]) {
      assert w[i] == r[x + i] && w[j] == r[x + j];
      assert RouteLeq(trees, t, r[x + i], r[x + j]);
    }
  }

  lemma BucketSortedNext(c: Call, t: nat, before: seq<Str>, now: seq<Str>, next: seq<Str>, lo: nat, n: nat, b: nat)
    requires CallOk(c) && AtBucket(c, t, before, now, lo, n, b) && b < |c.sizes[t]|
    requires SortedResult(now, next, lo + Start(c.sizes[t], b), c.sizes[t][b])
    ensures AtBucket(c, t, before, next, lo, n, b + 1)
  {
    hide CallOk, InTree, Recursing, SortedIn, TreeGood, SubsGood, IsSizes;
    TreeFacts(c, t);
    NowPlaces(before, now, lo, n, c.sizes[t], Trees(c)[t].bkt, b);
    Recursed(before, now, next, lo, n, c.sizes[t], Trees(c)[t].bkt, b);
  }

  lemma BucketSkippedNext(c: Call, t: nat, before: seq<Str>, now: seq<Str>, lo: nat, n: nat, b: nat)
    requires CallOk(c) && AtBucket(c, t, before, now, lo, n, b) && b < |c.sizes[t]| && lo + n <= |now|
    requires c.sizes[t][b] <= 1 || BucketSorted(now[lo..lo + n], c.sizes[t], b)
    ensures AtBucket(c, t, before, now, lo, n, b + 1)
  {
    hide CallOk, InTree, Recursing, SortedIn, TreeGood, SubsGood, IsSizes;
    TreeFacts(c, t);
    NowPlaces(before, now, lo, n, c.sizes[t], Trees(c)[t].bkt, b);
    Skipped(before, now, lo, n, c.sizes[t], Trees(c)[t].bkt, b);
  }

  /** All buckets are sorted, so all strings are. */
  lemma TreeEnds(c: Call, t: nat, before: seq<Str>, now: seq<Str>, lo: nat, n: nat)
    requires CallOk(c) && t < |c.sizes| && t < |c.list| && AtBucket(c, t, before, now, lo, n, |c.sizes[t]|)
    ensures SortedResult(before, now, lo, n)
  {
    hide CallOk, RouteSorted, Via, Goes, Leq, SortedResult, Start, TreeGood, SubsGood, IsSizes, Recursing, InTree;
    TreeFacts(c, t);
    NowSame(before, now, lo, n, c.sizes[t], Trees(c)[t].bkt);
    var r, q, f := now[lo..lo + n], before[lo..lo + n], Trees(c)[t].bkt;
    forall i, j | 0 <= i < |r| && 0 <= j < |r| && f(r[i]) < f(r[j]) ensures Leq(r[i], r[j]) {
      var x := ElementOf(q, r, i);
      var y := ElementOf(q, r, j);
      InTreeGoes(c, t, q, x);
      InTreeGoes(c, t, q, y);
      BucketLeq(c, t, f(r[i]), f(r[j]), r[i], r[j]);
    }
    Finished(before, now, lo, n, c.sizes[t], f);
  }

  lemma NowSame(before: seq<Str>, now: seq<Str>, lo: nat, n: nat, size: seq<nat>, f: Str -> nat)
    requires Recursing(before, now, lo, n, size, f, |size|)
    ensures lo + n <= |now| == |before| && multiset(now[lo..lo + n]) == multiset(before[lo..lo + n])
  {
    hide InBuckets, BucketsSorted;
  }

  lemma ElementOf(q: seq<Str>, r: seq<Str>, i: nat) returns (x: nat)
    requires multiset(q) == multiset(r) && i < |r|
    ensures x < |q| && q[x] == r[i]
  {
    SameElements(q, r, r[i]);
    x :| x < |q| && q[x] == r[i];
  }

  /** A splitter of the first tree is the key of a string of the call, so no bucket between splitters has them all. */
  lemma FirstSmaller(c: Call, before: seq<Str>, now: seq<Str>, lo: nat, n: nat, b: nat)
    requires CallOk(c) && AtBucket(c, 0, before, now, lo, n, b) && b < |c.sizes[0]| && b % 2 == 0
    ensures c.sizes[0][b] < n
  {
    hide CallOk, RouteSorted, KeyAt, TreeGood, SubsGood, IsSizes, BucketFor, Recursing, Via, Start, TreeOf;
    TreeFacts(c, 0);
    SegmentIs(c, 0, before, now, lo, n, b);
    var r, f := before[lo..lo + n], Trees(c)[0].bkt;
    var i := FirstSplitter(c);
    ViaRoot(Trees(c), c.q);
    var x := ElementOf(r, c.q, i);
    BktMeans(c.q, c.bits, c.list, c.os, 0, c.q[i]);
    SelectionMisses(r, f, b, x);
  }

  lemma FirstSplitter(c: Call) returns (i: nat)
    requires CallOk(c) && c.list != []
    ensures i < |c.q| && |c.os| > 0 && KeyAt(c.q[i], c.os[0].depth) in c.os[0].keys
    ensures forall b :: BucketFor(c.os[0].keys, KeyAt(c.q[i], c.os[0].depth), b) ==> b % 2 == 1
  {
    hide CallOk, KeyAt, SubsGood, IsSizes, TreeOf;
    TreeFacts(c, 0);
    var keys := c.os[0].keys;
    assert keys[0] in keys;
    i :| 0 <= i < |c.q| && SamePrefix(c.q[i], c.os[0].rep, c.os[0].depth) && KeyAt(c.q[i], c.os[0].depth) == keys[0];
  }

  lemma {:induction false} SelectionMisses(r: seq<Str>, f: Str -> nat, b: nat, x: nat)
    requires x < |r| && f(r[x]) != b
    ensures |InBucket(r, f, b)| < |r|
  {
    var n := |r| - 1;
    if x < n { SelectionMisses(r[..n], f, b, x); } else { InBucketShorter(r[..n], f, b); }
  }

  lemma {:induction false} InBucketShorter(r: seq<Str>, f: Str -> nat, b: nat)
    ensures |InBucket(r, f, b)| <= |r|
  {
    if r != [] { InBucketShorter(r[..|r| - 1], f, b); }
  }

  // ---- the algorithm ------------------------------------------------------------------------------------------------

  method DrawSamples(q: seq<Str>, depth: nat, samplesize: nat) returns (samples: array<Sample>)
    requires q != [] && CommonPrefix(q, depth)
    ensures fresh(samples) && samples.Length == samplesize
    ensures forall i :: 0 <= i < samplesize ==> SampleOk(q, depth, q[0], samples[i])
  {
    hide KeyAt;
    samples := new Sample[samplesize](_ => Sample(0, 0));
    for i := 0 to samplesize
      invariant forall k :: 0 <= k < i ==> SampleOk(q, depth, q[0], samples[k])
    {
      var r: nat :| r < |q|;
      samples[i] := Sample(KeyAt(q[r], depth), r);
    }
  }

  /** Steps 1 and 1.5: samples, sorted, and the trees built from them. */
  method GrowTrees(q: seq<Str>, depth: nat, cfg: Config) returns (list: seq<TreeData>, ghost os: seq<Origin>)
    requires cfg.Valid() && q != [] && CommonPrefix(q, depth)
    ensures list != [] && ListGood(q, cfg.bits, list, os, 0) && |os| == |list| && os[0].depth == depth && os[0].rep == q[0]
  {
    hide SampleOk, CommonPrefix, SortSamples, Pow2;
    TreeSize(cfg.bits);
    var numsplitters := Pow2(cfg.bits) - 1;
    var samplesize := SampleSort.OVERSAMPLE_FACTOR * numsplitters;
    var samples := DrawSamples(q, depth, samplesize);
    ghost var drawn := samples[..];
    SortRun(samples, 0, samplesize);
    assert drawn[0..samplesize] == drawn && samples[0..samplesize] == samples[..];
    forall i | 0 <= i < samplesize ensures SampleOk(q, depth, q[0], samples[i]) {
      assert samples[..][i] in SortSamples(drawn);
    }
    list, os := BuildTree(numsplitters, q, depth, samples, 0, samplesize, [], [], cfg.bits, q[0], 0, 0);
  }

  lemma CallReady(c: Call)
    requires 2 <= c.bits <= WIDTH && c.list != [] && ListGood(c.q, c.bits, c.list, c.os, 0)
    requires forall t :: 0 <= t < |c.list| ==> |c.list[t].nodes| == Pow2(c.bits)
    requires SizesOk(Trees(c), c.q, c.sizes, 2 * (Pow2(c.bits) - 1) + 1)
    requires c.q != [] && |c.os| == |c.list| && c.os[0].rep == c.q[0] && CommonPrefix(c.q, c.os[0].depth)
    ensures CallOk(c)
  {
    hide ListGood, SizesOk, CommonPrefix;
  }

  lemma RootOrder(c: Call, r: seq<Str>)
    requires CallOk(c) && multiset(r) == multiset(c.q) && RouteSorted(Trees(c), 0, r)
    ensures InTree(c, 0, r)
  {
    hide ListGood, SizesOk, CommonPrefix, RouteSorted;
    ViaRoot(Trees(c), c.q);
  }

  /** Steps 2 to 4: classification through the trees, bucket sizes, permutation. */
  method ClassifyCountPermute(strings: array<Str>, lo: nat, n: nat, bits: nat, list: seq<TreeData>, ghost os: seq<Origin>)
    returns (sizes: seq<seq<nat>>, ghost c: Call)
    requires 2 <= bits <= WIDTH && lo + n <= strings.Length && n > 0 && list != []
    requires ListGood(strings[lo..lo + n], bits, list, os, 0) && |os| == |list|
    requires os[0].rep == strings[lo] && CommonPrefix(strings[lo..lo + n], os[0].depth)
    modifies strings
    ensures c == Call(old(strings[lo..lo + n]), bits, list, os, sizes) && CallOk(c) && InTree(c, 0, strings[lo..lo + n])
    ensures LcpOutput.OutsideKept(old(strings[..]), strings[..], lo, lo + n)
  {
    hide ListGood, Forest, KeyTrees, CommonPrefix, SizesOk, RouteSorted, Reach, TreeOf;
    ghost var q := strings[lo..lo + n];
    ListForest(q, bits, list, os);
    var ns, trees := Pow2(bits) - 1, TreesOf(list, bits);
    var caches := ClassifyStrings(trees, strings, lo, n, ns);
    sizes := AllSizes(trees, ns, caches, q);
    c := Call(q, bits, list, os, sizes);
    CallReady(c);
    var sorted := new Str[n](_ => []);
    RecursivePermute(trees, ns, 0, caches, strings, sorted, lo, n, q);
    RootOrder(c, strings[lo..lo + n]);
  }

  lemma PermutedResult(before: seq<Str>, mid: seq<Str>, after: seq<Str>, lo: nat, n: nat)
    requires lo + n <= |before| && LcpOutput.OutsideKept(before, mid, lo, lo + n)
    requires multiset(mid[lo..lo + n]) == multiset(before[lo..lo + n]) && SortedResult(mid, after, lo, n)
    ensures SortedResult(before, after, lo, n)
  {
    hide SortedIn;
    RearrangedAgain(before, mid, after, lo, lo + n, lo, lo + n);
  }

  lemma InTreeRoot(c: Call, r: seq<Str>)
    requires CallOk(c) && InTree(c, 0, r)
    ensures multiset(r) == multiset(c.q) && |r| == |c.q| && c.list != [] && |c.os| == |c.list| == |c.sizes|
  {
    hide ListGood, CommonPrefix, RouteSorted, IsSizes;
    ViaRoot(Trees(c), c.q);
    ListSizes(c.q, c.bits, c.list, c.os);
    assert |multiset(r)| == |multiset(c.q)|;
  }

  /** The strings lo to lo + n, which agree on depth characters, are sorted in place. */
  method Sort(strings: array<Str>, lo: nat, n: nat, depth: nat, cfg: Config, ghost maxLen: nat)
    requires cfg.Valid() && lo + n <= strings.Length
    requires CommonPrefix(strings[lo..lo + n], depth) && Bounded(strings[lo..lo + n], maxLen)
    modifies strings
    ensures SortedResult(old(strings[..]), strings[..], lo, n)
    decreases SampleSort.Left(maxLen, depth), n, 1, 0, 0
  {
    hide CommonPrefix, Bounded, ListGood, CallOk, InTree, SortedResult, LcpOutput.OutsideKept, SampleSort.Left;
    if n < cfg.smallsort {
      RadixSort.MsdCI(strings, lo, n, depth, cfg.insertion, maxLen);
      return;
    }
    ghost var before, q := strings[..], strings[lo..lo + n];
    var list;
    ghost var os;
    list, os := GrowTrees(strings[lo..lo + n], depth, cfg);
    var sizes;
    ghost var c;
    sizes, c := ClassifyCountPermute(strings, lo, n, cfg.bits, list, os);
    ghost var mid := strings[..];
    InTreeRoot(c, strings[lo..lo + n]);
    RecursiveSort(strings, lo, n, 0, list, sizes, depth, cfg, c, maxLen, n);
    PermutedResult(before, mid, strings[..], lo, n);
  }

  /** A call below is given fewer strings, or strings that are known to agree on more characters. */
  ghost predicate Budget(c: Call, t: nat, n: nat, n0: nat) {
    t < |c.os| && (if t == 0 then n <= n0 else c.os[t].depth > c.os[0].depth)
  }

  lemma LeafSmaller(c: Call, t: nat, before: seq<Str>, now: seq<Str>, lo: nat, n: nat, b: nat, n0: nat, maxLen: nat)
    requires CallOk(c) && t < |c.list| && AtBucket(c, t, before, now, lo, n, b) && b < |c.sizes[t]| && Budget(c, t, n, n0)
    requires c.os[t].depth + SampleSort.Deeper(c.os[t].keys, b) <= maxLen
    ensures var d, d0 := c.os[t].depth + SampleSort.Deeper(c.os[t].keys, b), c.os[0].depth;
            (d == d0 && c.sizes[t][b] < n0) || SampleSort.Left(maxLen, d) < SampleSort.Left(maxLen, d0)
  {
    hide CallOk, AtBucket;
    if t == 0 && b % 2 == 0 { FirstSmaller(c, before, now, lo, n, b); }
  }

  /** One bucket by a call of its own, if it has more than min strings. */
  method SortLeaf(strings: array<Str>, lo: nat, n: nat, bsum: nat, m: nat, min: nat, d: nat, cfg: Config,
                  ghost t: nat, ghost b: nat, ghost c: Call, ghost before: seq<Str>, ghost maxLen: nat, ghost n0: nat)
    requires cfg.Valid() && min <= 1 && CallOk(c) && t < |c.list| && Budget(c, t, n, n0) && Bounded(c.q, maxLen)
    requires |before| == strings.Length && AtBucket(c, t, before, strings[..], lo, n, b) && b < |c.sizes[t]|
    requires bsum == Start(c.sizes[t], b) && m == c.sizes[t][b]
    requires SampleSort.Open(c.os[t].keys, b) && d == c.os[t].depth + SampleSort.Deeper(c.os[t].keys, b)
    modifies strings
    ensures AtBucket(c, t, before, strings[..], lo, n, b + 1)
    decreases SampleSort.Left(maxLen, c.os[0].depth), n0, 0, |c.list| - t, 0
  {
    hide CallOk, AtBucket, Bounded, CommonPrefix, SortedResult, Start, Goes, SampleSort.Deeper, SampleSort.Open, SampleSort.Left, AllGo;
    ghost var now := strings[..];
    BucketNow(c, t, before, now, lo, n, b);
    if m > min {
      SegmentReady(c, t, b, now[lo + bsum..lo + bsum + m], maxLen);
      LeafSmaller(c, t, before, now, lo, n, b, n0, maxLen);
      Sort(strings, lo + bsum, m, d, cfg, maxLen);
      BucketSortedNext(c, t, before, now, strings[..], lo, n, b);
    } else {
      BucketSkippedNext(c, t, before, now, lo, n, b);
    }
  }

  /** What the tree's arrays say about the buckets at splitter i. */
  lemma SplitterFacts(c: Call, t: nat, i: nat)
    requires CallOk(c) && t < |c.list| && |c.os| == |c.list| && i < |c.os[t].keys|
    ensures i < |c.list[t].lcp| && i < |c.list[t].sub| && |c.sizes| == |c.list| && |c.sizes[t]| == 2 * |c.os[t].keys| + 1
    ensures c.list[t].lcp[i] % DONE == SampleSort.Deeper(c.os[t].keys, 2 * i) && SampleSort.Open(c.os[t].keys, 2 * i)
    ensures c.list[t].lcp[i] >= DONE <==> c.os[t].keys[i] % 256 == 0
    ensures c.list[t].lcp[i] < DONE ==> SampleSort.Open(c.os[t].keys, 2 * i + 1)
    ensures SampleSort.Deeper(c.os[t].keys, 2 * i + 1) == KEY_BYTES
    ensures c.list[t].sub[i] != 0 ==>
              t < c.list[t].sub[i] < |c.os| && c.os[c.list[t].sub[i]].depth == c.os[t].depth + KEY_BYTES
  {
    hide CallOk, IsSizes, Embeds, FromStrings, SortedKeys, KeyAt, TreeOf;
    TreeFacts(c, t);
    var keys := c.os[t].keys;
    SampleSort.LcpEntry(c.list[t].lcp + [0], keys, 2 * i);
    assert (c.list[t].lcp + [0])[i] == c.list[t].lcp[i];
    hide IsLcpTable;
  }

  lemma LastFacts(c: Call, t: nat)
    requires CallOk(c) && t < |c.list|
    ensures |c.os| == |c.list| == |c.sizes| && |c.sizes[t]| == 2 * |c.os[t].keys| + 1 && |c.os[t].keys| == Pow2(c.bits) - 1
    ensures SampleSort.Deeper(c.os[t].keys, 2 * |c.os[t].keys|) == 0 && SampleSort.Open(c.os[t].keys, 2 * |c.os[t].keys|)
    ensures c.list[t].depth == c.os[t].depth
  {
    hide CallOk, IsSizes, TreeGood, SubsGood, TreeOf;
    TreeFacts(c, t);
  }

  /** The equal bucket of splitter i: done if the splitter contains the terminator, left to the attached
      tree if there is one, sorted by a call of its own otherwise. */
  method SortEqual(strings: array<Str>, lo: nat, n: nat, t: nat, i: nat, bsum: nat, m: nat, list: seq<TreeData>, sizes: seq<seq<nat>>,
                   depth: nat, cfg: Config, ghost c: Call, ghost before: seq<Str>, ghost maxLen: nat, ghost n0: nat)
    requires cfg.Valid() && CallOk(c) && t < |c.list| && c.list == list && c.sizes == sizes && Budget(c, t, n, n0) && Bounded(c.q, maxLen)
    requires |c.os| == |c.list| && i < |c.os[t].keys| && depth == c.os[t].depth
    requires |before| == strings.Length && AtBucket(c, t, before, strings[..], lo, n, 2 * i + 1) && 2 * i + 1 < |c.sizes[t]|
    requires bsum == Start(c.sizes[t], 2 * i + 1) && m == c.sizes[t][2 * i + 1]
    modifies strings
    ensures AtBucket(c, t, before, strings[..], lo, n, 2 * i + 2)
    decreases SampleSort.Left(maxLen, c.os[0].depth), n0, 0, |c.list| - t, 1
  {
    hide CallOk, AtBucket, Bounded, SortedResult, Start, InTree, SampleSort.Deeper, SampleSort.Open, SampleSort.Left;
    ghost var now := strings[..];
    BucketNow(c, t, before, now, lo, n, 2 * i + 1);
    SplitterFacts(c, t, i);
    if m <= 1 {
      BucketSkippedNext(c, t, before, now, lo, n, 2 * i + 1);
    } else if list[t].lcp[i] >= DONE {
      SegmentEqual(c, t, before, now, lo, n, 2 * i + 1);
      BucketSkippedNext(c, t, before, now, lo, n, 2 * i + 1);
    } else if list[t].sub[i] != 0 {
      SegmentAttached(c, t, before, now, lo, n, i);
      RecursiveSort(strings, lo + bsum, m, list[t].sub[i], list, sizes, depth + KEY_BYTES, cfg, c, maxLen, n0);
      BucketSortedNext(c, t, before, now, strings[..], lo, n, 2 * i + 1);
    } else {
      SortLeaf(strings, lo, n, bsum, m, 1, depth + KEY_BYTES, cfg, t, 2 * i + 1, c, before, maxLen, n0);
    }
  }

  lemma StartNext(size: seq<nat>, b: nat)
    requires b < |size|
    ensures Start(size, b + 1) == Start(size, b) + size[b] && Start(size, 0) == 0
  {
  }

  /** Step 5 for one tree: all its buckets, from left to right. */
  method RecursiveSort(strings: array<Str>, lo: nat, n: nat, t: nat, list: seq<TreeData>, sizes: seq<seq<nat>>,
                       depth: nat, cfg: Config, ghost c: Call, ghost maxLen: nat, ghost n0: nat)
    requires cfg.Valid() && CallOk(c) && t < |c.list| && c.list == list && c.sizes == sizes && Budget(c, t, n, n0) && Bounded(c.q, maxLen)
    requires depth == c.os[t].depth && lo + n <= strings.Length && InTree(c, t, strings[lo..lo + n])
    modifies strings
    ensures SortedResult(old(strings[..]), strings[..], lo, n)
    decreases SampleSort.Left(maxLen, c.os[0].depth), n0, 0, |c.list| - t, 2
  {
    hide CallOk, AtBucket, Bounded, SortedResult, Start, InTree, SampleSort.Deeper, SampleSort.Open, SampleSort.Left;
    ghost var before := strings[..];
    LastFacts(c, t);
    TreeBegins(c, t, before, lo, n);
    var size := sizes[t];
    StartNext(size, 0);
    var i, bsum := 0, 0;
    while 2 * i < |size| - 1
      invariant i <= |c.os[t].keys| && bsum == Start(size, 2 * i) && AtBucket(c, t, before, strings[..], lo, n, 2 * i)
    {
      SplitterFacts(c, t, i);
      StartNext(size, 2 * i);
      StartNext(size, 2 * i + 1);
      SortLeaf(strings, lo, n, bsum, size[2 * i], 1, depth + list[t].lcp[i] % DONE, cfg, t, 2 * i, c, before, maxLen, n0);
      bsum := bsum + size[2 * i];
      SortEqual(strings, lo, n, t, i, bsum, size[2 * i + 1], list, sizes, depth, cfg, c, before, maxLen, n0);
      bsum := bsum + size[2 * i + 1];
      i := i + 1;
    }
    SortLeaf(strings, lo, n, bsum, size[2 * i], 0, depth, cfg, t, 2 * i, c, before, maxLen, n0);
    TreeEnds(c, t, before, strings[..], lo, n);
  }
}
