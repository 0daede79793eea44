/** What the permutation by nested trees means for the strings: routes decide the order, and
    whoever shares a leaf shares the prefix that the recursive sort is told to skip. */
module SubtreeOrder {
  import opened Bits
  import opened Strings
  import opened Keys
  import opened SplitterTree
  import opened EqualDescent
  import opened Subtrees
  import opened Permute
  import opened LcpOutput
  import opened SubtreePermute

  /** A tree in level order, its splitters in order, and the depth of the keys it looks at. */
  datatype KeyTree = KeyTree(nodes: seq<Key>, keys: seq<Key>, depth: nat)

  ghost predicate TreeOk(kt: KeyTree, bits: nat) {
    && |kt.nodes| == Pow2(bits) && |kt.keys| == Pow2(bits) - 1
    && SortedKeys(kt.keys) && Embeds(kt.nodes, 1, bits, kt.keys, 0)
  }

  ghost function BucketIn(kt: KeyTree, bits: nat, s: Str): nat
    requires bits <= WIDTH && TreeOk(kt, bits)
  {
    EqualBucket(kt.nodes, KeyAt(s, kt.depth), bits, 1, bits)
  }

  /** The trees classify by early-exit descent at their depth; an attached tree looks at the next
      eight characters, and is attached only where strings go on that far. */
  ghost predicate KeyTrees(trees: seq<Tree>, kts: seq<KeyTree>, bits: nat) {
    && bits <= WIDTH && |kts| == |trees|
    && (forall t :: 0 <= t < |trees| ==> TreeOk(kts[t], bits) && |trees[t].sub| == Pow2(bits) - 1)
    && (forall t, s :: 0 <= t < |trees| ==> trees[t].bkt(s) == BucketIn(kts[t], bits, s))
    && (forall t, i :: 0 <= t < |trees| && 0 <= i < |trees[t].sub| && trees[t].sub[i] != 0 ==>
          && t < trees[t].sub[i] < |trees| && kts[t].keys[i] % 256 != 0
          && kts[trees[t].sub[i]].depth == kts[t].depth + KEY_BYTES)
  }

  /** The same bucket in every tree on the way. */
  ghost predicate SameLeaf(trees: seq<Tree>, t: nat, x: Str, y: Str)
    decreases |trees| - t
  {
    t < |trees| ==>
      && trees[t].bkt(x) == trees[t].bkt(y)
      && (t < Next(trees, t, x) < |trees| ==> SameLeaf(trees, Next(trees, t, x), x, y))
  }

  /** The last tree on the way. */
  ghost function LastTree(trees: seq<Tree>, t: nat, x: Str): nat
    decreases |trees| - t
  {
    if t < |trees| && t < Next(trees, t, x) < |trees| then LastTree(trees, Next(trees, t, x), x) else t
  }

  lemma BucketsTell(trees: seq<Tree>, kts: seq<KeyTree>, bits: nat, t: nat, x: Str, y: Str)
    requires KeyTrees(trees, kts, bits) && t < |trees| && SamePrefix(x, y, kts[t].depth)
    ensures trees[t].bkt(x) < trees[t].bkt(y) ==> Less(x, y)
    ensures var b := trees[t].bkt(x);
            b == trees[t].bkt(y) && b % 2 == 1 ==>
              b / 2 < |kts[t].keys| && (if kts[t].keys[b / 2] % 256 == 0 then x == y else SamePrefix(x, y, kts[t].depth + KEY_BYTES))
  {
    var kt := kts[t];
    var kx, ky := KeyAt(x, kt.depth), KeyAt(y, kt.depth);
    assert trees[t].bkt(x) == BucketIn(kt, bits, x) && trees[t].bkt(y) == BucketIn(kt, bits, y);
    EqualDescentFinds(kt.nodes, kx, bits, kt.keys);
    EqualDescentFinds(kt.nodes, ky, bits, kt.keys);
    hide KeyAt, EqualBucket, Leq, Lcp;
    if trees[t].bkt(x) < trees[t].bkt(y) {
      BucketForOrder(kt.keys, kx, trees[t].bkt(x), ky, trees[t].bkt(y));
      KeysDiffer(x, y, kt.depth);
    } else if trees[t].bkt(x) == trees[t].bkt(y) && trees[t].bkt(x) % 2 == 1 {
      assert kx == ky;
      if kx % 256 == 0 { KeysEqualShort(x, y, kt.depth); } else { KeysEqualLong(x, y, kt.depth); }
    }
  }

  /** Strings that may stand in this order either share their leaf or really are in this order. */
  lemma {:induction false} RouteDecides(trees: seq<Tree>, kts: seq<KeyTree>, bits: nat, t: nat, x: Str, y: Str)
    requires KeyTrees(trees, kts, bits) && t < |trees| && SamePrefix(x, y, kts[t].depth) && RouteLeq(trees, t, x, y)
    ensures Less(x, y) || SameLeaf(trees, t, x, y)
    decreases |trees| - t
  {
    BucketsTell(trees, kts, bits, t, x, y);
    var u := Next(trees, t, x);
    if trees[t].bkt(x) == trees[t].bkt(y) && t < u < |trees| {
      RouteDecides(trees, kts, bits, u, x, y);
    }
  }

  /** The depth handed to the recursive sort of a leaf is a common prefix: that of the last tree,
      eight more in its equal buckets, unless the equal bucket holds one string over and over. */
  lemma {:induction false} LeafPrefix(trees: seq<Tree>, kts: seq<KeyTree>, bits: nat, t: nat, x: Str, y: Str)
    requires KeyTrees(trees, kts, bits) && t < |trees| && SamePrefix(x, y, kts[t].depth) && SameLeaf(trees, t, x, y)
    ensures var u := LastTree(trees, t, x);
            && t <= u < |trees| && SamePrefix(x, y, kts[u].depth) && trees[u].bkt(x) == trees[u].bkt(y)
            && (trees[u].bkt(x) % 2 == 1 ==>
                  var i := trees[u].bkt(x) / 2;
                  i < |kts[u].keys| && (if kts[u].keys[i] % 256 == 0 then x == y else SamePrefix(x, y, kts[u].depth + KEY_BYTES)))
    decreases |trees| - t
  {
    BucketsTell(trees, kts, bits, t, x, y);
    var u := Next(trees, t, x);
    if t < u < |trees| {
      LeafPrefix(trees, kts, bits, u, x, y);
    }
  }

  lemma LessLeq(x: Str, y: Str)
    ensures Less(x, y) ==> Leq(x, y)
  {
  }
}
