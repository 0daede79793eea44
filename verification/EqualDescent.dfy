/** The classifiers with an equality test at every node: the descent may stop early, and the node
    number is turned into an equal bucket by index arithmetic. */
module EqualDescent {
  import opened Bits
  import opened Strings
  import opened Keys
  import opened SplitterTree
  import opened Classifier

  /** Word width of the node numbers. */
  const WIDTH: nat := 32

  /** A bucket for the key: an equal bucket of some splitter equal to the key, or, only when there is
      none, the bucket between the splitters below and above. */
  ghost predicate BucketFor(keys: seq<Key>, key: Key, b: nat) {
    if b % 2 == 1 then b / 2 < |keys| && keys[b / 2] == key
    else key !in keys && b == 2 * Below(keys, key)
  }

  /** Node i is h levels above the leaves. */
  ghost predicate OnLevel(bits: nat, i: nat, h: nat) {
    h <= bits && Pow2(bits - h) <= i < Pow2(bits - h + 1)
  }

  /** The descent from node i, h levels above the leaves. */
  function EqualBucket(tree: seq<Key>, key: Key, bits: nat, i: nat, h: nat): (b: nat)
    requires bits <= WIDTH && |tree| == Pow2(bits) && OnLevel(bits, i, h)
    decreases h
  {
    DescentLevel(i, bits, h);
    if h == 0 then 2 * (i - Pow2(bits))
    else
      PreOfLevel(i, bits, WIDTH);
      if key == tree[i] then 2 * LevelToPreorder(i, bits, WIDTH) - 1
      else EqualBucket(tree, key, bits, if key < tree[i] then 2 * i else 2 * i + 1, h - 1)
  }

  lemma EqualStep(tree: seq<Key>, key: Key, bits: nat, i: nat, h: nat)
    requires bits <= WIDTH && |tree| == Pow2(bits) && OnLevel(bits, i, h)
    ensures i < |tree| <==> h > 0
    ensures h == 0 ==> i >= Pow2(bits) && EqualBucket(tree, key, bits, i, h) == 2 * (i - Pow2(bits))
    ensures h > 0 ==> 0 < LevelToPreorder(i, bits, WIDTH)
    ensures h > 0 && key == tree[i] ==> EqualBucket(tree, key, bits, i, h) == 2 * LevelToPreorder(i, bits, WIDTH) - 1
    ensures h > 0 && key != tree[i] ==>
              var c := if key < tree[i] then 2 * i else 2 * i + 1;
              OnLevel(bits, c, h - 1)
              && EqualBucket(tree, key, bits, i, h) == EqualBucket(tree, key, bits, c, h - 1)
  {
    hide LevelToPreorder;
    DescentLevel(i, bits, h);
    if h > 0 { PreOfLevel(i, bits, WIDTH); }
  }

  lemma EqualStart(bits: nat)
    ensures OnLevel(bits, 1, bits) && Pow2(bits) > 0
  {
  }

  /** The descent does not meet the key. */
  ghost predicate Misses(tree: seq<Key>, key: Key, i: nat, h: nat)
    decreases h
  {
    h > 0 && i < |tree| ==> tree[i] != key && Misses(tree, key, if key < tree[i] then 2 * i else 2 * i + 1, h - 1)
  }

  lemma {:induction false} MissedEverywhere(tree: seq<Key>, key: Key, i: nat, h: nat, keys: seq<Key>, off: nat)
    requires SortedKeys(keys) && off + Pow2(h) - 1 <= |keys| && Embeds(tree, i, h, keys, off) && Misses(tree, key, i, h)
    ensures forall j :: off <= j < off + Pow2(h) - 1 ==> keys[j] != key
    decreases h
  {
    if h > 0 {
      var m := off + Pow2(h - 1) - 1;
      if key < tree[i] {
        MissedEverywhere(tree, key, 2 * i, h - 1, keys, off);
      } else {
        MissedEverywhere(tree, key, 2 * i + 1, h - 1, keys, off + Pow2(h - 1));
      }
      assert keys[m] == tree[i];
    }
  }

  /** The bucket computed from a node number is that of the node's splitter. */
  lemma NodeBucket(tree: seq<Key>, bits: nat, i: nat, keys: seq<Key>)
    requires 0 < i < Pow2(bits) == |tree| && bits <= WIDTH && Embeds(tree, 1, bits, keys, 0)
    ensures 0 < LevelToPreorder(i, bits, WIDTH) <= |keys|
    ensures var b := 2 * LevelToPreorder(i, bits, WIDTH) - 1;
            b % 2 == 1 && keys[b / 2] == tree[i]
  {
    hide Embeds, LevelToPreorder, PreToLevelorder;
    PreOfLevel(i, bits, WIDTH);
    var p := LevelToPreorder(i, bits, WIDTH);
    SplitterByIndex(tree, bits, keys, p - 1, WIDTH);
    assert (2 * p - 1) / 2 == p - 1;
  }

  lemma {:induction false} EqualOrLeaf(tree: seq<Key>, key: Key, bits: nat, i: nat, h: nat, keys: seq<Key>)
    requires bits <= WIDTH && |tree| == Pow2(bits) && OnLevel(bits, i, h)
    requires Embeds(tree, 1, bits, keys, 0)
    ensures var b := EqualBucket(tree, key, bits, i, h);
            || (b % 2 == 1 && b / 2 < |keys| && keys[b / 2] == key)
            || (Misses(tree, key, i, h) && b + 2 * Pow2(bits) == 2 * Leaf(tree, key, i, h))
    decreases h
  {
    hide Embeds, LevelToPreorder, EqualBucket;
    EqualStep(tree, key, bits, i, h);
    if h > 0 {
      if key == tree[i] {
        NodeBucket(tree, bits, i, keys);
      } else {
        EqualOrLeaf(tree, key, bits, if key < tree[i] then 2 * i else 2 * i + 1, h - 1, keys);
      }
    }
  }

  /** Although a repeated splitter is met at its topmost node only, the early exit never misses. */
  lemma EqualDescentFinds(tree: seq<Key>, key: Key, bits: nat, keys: seq<Key>)
    requires bits <= WIDTH && |tree| == Pow2(bits) && |keys| == Pow2(bits) - 1
    requires SortedKeys(keys) && Embeds(tree, 1, bits, keys, 0)
    ensures BucketFor(keys, key, EqualBucket(tree, key, bits, 1, bits))
  {
    hide Embeds, EqualBucket, Misses, Leaf, OnLevel, SortedKeys;
    EqualStart(bits);
    EqualOrLeaf(tree, key, bits, 1, bits, keys);
    var b := EqualBucket(tree, key, bits, 1, bits);
    if !(b % 2 == 1 && b / 2 < |keys| && keys[b / 2] == key) {
      MissedEverywhere(tree, key, 1, bits, keys, 0);
      DescentCounts(tree, bits, keys, key);
    }
  }

  /** Without repeated splitters there is only one such bucket, the one of the other classifiers. */
  lemma BucketForUnique(keys: seq<Key>, key: Key, b: nat)
    requires SortedKeys(keys) && BucketFor(keys, key, b)
    requires forall i, j :: 0 <= i < j < |keys| ==> keys[i] != keys[j]
    ensures b == Bucket(keys, key)
  {
    BucketMeaning(keys, key);
  }

  lemma SmallTree(keys: seq<Key>, tree: seq<Key>)
    requires keys == [7, 7, 9] && tree == [0, 7, 7, 9]
    ensures Pow2(2) == 4 && Embeds(tree, 1, 2, keys, 0) && OnLevel(2, 1, 2)
  {
    assert Pow2(0) == 1 && Pow2(1) == 2;
    assert Embeds(tree, 2, 1, keys, 0) && Embeds(tree, 3, 1, keys, 2);
  }

  lemma BothBuckets(keys: seq<Key>)
    requires keys == [7, 7, 9]
    ensures SortedKeys(keys) && Bucket(keys, 7) == 1 && BucketFor(keys, 7, 3) && BucketFor(keys, 7, 1)
  {
    BelowIs(keys, 7, 0);
  }

  lemma StopsAtRoot(tree: seq<Key>)
    requires tree == [0, 7, 7, 9] && Pow2(2) == 4 && OnLevel(2, 1, 2)
    ensures EqualBucket(tree, 7, 2, 1, 2) == 3
  {
    RootNumber();
    hide OnLevel, EqualBucket, LevelToPreorder, Pow2;
    EqualStep(tree, 7, 2, 1, 2);
    assert tree[1] == 7;
  }

  /** With repeated splitters there can be two: here the descent stops at the root, whose bucket is 3,
      while the other classifiers count the splitters below the key and come to bucket 1. */
  lemma TwoBucketsFor()
    ensures var tree: seq<Key>, keys: seq<Key> := [0, 7, 7, 9], [7, 7, 9];
            && SortedKeys(keys) && Pow2(2) == |tree| && Embeds(tree, 1, 2, keys, 0) && OnLevel(2, 1, 2)
            && EqualBucket(tree, 7, 2, 1, 2) == 3 && Bucket(keys, 7) == 1
            && BucketFor(keys, 7, 3) && BucketFor(keys, 7, 1)
  {
    hide Embeds, OnLevel, EqualBucket, Bucket, BucketFor, SortedKeys, Pow2;
    SmallTree([7, 7, 9], [0, 7, 7, 9]);
    BothBuckets([7, 7, 9]);
    StopsAtRoot([0, 7, 7, 9]);
  }

  /** In a tree of two levels the root is the second splitter. */
  lemma RootNumber()
    ensures LevelToPreorder(1, 2, WIDTH) == 2
  {
    assert Pow2(0) == 1 && Pow2(1) == 2 && Shl(0, 2) == 0;
    LevelToPreorderSum(0, 2, 0, WIDTH);
  }

  /** Buckets found by the same descent are in the order of the keys. */
  lemma BucketForOrder(keys: seq<Key>, k1: Key, b1: nat, k2: Key, b2: nat)
    requires SortedKeys(keys) && BucketFor(keys, k1, b1) && BucketFor(keys, k2, b2) && b1 < b2
    ensures k1 <= k2 && (k1 == k2 ==> b1 % 2 == 1 && b2 % 2 == 1)
  {
    BelowSplits(keys, k1);
    BelowSplits(keys, k2);
    if Below(keys, k1) < Below(keys, k2) {
      assert k1 <= keys[Below(keys, k1)] < k2;
    }
  }

  /** ClassifyEqual. */
  method FindBktEqual(tree: array<Key>, treebits: nat, ghost keys: seq<Key>, key: Key) returns (b: nat)
    requires treebits <= WIDTH && tree.Length == Pow2(treebits) && |keys| == Pow2(treebits) - 1
    requires SortedKeys(keys) && Embeds(tree[..], 1, treebits, keys, 0)
    ensures b == EqualBucket(tree[..], key, treebits, 1, treebits) && BucketFor(keys, key, b)
  {
    hide Embeds, SortedKeys, EqualBucket, BucketFor;
    EqualDescentFinds(tree[..], key, treebits, keys);
    EqualStart(treebits);
    hide *;
    var numsplitters := Pow2(treebits) - 1;
    var i: nat := 1;
    ghost var h: nat := treebits;
    while i <= numsplitters
      invariant OnLevel(treebits, i, h)
      invariant EqualBucket(tree[..], key, treebits, i, h) == EqualBucket(tree[..], key, treebits, 1, treebits)
      decreases h
    {
      EqualStep(tree[..], key, treebits, i, h);
      if key == tree[i] {
        return 2 * LevelToPreorder(i, treebits, WIDTH) - 1;
      } else if key < tree[i] {
        i := 2 * i + 0;
      } else {
        i := 2 * i + 1;
      }
      h := h - 1;
    }
    EqualStep(tree[..], key, treebits, i, h);
    i := i - (numsplitters + 1);
    b := 2 * i;
  }

  /** ClassifyEqualUnroll: at most treebits steps. */
  method FindBktEqualUnroll(tree: array<Key>, treebits: nat, ghost keys: seq<Key>, key: Key) returns (b: nat)
    requires treebits <= WIDTH && tree.Length == Pow2(treebits) && |keys| == Pow2(treebits) - 1
    requires SortedKeys(keys) && Embeds(tree[..], 1, treebits, keys, 0)
    ensures b == EqualBucket(tree[..], key, treebits, 1, treebits) && BucketFor(keys, key, b)
  {
    hide Embeds, SortedKeys, EqualBucket, BucketFor;
    EqualDescentFinds(tree[..], key, treebits, keys);
    EqualStart(treebits);
    hide *;
    var i: nat := 1;
    for l := 0 to treebits
      invariant OnLevel(treebits, i, treebits - l)
      invariant EqualBucket(tree[..], key, treebits, i, treebits - l) == EqualBucket(tree[..], key, treebits, 1, treebits)
    {
      EqualStep(tree[..], key, treebits, i, treebits - l);
      if key == tree[i] { return 2 * LevelToPreorder(i, treebits, WIDTH) - 1; }
      i := 2 * i + (if key < tree[i] then 0 else 1);
    }
    EqualStep(tree[..], key, treebits, i, 0);
    b := 2 * (i - Pow2(treebits));
  }
}
