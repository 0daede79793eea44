/** The tree classifiers: built from a sorted sample, then asked for the bucket of every string. */
module Classifier {
  import opened Bits
  import opened Strings
  import opened Keys
  import opened SplitterTree
  import opened TreeBuilder

  /** splitter_lcp as the builders leave it: the LCP with the predecessor in the low bits,
      the done mark on top; nothing precedes the first splitter, nothing follows the last. */
  ghost predicate IsLcpTable(lcp: seq<nat>, keys: seq<Key>) {
    && keys != [] && |lcp| == |keys| + 1
    && lcp[0] % DONE == 0 && lcp[|keys|] == 0
    && (forall i :: 1 <= i < |keys| ==> lcp[i] % DONE == LcpKeyType(keys[i - 1], keys[i]))
    && (forall i :: 0 <= i < |keys| ==> (lcp[i] >= DONE <==> keys[i] % 256 == 0))
  }

  /** Child nodes exist as long as the descent has not left the tree. */
  lemma DescentLevel(i: nat, bits: nat, h: nat)
    requires h <= bits && Pow2(bits - h) <= i < Pow2(bits - h + 1)
    ensures i < Pow2(bits) <==> h > 0
  {
    if h > 0 { Pow2Mono(bits - h + 1, bits); }
  }

  class ClassifyTree {
    const treebits: nat
    const numsplitters: nat
    const splitter: array<Key>
    const tree: array<Key>
    ghost var keys: seq<Key>

    ghost predicate Shape() {
      && treebits >= 1 && numsplitters == Pow2(treebits) - 1 && tree != splitter
      && tree.Length == numsplitters + 1 && splitter.Length == numsplitters
    }

    ghost predicate Valid()
      reads this, tree, splitter
    {
      && Shape() && |keys| == numsplitters && SortedKeys(keys)
      && splitter[..] == keys
      && Embeds(tree[..], 1, treebits, keys, 0)
    }

    constructor (treebits: nat)
      requires treebits >= 1
      ensures Shape() && this.treebits == treebits && fresh(tree) && fresh(splitter)
    {
      this.treebits := treebits;
      var n := Pow2(treebits) - 1;
      numsplitters := n;
      splitter := new Key[n];
      tree := new Key[n + 1];
      keys := [];
    }

    /** Build tree and splitter array from the sorted sample. */
    method Build(samples: seq<Key>) returns (splitterLcp: array<nat>)
      requires Shape() && samples != [] && SortedKeys(samples)
      modifies this`keys, tree, splitter
      ensures Valid() && keys == InOrder(samples, 0, |samples|, treebits)
      ensures fresh(splitterLcp) && IsLcpTable(splitterLcp[..], keys)
    {
      hide Built, InOrder, Embeds;
      splitterLcp := new nat[numsplitters + 1];
      var builder := new Builder(treebits, numsplitters, samples, tree, splitter, splitterLcp);
      InOrderSorted(samples, 0, |samples|, treebits);
      ghost var o := builder.Out();
      var _ := builder.Recurse(0, |samples|, 1, 0, treebits);
      keys := InOrder(samples, 0, |samples|, treebits);
      BuiltAll(o, builder.Out(), treebits, keys);
      ghost var l := splitterLcp[..];
      splitterLcp[0] := if splitterLcp[0] >= DONE then DONE else 0;
      splitterLcp[numsplitters] := 0;
      LcpTableOf(l, splitterLcp[..], keys);
    }

    /** ClassifyTreeSimple: descend until the node number leaves the tree. */
    method FindBkt(key: Key) returns (b: nat)
      requires Valid()
      ensures b == Bucket(keys, key)
    {
      var i := 1;
      ghost var h: nat := treebits;
      while i <= numsplitters
        invariant h <= treebits && Pow2(treebits - h) <= i < Pow2(treebits - h + 1)
        invariant Leaf(tree[..], key, i, h) == Leaf(tree[..], key, 1, treebits)
        decreases h
      {
        DescentLevel(i, treebits, h);
        i := 2 * i + (if key <= tree[i] then 0 else 1);
        h := h - 1;
      }
      DescentLevel(i, treebits, h);
      b := BucketOfLeaf(key, i);
    }

    /** The common tail of all descents: from leaf number to bucket number. */
    method BucketOfLeaf(key: Key, leaf: nat) returns (b: nat)
      requires Valid() && leaf == Leaf(tree[..], key, 1, treebits)
      ensures b == Bucket(keys, key)
    {
      DescentCounts(tree[..], treebits, keys, key);
      BucketFromBelow(keys, key);
      var i := leaf - (numsplitters + 1);
      b := i * 2;
      if i < numsplitters && splitter[i] == key { b := b + 1; }
    }

    /** ClassifyTreeUnroll: exactly treebits steps. */
    method FindBktUnroll(key: Key) returns (b: nat)
      requires Valid()
      ensures b == Bucket(keys, key)
    {
      var i := 1;
      for l := 0 to treebits
        invariant Pow2(l) <= i < Pow2(l + 1)
        invariant Leaf(tree[..], key, i, treebits - l) == Leaf(tree[..], key, 1, treebits)
      {
        DescentLevel(i, treebits, treebits - l);
        i := 2 * i + (if key <= tree[i] then 0 else 1);
      }
      b := BucketOfLeaf(key, i);
    }

    /** ClassifyTreeCalc: the splitter is recovered from the tree by index arithmetic. */
    method GetSplitterCalc(i: nat) returns (k: Key)
      requires Valid() && i < numsplitters && treebits <= 32
      ensures k == keys[i]
    {
      SplitterByIndex(tree[..], treebits, keys, i, 32);
      k := tree[PreToLevelorder(i + 1, treebits, 32)];
    }

    method FindBktCalc(key: Key) returns (b: nat)
      requires Valid() && treebits <= 32
      ensures b == Bucket(keys, key)
    {
      var i := 1;
      for l := 0 to treebits
        invariant Pow2(l) <= i < Pow2(l + 1)
        invariant Leaf(tree[..], key, i, treebits - l) == Leaf(tree[..], key, 1, treebits)
      {
        DescentLevel(i, treebits, treebits - l);
        i := 2 * i + (if key <= tree[i] then 0 else 1);
      }
      DescentCounts(tree[..], treebits, keys, key);
      BucketFromBelow(keys, key);
      i := i - (numsplitters + 1);
      b := i * 2;
      if i < numsplitters {
        var k := GetSplitterCalc(i);
        if k == key { b := b + 1; }
      }
    }

    /** One level for all interleaved descents. */
    method UnrollOne(i: array<nat>, key: seq<Key>, ghost l: nat)
      requires Valid() && l < treebits
      requires OnPaths(tree[..], treebits, i[..], key, l)
      modifies i
      ensures OnPaths(tree[..], treebits, i[..], key, l + 1)
    {
      for u := 0 to i.Length
        invariant forall v :: 0 <= v < u ==> OnPath(tree[..], treebits, i[v], key[v], l + 1)
        invariant forall v :: u <= v < i.Length ==> OnPath(tree[..], treebits, i[v], key[v], l)
      {
        DescentLevel(i[u], treebits, treebits - l);
        i[u] := 2 * i[u] + (if key[u] <= tree[i[u]] then 0 else 1);
      }
    }

    method BucketsOfLeaves(i: array<nat>, key: seq<Key>) returns (obkt: array<nat>)
      requires Valid() && OnPaths(tree[..], treebits, i[..], key, treebits)
      ensures fresh(obkt) && obkt.Length == |key|
      ensures forall u :: 0 <= u < |key| ==> obkt[u] == Bucket(keys, key[u])
    {
      obkt := new nat[|key|];
      for u := 0 to |key|
        invariant forall v :: 0 <= v < u ==> obkt[v] == Bucket(keys, key[v])
      {
        assert OnPath(tree[..], treebits, i[..][u], key[u], treebits);
        obkt[u] := BucketOfLeaf(key[u], i[u]);
      }
    }

    /** ClassifyTreeUnrollInterleave: several descents side by side. */
    method FindBktInterleaved(key: seq<Key>) returns (obkt: array<nat>)
      requires Valid()
      ensures fresh(obkt) && obkt.Length == |key|
      ensures forall u :: 0 <= u < |key| ==> obkt[u] == Bucket(keys, key[u])
    {
      var i := new nat[|key|](_ => 1);
      for l := 0 to treebits
        invariant OnPaths(tree[..], treebits, i[..], key, l)
      {
        UnrollOne(i, key, l);
      }
      obkt := BucketsOfLeaves(i, key);
    }
  }

  /** After l levels the descent for key has reached node i. */
  ghost predicate OnPath(tree: seq<Key>, bits: nat, i: nat, key: Key, l: nat) {
    && l <= bits && Pow2(l) <= i < Pow2(l + 1)
    && Leaf(tree, key, i, bits - l) == Leaf(tree, key, 1, bits)
  }

  ghost predicate OnPaths(tree: seq<Key>, bits: nat, i: seq<nat>, key: seq<Key>, l: nat) {
    |i| == |key| && forall u :: 0 <= u < |i| ==> OnPath(tree, bits, i[u], key[u], l)
  }

  lemma LcpTableOf(l: seq<nat>, lcp: seq<nat>, keys: seq<Key>)
    requires keys != [] && |l| == |keys| + 1
    requires forall i :: 0 <= i < |keys| ==> l[i] == LcpOf(keys, i, 0)
    requires lcp == l[0 := if l[0] >= DONE then DONE else 0][|keys| := 0]
    ensures IsLcpTable(lcp, keys)
  {
    assert l[0] == LcpOf(keys, 0, 0);
    forall i | 1 <= i < |keys| ensures lcp[i] == LcpByte(keys[i - 1], keys[i]) {
      assert l[i] == LcpOf(keys, i, 0);
    }
  }

  lemma BuiltAll(o0: TreeArrays, o1: TreeArrays, bits: nat, keys: seq<Key>)
    requires bits >= 1 && |o0.splitter| == |keys| == Pow2(bits) - 1
    requires Built(o0, o1, 0, bits, 1, keys, 0)
    ensures o1.splitter == keys && Embeds(o1.tree, 1, bits, keys, 0)
    ensures forall i :: 0 <= i < |keys| && i < |o1.lcp| ==> o1.lcp[i] == LcpOf(keys, i, 0)
  {
    assert forall i :: 0 <= i < |keys| ==> o1.splitter[0 + i] == keys[i];
    assert forall i :: 0 <= i < |keys| ==> o1.lcp[0 + i] == LcpOf(keys, i, 0);
  }

  /** find_bkt_binsearch, the reference the trees replace. */
  method FindBktBinsearch(key: Key, splitter: seq<Key>) returns (b: nat)
    requires SortedKeys(splitter)
    ensures b == Bucket(splitter, key)
  {
    var lo, hi := 0, |splitter|;
    while lo < hi
      invariant 0 <= lo <= hi <= |splitter|
      invariant forall j :: 0 <= j < lo ==> splitter[j] < key
      invariant forall j :: hi <= j < |splitter| ==> key <= splitter[j]
    {
      var mid := (lo + hi) / 2;
      if key <= splitter[mid] { hi := mid; } else { lo := mid + 1; }
    }
    BelowIs(splitter, key, lo);
    BucketFromBelow(splitter, key);
    b := lo * 2;
    if lo < |splitter| && splitter[lo] == key { b := b + 1; }
  }
}
