/** The recursive builder of the splitter tree, writing the level-order tree, the
    splitters in order, and one byte per splitter with its predecessor's LCP and a
    mark for keys that contain the string terminator. */
module TreeBuilder {
  import opened Bits
  import opened Keys
  import opened SplitterTree

  const DONE := 0x80

  /** The two parts of the byte occupy disjoint bits. */
  function LcpByte(prev: Key, key: Key): (b: nat)
    ensures b % DONE == LcpKeyType(prev, key)
    ensures b >= DONE <==> key % 256 == 0
    ensures b < 256
  {
    LcpKeyType(prev, key) + (if key % 256 != 0 then 0 else DONE)
  }

  /** The three output arrays. */
  datatype TreeArrays = TreeArrays(tree: seq<Key>, splitter: seq<Key>, lcp: seq<nat>)

  ghost predicate SameShape(o0: TreeArrays, o1: TreeArrays) {
    |o0.tree| == |o1.tree| && |o0.splitter| == |o1.splitter| && |o0.lcp| == |o1.lcp|
  }

  /** The splitters keys stand at p.., everything before p is as it was. */
  ghost predicate Placed(s0: seq<Key>, s1: seq<Key>, p: nat, keys: seq<Key>) {
    && p + |keys| <= |s1|
    && (forall i :: 0 <= i < p && i < |s0| ==> s1[i] == s0[i])
    && (forall i :: 0 <= i < |keys| ==> s1[p + i] == keys[i])
  }

  ghost function LcpOf(keys: seq<Key>, i: nat, prev: Key): nat
    requires i < |keys|
  {
    LcpByte(if i == 0 then prev else keys[i - 1], keys[i])
  }

  /** The bytes at p.. belong to the splitters keys, the first of them compared with prev. */
  ghost predicate LcpBytes(l0: seq<nat>, l1: seq<nat>, p: nat, keys: seq<Key>, prev: Key) {
    && p + |keys| <= |l1|
    && (forall i :: 0 <= i < p && i < |l0| ==> l1[i] == l0[i])
    && (forall i :: 0 <= i < |keys| ==> l1[p + i] == LcpOf(keys, i, prev))
  }

  ghost predicate OnlyUnder(t0: seq<Key>, t1: seq<Key>, idx: nat) {
    |t0| == |t1| && forall j :: 0 <= j < |t1| && !Under(j, idx) ==> t1[j] == t0[j]
  }

  /** What one recursion over a subtree of h levels at node idx has done. */
  ghost predicate Built(o0: TreeArrays, o1: TreeArrays, p: nat, h: nat, idx: nat, keys: seq<Key>, prev: Key) {
    && SameShape(o0, o1) && |keys| == Pow2(h) - 1
    && Placed(o0.splitter, o1.splitter, p, keys)
    && LcpBytes(o0.lcp, o1.lcp, p, keys, prev)
    && OnlyUnder(o0.tree, o1.tree, idx)
    && Embeds(o1.tree, idx, h, o1.splitter, p)
  }

  /** Writing one splitter and its byte. */
  ghost function Emitted(o: TreeArrays, p: nat, prev: Key, key: Key): TreeArrays
    requires p < |o.splitter| && p < |o.lcp|
  {
    o.(splitter := o.splitter[p := key], lcp := o.lcp[p := LcpByte(prev, key)])
  }

  ghost function NodeSet(o: TreeArrays, idx: nat, key: Key): TreeArrays
    requires idx < |o.tree|
  {
    o.(tree := o.tree[idx := key])
  }

  /** Children exist exactly as long as more than one level is left. */
  lemma ChildLevel(idx: nat, bits: nat, h: nat)
    requires 1 <= h <= bits
    requires Pow2(bits - h) <= idx < Pow2(bits - h + 1)
    ensures 0 < idx < Pow2(bits)
    ensures 2 * idx < Pow2(bits) - 1 <==> h >= 2
    ensures h >= 2 ==> Pow2(bits - h + 1) <= 2 * idx && 2 * idx + 1 < Pow2(bits - h + 2)
  {
    Pow2Mono(bits - h + 1, bits);
    if h >= 2 { Pow2Mono(bits - h + 2, bits); }
  }

  lemma BuiltLeaf(o: TreeArrays, p: nat, idx: nat, key: Key, prev: Key)
    requires p < |o.splitter| && p < |o.lcp| && idx < |o.tree|
    ensures Built(o, Emitted(NodeSet(o, idx, key), p, prev, key), p, 1, idx, [key], prev)
  {
    assert Under(idx, idx);
  }

  lemma PlacedJoin(s0: seq<Key>, s1: seq<Key>, s3: seq<Key>, p: nat, left: seq<Key>, key: Key, right: seq<Key>)
    requires |s0| == |s1| == |s3| && p + |left| < |s1|
    requires Placed(s0, s1, p, left)
    requires Placed(s1[p + |left| := key], s3, p + |left| + 1, right)
    ensures Placed(s0, s3, p, left + [key] + right)
    ensures forall i :: p <= i < p + |left| ==> s3[i] == s1[i]
    ensures s3[p + |left|] == key
  {
    var keys, m := left + [key] + right, |left|;
    forall i | 0 <= i < |keys| ensures s3[p + i] == keys[i] {
      if i > m { assert s3[p + m + 1 + (i - m - 1)] == right[i - m - 1]; }
    }
  }

  lemma LcpBytesJoin(l0: seq<nat>, l1: seq<nat>, l3: seq<nat>, p: nat,
                     left: seq<Key>, key: Key, right: seq<Key>, prev: Key)
    requires |l0| == |l1| == |l3| && p + |left| < |l1| && left != []
    requires LcpBytes(l0, l1, p, left, prev)
    requires LcpBytes(l1[p + |left| := LcpByte(left[|left| - 1], key)], l3, p + |left| + 1, right, key)
    ensures LcpBytes(l0, l3, p, left + [key] + right, prev)
  {
    var keys, m := left + [key] + right, |left|;
    forall i | 0 <= i < |keys| ensures l3[p + i] == LcpOf(keys, i, prev) {
      if i < m {
        assert LcpOf(keys, i, prev) == LcpOf(left, i, prev);
        assert l3[p + i] == l1[p + i];
      } else if i > m {
        var t := i - m - 1;
        assert LcpOf(keys, i, prev) == LcpOf(right, t, key);
        assert l3[(p + m + 1) + t] == LcpOf(right, t, key);
      }
    }
  }

  lemma SubtreesJoin(t0: seq<Key>, t1: seq<Key>, t2: seq<Key>, s1: seq<Key>, s2: seq<Key>,
                     idx: nat, h: nat, p: nat)
    requires idx > 0 && |t0| == |t1| == |t2| && |s1| == |s2| && idx < |t0|
    requires p + Pow2(h) + Pow2(h) - 1 <= |s1|
    requires OnlyUnder(t0, t1, 2 * idx) && Embeds(t1, 2 * idx, h, s1, p)
    requires OnlyUnder(t1, t2, 2 * idx + 1) && Embeds(t2, 2 * idx + 1, h, s2, p + Pow2(h))
    requires forall i :: p <= i < p + Pow2(h) - 1 ==> s2[i] == s1[i]
    requires s2[p + Pow2(h) - 1] == t0[idx]
    ensures OnlyUnder(t0, t2, idx) && Embeds(t2, idx, h + 1, s2, p)
  {
    forall j | 0 <= j < |t1| && Under(j, 2 * idx) ensures t1[j] == t2[j] {
      SiblingsDisjoint(j, idx);
    }
    EmbedsFrame(t1, t2, 2 * idx, h, s1, s2, p);
    forall j | 0 <= j < |t1| && (!Under(j, idx) || j == idx) ensures t2[j] == t0[j] {
      if Under(j, 2 * idx) { UnderParent(j, idx, 2 * idx); }
      if Under(j, 2 * idx + 1) { UnderParent(j, idx, 2 * idx + 1); }
    }
    assert t2[idx] == t0[idx];
  }

  lemma BuiltNode(o: TreeArrays, o1: TreeArrays, o3: TreeArrays, p: nat, h: nat, idx: nat,
                  left: seq<Key>, key: Key, right: seq<Key>, prev: Key)
    requires 0 < idx < |o.tree| && h > 0
    requires Built(NodeSet(o, idx, key), o1, p, h, 2 * idx, left, prev)
    requires p + |left| < |o1.splitter| && p + |left| < |o1.lcp|
    requires Built(Emitted(o1, p + |left|, left[|left| - 1], key), o3, p + |left| + 1, h, 2 * idx + 1, right, key)
    ensures Built(o, o3, p, h + 1, idx, left + [key] + right, prev)
  {
    var o0 := NodeSet(o, idx, key);
    PlacedJoin(o.splitter, o1.splitter, o3.splitter, p, left, key, right);
    LcpBytesJoin(o.lcp, o1.lcp, o3.lcp, p, left, key, right, prev);
    SubtreesJoin(o0.tree, o1.tree, o3.tree, o1.splitter, o3.splitter, idx, h, p);
    assert Under(idx, idx);
  }

  class Builder {
    const numsplitters: nat
    ghost const bits: nat
    const samples: seq<Key>
    const tree: array<Key>
    const splitter: array<Key>
    const lcp: array<nat>
    /** m_splitter and m_lcp_iter advance together. */
    var pos: nat

    ghost predicate Valid() {
      && bits >= 1 && numsplitters == Pow2(bits) - 1
      && tree.Length == numsplitters + 1 && splitter.Length == numsplitters && lcp.Length == numsplitters + 1
      && tree != splitter
      && |samples| > 0
    }

    constructor (ghost bits: nat, numsplitters: nat, samples: seq<Key>,
                 tree: array<Key>, splitter: array<Key>, lcp: array<nat>)
      requires bits >= 1 && numsplitters == Pow2(bits) - 1 && |samples| > 0
      requires tree.Length == numsplitters + 1 && splitter.Length == numsplitters && lcp.Length == numsplitters + 1
      requires tree != splitter
      ensures Valid() && pos == 0
      ensures this.bits == bits && this.numsplitters == numsplitters && this.samples == samples
      ensures this.tree == tree && this.splitter == splitter && this.lcp == lcp
    {
      this.bits, this.numsplitters, this.samples := bits, numsplitters, samples;
      this.tree, this.splitter, this.lcp := tree, splitter, lcp;
      this.pos := 0;
    }

    method FindRun(lo: nat, mid: nat, hi: nat) returns (midlo: nat, midhi: nat)
      requires lo <= mid <= hi <= |samples| && mid < |samples|
      ensures midlo == LowerEnd(samples, lo, mid, samples[mid])
      ensures midhi == UpperEnd(samples, mid, hi, samples[mid])
    {
      var mykey := samples[mid];
      midlo := mid;
      while lo < midlo && samples[midlo - 1] == mykey
        invariant lo <= midlo <= mid
        invariant LowerEnd(samples, lo, midlo, mykey) == LowerEnd(samples, lo, mid, mykey)
      {
        midlo := midlo - 1;
      }
      midhi := mid;
      while midhi + 1 < hi && samples[midhi] == mykey
        invariant mid <= midhi <= hi
        invariant UpperEnd(samples, midhi, hi, mykey) == UpperEnd(samples, mid, hi, mykey)
      {
        midhi := midhi + 1;
      }
    }

    ghost function Out(): TreeArrays
      reads tree, splitter, lcp
    {
      TreeArrays(tree[..], splitter[..], lcp[..])
    }

    method Emit(prev: Key, mykey: Key)
      requires Valid() && pos < numsplitters
      modifies this`pos, splitter, lcp
      ensures pos == old(pos) + 1
      ensures Out() == Emitted(old(Out()), old(pos), prev, mykey)
    {
      splitter[pos] := mykey;
      lcp[pos] := LcpByte(prev, mykey);
      pos := pos + 1;
    }

    method SetNode(idx: nat, key: Key)
      requires Valid() && idx < tree.Length
      modifies tree
      ensures Out() == NodeSet(old(Out()), idx, key)
    {
      tree[idx] := key;
    }

    method Recurse(lo: nat, hi: nat, treeidx: nat, recPrev: Key, ghost h: nat) returns (last: Key)
      requires Valid() && lo <= hi <= |samples| && lo < |samples|
      requires 1 <= h <= bits && Pow2(bits - h) <= treeidx < Pow2(bits - h + 1)
      requires pos + Pow2(h) - 1 <= numsplitters
      modifies this`pos, tree, splitter, lcp
      ensures pos == old(pos) + Pow2(h) - 1
      ensures var keys := InOrder(samples, lo, hi, h);
              && last == keys[|keys| - 1]
              && Built(old(Out()), Out(), old(pos), h, treeidx, keys, recPrev)
      decreases h
    {
      hide Built, InOrder, LowerEnd, UpperEnd, Emitted, NodeSet;
      ChildLevel(treeidx, bits, h);
      var mid := lo + (hi - lo) / 2;
      var mykey := samples[mid];
      ghost var o, p := Out(), pos;
      SetNode(treeidx, mykey);
      var midlo, midhi := FindRun(lo, mid, hi);
      if 2 * treeidx < numsplitters {
        ghost var left, right := InOrder(samples, lo, midlo, h - 1), InOrder(samples, midhi, hi, h - 1);
        var prevkey := Recurse(lo, midlo, 2 * treeidx, recPrev, h - 1);
        ghost var o1 := Out();
        assert pos == p + |left|;
        Emit(prevkey, mykey);
        last := Recurse(midhi, hi, 2 * treeidx + 1, mykey, h - 1);
        BuiltNode(o, o1, Out(), p, h - 1, treeidx, left, mykey, right, recPrev);
        InOrderNode(samples, lo, hi, h);
      } else {
        Emit(recPrev, mykey);
        BuiltLeaf(o, p, treeidx, mykey, recPrev);
        InOrderNode(samples, lo, hi, h);
        last := mykey;
      }
    }
  }
}
