/** The implicit search tree of splitters: what it contains and what a descent finds in it. */
module SplitterTree {
  import opened Bits
  import opened Keys

  // ---- specification: splitters in order, buckets ---------------------------

  ghost predicate SortedKeys(keys: seq<Key>) {
    forall i, j :: 0 <= i < j < |keys| ==> keys[i] <= keys[j]
  }

  /** Number of splitters below the key. */
  function Below(keys: seq<Key>, key: Key): (n: nat)
    ensures n <= |keys|
  {
    if keys == [] then 0
    else Below(keys[..|keys| - 1], key) + (if keys[|keys| - 1] < key then 1 else 0)
  }

  /** Bucket 2i lies strictly between splitters i-1 and i, bucket 2i+1 holds splitter i. */
  function Bucket(keys: seq<Key>, key: Key): (b: nat)
    ensures b <= 2 * |keys| + 1
  {
    2 * Below(keys, key) + (if key in keys then 1 else 0)
  }

  lemma {:induction false} BelowIs(keys: seq<Key>, key: Key, a: nat)
    requires a <= |keys|
    requires forall i :: 0 <= i < a ==> keys[i] < key
    requires forall i :: a <= i < |keys| ==> key <= keys[i]
    ensures Below(keys, key) == a
  {
    if keys != [] {
      var n := |keys| - 1;
      BelowIs(keys[..n], key, if a <= n then a else n);
    }
  }

  lemma {:induction false} BelowSplits(keys: seq<Key>, key: Key)
    requires SortedKeys(keys)
    ensures forall i :: 0 <= i < Below(keys, key) ==> keys[i] < key
    ensures forall i :: Below(keys, key) <= i < |keys| ==> key <= keys[i]
  {
    if keys != [] {
      var n := |keys| - 1;
      BelowSplits(keys[..n], key);
      assert Below(keys[..n], key) < n ==> key <= keys[..n][n - 1] <= keys[n];
    }
  }

  /** What membership in a bucket says about a key. */
  lemma BucketMeaning(keys: seq<Key>, key: Key)
    requires SortedKeys(keys)
    ensures var b := Bucket(keys, key);
            && b <= 2 * |keys|
            && (b % 2 == 1 ==> keys[b / 2] == key)
            && (b % 2 == 0 ==> (b / 2 > 0 ==> keys[b / 2 - 1] < key)
                               && (b / 2 < |keys| ==> key < keys[b / 2]))
  {
    BelowSplits(keys, key);
    var a := Below(keys, key);
    if key in keys {
      var i :| 0 <= i < |keys| && keys[i] == key;
      assert a <= i && key <= keys[a] <= keys[i];
    }
  }

  /** Keys in ascending buckets ascend. */
  lemma BucketOrder(keys: seq<Key>, k1: Key, k2: Key)
    requires SortedKeys(keys)
    requires Bucket(keys, k1) < Bucket(keys, k2)
    ensures k1 < k2
  {
    BelowSplits(keys, k1);
    BelowSplits(keys, k2);
    BucketMeaning(keys, k1);
    BucketMeaning(keys, k2);
  }

  // ---- the splitters the recursive builders select from a sorted sample -----

  /** First position of the run of equal samples that ends at m. */
  function LowerEnd(s: seq<Key>, lo: nat, m: nat, key: Key): (r: nat)
    requires lo <= m <= |s|
    ensures lo <= r <= m
  {
    if lo < m && s[m - 1] == key then LowerEnd(s, lo, m - 1, key) else m
  }

  /** One past the run of equal samples from m on, but never past the last sample. */
  function UpperEnd(s: seq<Key>, m: nat, hi: nat, key: Key): (r: nat)
    requires m <= hi <= |s|
    ensures m <= r <= hi
    ensures r == m || r < hi
    decreases hi - m
  {
    if m + 1 < hi && s[m] == key then UpperEnd(s, m + 1, hi, key) else m
  }

  function Mid(lo: nat, hi: nat): (m: nat)
    requires lo <= hi
    ensures lo <= m <= hi && (lo < hi ==> m < hi)
  {
    lo + (hi - lo) / 2
  }

  /** The splitters of a subtree of h levels built from samples lo..hi, from left to right. */
  function InOrder(s: seq<Key>, lo: nat, hi: nat, h: nat): (keys: seq<Key>)
    requires lo <= hi <= |s| && lo < |s| && h >= 1
    ensures |keys| == Pow2(h) - 1
    decreases h
  {
    var mid := Mid(lo, hi);
    if h == 1 then [s[mid]]
    else
      InOrder(s, lo, LowerEnd(s, lo, mid, s[mid]), h - 1) + [s[mid]]
      + InOrder(s, UpperEnd(s, mid, hi, s[mid]), hi, h - 1)
  }

  lemma InOrderNode(s: seq<Key>, lo: nat, hi: nat, h: nat)
    requires lo <= hi <= |s| && lo < |s| && h >= 1
    ensures var mid := Mid(lo, hi);
            var keys := InOrder(s, lo, hi, h);
            if h == 1 then keys == [s[mid]]
            else
              var left := InOrder(s, lo, LowerEnd(s, lo, mid, s[mid]), h - 1);
              var right := InOrder(s, UpperEnd(s, mid, hi, s[mid]), hi, h - 1);
              keys == left + [s[mid]] + right && right != [] && keys[|keys| - 1] == right[|right| - 1]
  {
  }

  /** The keys are samples of the range; an empty range still yields its first sample. */
  ghost predicate Within(s: seq<Key>, lo: nat, hi: nat, keys: seq<Key>)
    requires lo <= hi <= |s| && lo < |s|
  {
    forall k :: k in keys ==> k in s && s[lo] <= k <= s[if lo < hi then hi - 1 else lo]
  }

  lemma MiddleWithin(s: seq<Key>, lo: nat, hi: nat)
    requires lo <= hi <= |s| && lo < |s| && SortedKeys(s)
    ensures SortedKeys([s[Mid(lo, hi)]]) && Within(s, lo, hi, [s[Mid(lo, hi)]])
  {
  }

  /** Even with duplicate samples and empty sub-ranges, the selected splitters are
      samples of the range, in ascending order. */
  lemma {:induction false} InOrderSorted(s: seq<Key>, lo: nat, hi: nat, h: nat)
    requires lo <= hi <= |s| && lo < |s| && h >= 1
    requires SortedKeys(s)
    ensures SortedKeys(InOrder(s, lo, hi, h)) && Within(s, lo, hi, InOrder(s, lo, hi, h))
    decreases h
  {
    hide *;
    InOrderNode(s, lo, hi, h);
    if h == 1 {
      MiddleWithin(s, lo, hi);
    } else {
      var mid := Mid(lo, hi);
      var midlo, midhi := LowerEnd(s, lo, mid, s[mid]), UpperEnd(s, mid, hi, s[mid]);
      InOrderSorted(s, lo, midlo, h - 1);
      InOrderSorted(s, midhi, hi, h - 1);
      InOrderJoin(s, lo, midlo, mid, midhi, hi, InOrder(s, lo, midlo, h - 1), InOrder(s, midhi, hi, h - 1));
    }
  }

  lemma InOrderJoin(s: seq<Key>, lo: nat, midlo: nat, mid: nat, midhi: nat, hi: nat, left: seq<Key>, right: seq<Key>)
    requires lo <= midlo <= mid <= midhi <= hi <= |s| && lo < |s| && midhi < |s|
    requires (lo < hi ==> mid < hi) && (midhi == mid || midhi < hi)
    requires SortedKeys(s) && Within(s, lo, midlo, left) && Within(s, midhi, hi, right)
    requires SortedKeys(left) && SortedKeys(right)
    ensures SortedKeys(left + [s[mid]] + right) && Within(s, lo, hi, left + [s[mid]] + right)
  {
    hide *;
    WithinJoin(s, lo, midlo, mid, midhi, hi, left, right);
    SortedJoin(left, s[mid], right);
  }

  lemma WithinJoin(s: seq<Key>, lo: nat, midlo: nat, mid: nat, midhi: nat, hi: nat, left: seq<Key>, right: seq<Key>)
    requires lo <= midlo <= mid <= midhi <= hi <= |s| && lo < |s| && midhi < |s|
    requires (lo < hi ==> mid < hi) && (midhi == mid || midhi < hi)
    requires SortedKeys(s) && Within(s, lo, midlo, left) && Within(s, midhi, hi, right)
    ensures forall k :: k in left ==> k <= s[mid]
    ensures forall k :: k in right ==> s[mid] <= k
    ensures Within(s, lo, hi, left + [s[mid]] + right)
  {
  }

  lemma SortedJoin(left: seq<Key>, key: Key, right: seq<Key>)
    requires SortedKeys(left) && SortedKeys(right)
    requires forall k :: k in left ==> k <= key
    requires forall k :: k in right ==> key <= k
    ensures SortedKeys(left + [key] + right)
  {
    forall i, j | 0 <= i < j < |left + [key] + right|
      ensures (left + [key] + right)[i] <= (left + [key] + right)[j]
    {
      if i < |left| { assert left[i] in left; }
      if j > |left| { assert right[j - |left| - 1] in right; }
    }
  }

  // ---- level order ------------------------------------------------------------

  /** Node idx of the level-order array is the root of a perfect subtree of h levels
      with the splitters keys[off..off + 2^h - 1], from left to right. */
  ghost predicate Embeds(tree: seq<Key>, idx: nat, h: nat, keys: seq<Key>, off: nat)
    decreases h
  {
    h > 0 ==>
      && idx < |tree| && off + Pow2(h - 1) - 1 < |keys|
      && tree[idx] == keys[off + Pow2(h - 1) - 1]
      && Embeds(tree, 2 * idx, h - 1, keys, off)
      && Embeds(tree, 2 * idx + 1, h - 1, keys, off + Pow2(h - 1))
  }

  /** Node j lies in the subtree below idx. */
  ghost predicate Under(j: nat, idx: nat) {
    j == idx || (j > idx && Under(j / 2, idx))
  }

  lemma {:induction false} UnderParent(j: nat, idx: nat, child: nat)
    requires idx > 0 && (child == 2 * idx || child == 2 * idx + 1)
    requires Under(j, child)
    ensures Under(j, idx) && j != idx
    decreases j
  {
    if j == child {
      assert Under(child / 2, idx);
    } else {
      UnderParent(j / 2, idx, child);
    }
  }

  lemma {:induction false} SiblingsDisjoint(j: nat, idx: nat)
    requires idx > 0
    ensures !(Under(j, 2 * idx) && Under(j, 2 * idx + 1))
    decreases j
  {
    if j > 2 * idx + 1 {
      SiblingsDisjoint(j / 2, idx);
    } else if j == 2 * idx + 1 {
      assert j / 2 == idx;
      assert !Under(j / 2, 2 * idx);
    }
  }

  /** A subtree only depends on its own nodes and splitters. */
  lemma {:induction false} EmbedsFrame(t1: seq<Key>, t2: seq<Key>, idx: nat, h: nat,
                                       k1: seq<Key>, k2: seq<Key>, off: nat)
    requires idx > 0 && |t1| == |t2| && |k1| == |k2|
    requires Embeds(t1, idx, h, k1, off)
    requires forall j :: 0 <= j < |t1| && Under(j, idx) ==> t1[j] == t2[j]
    requires forall j :: off <= j < off + Pow2(h) - 1 && j < |k1| ==> k1[j] == k2[j]
    ensures Embeds(t2, idx, h, k2, off)
    decreases h
  {
    if h > 0 {
      assert Under(idx, idx);
      forall j | 0 <= j < |t1| && (Under(j, 2 * idx) || Under(j, 2 * idx + 1)) ensures t1[j] == t2[j] {
        UnderParent(j, idx, if Under(j, 2 * idx) then 2 * idx else 2 * idx + 1);
      }
      EmbedsFrame(t1, t2, 2 * idx, h - 1, k1, k2, off);
      EmbedsFrame(t1, t2, 2 * idx + 1, h - 1, k1, k2, off + Pow2(h - 1));
    }
  }

  // ---- descent ------------------------------------------------------------------

  /** Leaf number reached from node i in h levels: left on key <= node, right on key > node. */
  ghost function Leaf(tree: seq<Key>, key: Key, i: nat, h: nat): nat
    decreases h
  {
    if h == 0 then i
    else Leaf(tree, key, 2 * i + (if i < |tree| && tree[i] < key then 1 else 0), h - 1)
  }

  /** Counted from the leftmost leaf of its subtree, the leaf splits the splitters of the
      subtree into those below the key and the others. */
  lemma {:induction false} LeafSplits(tree: seq<Key>, key: Key, i: nat, h: nat, keys: seq<Key>, off: nat)
    returns (c: nat)
    requires SortedKeys(keys) && off + Pow2(h) - 1 <= |keys|
    requires Embeds(tree, i, h, keys, off)
    ensures c <= Pow2(h) - 1 && Leaf(tree, key, i, h) == Shl(i, h) + c
    ensures forall j :: off <= j < off + c ==> keys[j] < key
    ensures forall j :: off + c <= j < off + Pow2(h) - 1 ==> key <= keys[j]
    decreases h
  {
    if h == 0 {
      c := 0;
    } else {
      ShlDouble(i, h - 1);
      if key <= tree[i] {
        c := LeafSplits(tree, key, 2 * i, h - 1, keys, off);
      } else {
        c := LeafSplits(tree, key, 2 * i + 1, h - 1, keys, off + Pow2(h - 1));
        c := c + Pow2(h - 1);
      }
    }
  }

  /** A full descent counts the splitters below the key. */
  lemma DescentCounts(tree: seq<Key>, bits: nat, keys: seq<Key>, key: Key)
    requires |keys| == Pow2(bits) - 1
    requires SortedKeys(keys) && Embeds(tree, 1, bits, keys, 0)
    ensures Leaf(tree, key, 1, bits) == Pow2(bits) + Below(keys, key)
  {
    var c := LeafSplits(tree, key, 1, bits, keys, 0);
    ShlPow2(0, bits);
    BelowIs(keys, key, c);
  }

  /** The equality test on the splitter found completes the bucket number. */
  lemma BucketFromBelow(keys: seq<Key>, key: Key)
    requires SortedKeys(keys)
    ensures var i := Below(keys, key);
            Bucket(keys, key) == 2 * i + (if i < |keys| && keys[i] == key then 1 else 0)
  {
    BucketMeaning(keys, key);
  }

  // ---- index arithmetic of TreeCalculations -----------------------------------

  /** level_to_preorder: in-order number (from 1) of a level-order node. */
  function LevelToPreorder(id: nat, bits: nat, w: nat): nat
    requires 0 < id < Pow2(bits) && bits <= w
  {
    Pow2Mono(bits, w);
    LevelHi(id, bits, w);
    var hi := bits - w + HighZeroBits(id, w);
    Or(LowBits(Shl(id, hi + 1), bits), Shl(1, hi))
  }

  /** The node's level decides the shift distance, which is never negative. */
  lemma LevelHi(id: nat, bits: nat, w: nat)
    requires 0 < id < Pow2(bits) && bits <= w
    ensures bits - w + HighZeroBits(id, w) >= 0
  {
    var l := Level(id, bits);
    HighZeroBitsLevel(id, l, w);
  }

  lemma {:induction false} Level(id: nat, bits: nat) returns (l: nat)
    requires 0 < id < Pow2(bits)
    ensures l < bits && Pow2(l) <= id < Pow2(l + 1)
  {
    if id >= Pow2(bits - 1) {
      l := bits - 1;
    } else {
      l := Level(id, bits - 1);
    }
  }

  /** pre_to_levelorder: level-order node of an in-order number (from 1). */
  function PreToLevelorder(id: nat, bits: nat, w: nat): nat
    requires 0 < id < Pow2(bits) && bits <= w
  {
    LowHi(id, bits, w);
    var lo := LowZeroBits(id, w) + 1;
    Or(LowBits(Shr(id, lo), bits), Shl(1, bits - lo))
  }

  lemma LowHi(id: nat, bits: nat, w: nat)
    requires 0 < id < Pow2(bits) && bits <= w
    ensures LowZeroBits(id, w) < bits
  {
    LowZeroBitsLocal(0, id, bits, w, w);
    ShlZero(bits);
  }

  lemma PreToLevelorderIs(id: nat, bits: nat, w: nat)
    requires 0 < id < Pow2(bits) && bits <= w
    ensures var lo := LowZeroBits(id, w) + 1;
            lo <= bits && PreToLevelorder(id, bits, w) == Or(LowBits(Shr(id, lo), bits), Shl(1, bits - lo))
  {
    LowHi(id, bits, w);
  }

  lemma PreToLevelorderSum(id: nat, bits: nat, w: nat)
    requires 0 < id < Pow2(bits) && bits <= w
    ensures var lo := LowZeroBits(id, w) + 1;
            && lo <= bits && Shr(id, lo) < Pow2(bits - lo)
            && PreToLevelorder(id, bits, w) == Pow2(bits - lo) + Shr(id, lo)
  {
    hide LowZeroBits, Shl, Shr, LowBits, Or, PreToLevelorder;
    LowHi(id, bits, w);
    PreToLevelorderIs(id, bits, w);
    var lo := LowZeroBits(id, w) + 1;
    ShrBound(id, lo, bits);
    Pow2Mono(bits - lo, bits);
    LowBitsPlus(0, Shr(id, lo), bits);
    ShlZero(bits);
    ShlPow2(0, bits - lo);
    OrDisjoint(1, Shr(id, lo), bits - lo);
  }

  /** The masked shift drops the highest one bit of the node number. */
  lemma ShiftedLevel(r: nat, bits: nat, l: nat)
    requires l < bits && r < Pow2(l)
    ensures LowBits(Shl(Pow2(l) + r, bits - l), bits) == Shl(r, bits - l)
    ensures Shl(r, bits - l) + Pow2(bits - l) <= Pow2(bits)
  {
    var k := bits - l;
    ShlAdd(Pow2(l), r, k);
    ShlPow2(l, k);
    ShlPow2(0, bits);
    ShlBound(r, l, k);
    LowBitsPlus(1, Shl(r, k), bits);
  }

  lemma LevelToPreorderSum(r: nat, bits: nat, l: nat, w: nat)
    requires l < bits <= w && r < Pow2(l)
    ensures Pow2(l) + r < Pow2(bits)
    ensures LevelToPreorder(Pow2(l) + r, bits, w) == Shl(r, bits - l) + Pow2(bits - 1 - l)
    ensures Shl(r, bits - l) + Pow2(bits - l) <= Pow2(bits)
  {
    var k := bits - l;
    Pow2Mono(l + 1, bits);
    HighZeroBitsLevel(Pow2(l) + r, l, w);
    ShiftedLevel(r, bits, l);
    ShlPow2(0, k - 1);
    OrDisjoint(r, Pow2(k - 1), k);
  }

  /** The two index maps are inverse to each other on all nodes. */
  lemma LevelOfPre(id: nat, bits: nat, w: nat)
    requires 0 < id < Pow2(bits) && bits <= w
    ensures 0 < PreToLevelorder(id, bits, w) < Pow2(bits)
    ensures LevelToPreorder(PreToLevelorder(id, bits, w), bits, w) == id
  {
    hide LowZeroBits, Shr, LevelToPreorder, PreToLevelorder;
    PreToLevelorderSum(id, bits, w);
    var lo := LowZeroBits(id, w) + 1;
    LevelToPreorderSum(Shr(id, lo), bits, bits - lo, w);
    Pow2Mono(bits, w);
    LowestBit(id, w);
  }

  /** The lowest one bit of an in-order number tells the level, the bits above it the place on it. */
  lemma LevelBits(r: nat, k: nat, w: nat)
    requires 0 < k <= w
    ensures LowZeroBits(Shl(r, k) + Pow2(k - 1), w) == k - 1 && Shr(Shl(r, k) + Pow2(k - 1), k) == r
  {
    LowZeroBitsLocal(r, Pow2(k - 1), k, w, w);
    ShlPow2(0, k - 1);
    LowZeroBitsShift(1, k - 1, w);
    ShrPlus(r, Pow2(k - 1), k);
    ShlZero(k);
    ShrBound(Pow2(k - 1), k, k);
  }

  lemma PreOfLevel(id: nat, bits: nat, w: nat)
    requires 0 < id < Pow2(bits) && bits <= w
    ensures 0 < LevelToPreorder(id, bits, w) < Pow2(bits)
    ensures PreToLevelorder(LevelToPreorder(id, bits, w), bits, w) == id
  {
    hide LowZeroBits, Shl, Shr, LevelToPreorder, PreToLevelorder;
    var l := Level(id, bits);
    var r, k := id - Pow2(l), bits - l;
    LevelToPreorderSum(r, bits, l, w);
    LevelBits(r, k, w);
    PreToLevelorderSum(LevelToPreorder(id, bits, w), bits, w);
  }

  /** Level-order node of the i-th splitter of a subtree. */
  function NodeOf(i: nat, h: nat, idx: nat): nat
    requires i < Pow2(h) - 1
    decreases h
  {
    var mid := Pow2(h - 1) - 1;
    if i == mid then idx
    else if i < mid then NodeOf(i, h - 1, 2 * idx)
    else NodeOf(i - mid - 1, h - 1, 2 * idx + 1)
  }

  lemma {:induction false} EmbedsAt(tree: seq<Key>, idx: nat, h: nat, keys: seq<Key>, off: nat, i: nat)
    requires Embeds(tree, idx, h, keys, off) && i < Pow2(h) - 1
    ensures off + i < |keys| && NodeOf(i, h, idx) < |tree|
    ensures tree[NodeOf(i, h, idx)] == keys[off + i]
    decreases h
  {
    var p := Pow2(h - 1);
    if i < p - 1 {
      EmbedsAt(tree, 2 * idx, h - 1, keys, off, i);
    } else if i > p - 1 {
      EmbedsAt(tree, 2 * idx + 1, h - 1, keys, off + p, i - p);
    }
  }

  lemma MiddleNode(h: nat, idx: nat, w: nat)
    requires 0 < h <= w
    ensures var p := Pow2(h - 1);
            LowZeroBits(p, w) + 1 == h && Shl(idx, 0) + Shr(p, h) == idx
  {
    ShlPow2(0, h - 1);
    LowZeroBitsShift(1, h - 1, w);
    ShrBound(Pow2(h - 1), h, h);
  }

  lemma {:induction false} NodeOfClosed(i: nat, h: nat, idx: nat, w: nat)
    requires h <= w && i < Pow2(h) - 1
    ensures var lo := LowZeroBits(i + 1, w) + 1;
            lo <= h && NodeOf(i, h, idx) == Shl(idx, h - lo) + Shr(i + 1, lo)
    decreases h
  {
    hide LowZeroBits, Shl, Shr;
    var p := Pow2(h - 1);
    var id := i + 1;
    if id == p {
      MiddleNode(h, idx, w);
    } else if id < p {
      NodeOfClosed(i, h - 1, 2 * idx, w);
      ShlDouble(idx, h - 1 - (LowZeroBits(id, w) + 1));
    } else {
      NodeOfClosed(i - p, h - 1, 2 * idx + 1, w);
      RightSubtreeShift(id - p, h - 1, idx, w);
    }
  }

  lemma RightSubtreeShift(y: nat, h: nat, idx: nat, w: nat)
    requires 0 < y < Pow2(h) && h <= w
    ensures var lo := LowZeroBits(y, w) + 1;
            && lo <= h && LowZeroBits(Pow2(h) + y, w) == lo - 1
            && Shl(2 * idx + 1, h - lo) + Shr(y, lo) == Shl(idx, h - lo + 1) + Shr(Pow2(h) + y, lo)
  {
    hide LowZeroBits, Shl, Shr;
    ShlPow2(0, h);
    LowZeroBitsLocal(1, y, h, w, w);
    var lo := LowZeroBits(y, w) + 1;
    ShlDouble(idx, h - lo);
    ShlPow2(h - lo, lo);
    ShrPlus(Pow2(h - lo), y, lo);
  }

  /** The splitter recovered by index arithmetic is the i-th one in order. */
  lemma SplitterByIndex(tree: seq<Key>, bits: nat, keys: seq<Key>, i: nat, w: nat)
    requires bits <= w && Embeds(tree, 1, bits, keys, 0) && i < Pow2(bits) - 1
    ensures PreToLevelorder(i + 1, bits, w) < |tree| && i < |keys|
    ensures tree[PreToLevelorder(i + 1, bits, w)] == keys[i]
  {
    EmbedsAt(tree, 1, bits, keys, 0, i);
    PreToLevelorderIsNode(i, bits, w);
  }

  lemma PreToLevelorderIsNode(i: nat, bits: nat, w: nat)
    requires bits <= w && i < Pow2(bits) - 1
    ensures PreToLevelorder(i + 1, bits, w) == NodeOf(i, bits, 1)
  {
    NodeOfClosed(i, bits, 1, w);
    PreToLevelorderSum(i + 1, bits, w);
    ShlPow2(0, bits - (LowZeroBits(i + 1, w) + 1));
  }
}
