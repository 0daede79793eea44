/** How evenly the selected splitters cut the sorted sample: no gap between them holds more than its share of
    the samples, and the root is a median. */
module SplitterSpread {
  import opened Bits
  import opened Keys
  import opened SplitterTree

  /** No splitter falls on the samples from i to j or between them. */
  ghost predicate Uncut(s: seq<Key>, keys: seq<Key>, i: nat, j: nat)
    requires i <= j < |s|
  {
    forall k :: k in keys ==> k < s[i] || s[j] < k
  }

  // ---- the ranges on either side of the middle sample -------------------------------------

  /** The scan below m passes no sample smaller than the key. */
  lemma {:induction false} LowerEndStops(s: seq<Key>, lo: nat, m: nat, key: Key)
    requires lo <= m <= |s|
    ensures forall i :: lo <= i < m && s[i] != key && SortedKeys(s) ==> i < LowerEnd(s, lo, m, key)
    decreases m
  {
    if lo < m && s[m - 1] == key { LowerEndStops(s, lo, m - 1, key); }
  }

  /** The scan from m on passes m, unless it is the last sample, and none that differs from the key. */
  lemma {:induction false} UpperEndStops(s: seq<Key>, m: nat, hi: nat, key: Key)
    requires m <= hi <= |s|
    ensures forall i :: m <= i < hi && s[i] != key && SortedKeys(s) ==> UpperEnd(s, m, hi, key) <= i
    ensures m + 1 < hi && s[m] == key ==> m < UpperEnd(s, m, hi, key)
    decreases hi - m
  {
    if m + 1 < hi && s[m] == key { UpperEndStops(s, m + 1, hi, key); }
  }

  /** An uncut stretch lies on one side of the middle sample, where at most half of the samples are. */
  lemma OneSide(s: seq<Key>, lo: nat, hi: nat, i: nat, j: nat) returns (left: bool)
    requires lo <= i <= j < hi <= |s| && lo + 2 <= hi && SortedKeys(s)
    requires s[Mid(lo, hi)] < s[i] || s[j] < s[Mid(lo, hi)]
    ensures var mid := Mid(lo, hi);
            var midlo, midhi := LowerEnd(s, lo, mid, s[mid]), UpperEnd(s, mid, hi, s[mid]);
            if left then j < midlo && 2 * (midlo - lo) <= hi - lo && 2 * (j + 1 - i) <= hi - lo
            else midhi <= i && 2 * (hi - midhi) <= hi - lo && 2 * (j + 1 - i) <= hi - lo
  {
    var mid := Mid(lo, hi);
    LowerEndStops(s, lo, mid, s[mid]);
    UpperEndStops(s, mid, hi, s[mid]);
    left := s[j] < s[mid];
    if left { assert j < mid; } else { assert mid < i; }
  }

  lemma UncutPart(s: seq<Key>, keys: seq<Key>, part: seq<Key>, i: nat, j: nat)
    requires i <= j < |s| && Uncut(s, keys, i, j) && forall k :: k in part ==> k in keys
    ensures Uncut(s, part, i, j)
  {
  }

  lemma NotCutBy(s: seq<Key>, keys: seq<Key>, i: nat, j: nat, k: Key)
    requires i <= j < |s| && Uncut(s, keys, i, j) && k in keys
    ensures k < s[i] || s[j] < k
  {
  }

  lemma Halved(n: nat, h: nat, m: nat)
    requires h >= 1 && n * Pow2(h - 1) <= m
    ensures n * Pow2(h) <= 2 * m
  {
    assert n * (2 * Pow2(h - 1)) == 2 * (n * Pow2(h - 1));
  }

  lemma HalvedOnce(n: nat, m: nat)
    requires 2 * n <= m
    ensures n * Pow2(1) <= m
  {
  }

  /** Each level of a subtree halves the number of samples that can lie together without a splitter. */
  lemma {:induction false} UncutIsShort(s: seq<Key>, lo: nat, hi: nat, h: nat, i: nat, j: nat)
    requires lo <= i <= j < hi <= |s| && h >= 1 && SortedKeys(s)
    requires Uncut(s, InOrder(s, lo, hi, h), i, j)
    ensures (j + 1 - i) * Pow2(h) <= hi - lo
    decreases h
  {
    hide *;
    var keys, mid := InOrder(s, lo, hi, h), Mid(lo, hi);
    var midlo, midhi := LowerEnd(s, lo, mid, s[mid]), UpperEnd(s, mid, hi, s[mid]);
    InOrderNode(s, lo, hi, h);
    NotCutBy(s, keys, i, j, s[mid]);
    if hi == lo + 1 {
      assert false;
    }
    var left := OneSide(s, lo, hi, i, j);
    if h == 1 {
      HalvedOnce(j + 1 - i, hi - lo);
    } else if left {
      UncutPart(s, keys, InOrder(s, lo, midlo, h - 1), i, j);
      UncutIsShort(s, lo, midlo, h - 1, i, j);
      Halved(j + 1 - i, h, midlo - lo);
    } else {
      UncutPart(s, keys, InOrder(s, midhi, hi, h - 1), i, j);
      UncutIsShort(s, midhi, hi, h - 1, i, j);
      Halved(j + 1 - i, h, hi - midhi);
    }
  }

  // ---- what this means for the whole sample --------------------------------------------------

  /** Samples that stand together without a splitter of the tree are at most the 2^bits-th part of all. */
  lemma SplittersSpread(s: seq<Key>, bits: nat, i: nat, j: nat)
    requires SortedKeys(s) && bits >= 1 && i <= j < |s|
    requires Uncut(s, InOrder(s, 0, |s|, bits), i, j)
    ensures (j + 1 - i) * Pow2(bits) <= |s|
  {
    UncutIsShort(s, 0, |s|, bits, i, j);
  }

  /** The key lies strictly between splitters g - 1 and g, below the first one, or above the last. */
  predicate InGap(keys: seq<Key>, g: nat, x: Key)
    requires g <= |keys|
  {
    (g > 0 ==> keys[g - 1] < x) && (g < |keys| ==> x < keys[g])
  }

  ghost function GapSamples(s: seq<Key>, keys: seq<Key>, g: nat): set<nat>
    requires g <= |keys|
  {
    set i: nat | i < |s| && InGap(keys, g, s[i])
  }

  /** Every gap takes at most its share of the samples. */
  lemma GapsEven(s: seq<Key>, bits: nat, g: nat)
    requires SortedKeys(s) && s != [] && bits >= 1 && g < Pow2(bits)
    ensures |GapSamples(s, InOrder(s, 0, |s|, bits), g)| * Pow2(bits) <= |s|
  {
    hide *;
    var keys := InOrder(s, 0, |s|, bits);
    InOrderSorted(s, 0, |s|, bits);
    var gap := GapSamples(s, keys, g);
    if |gap| == 0 {
      NoneIsLittle(Pow2(bits), |s|);
    } else {
      var i, j := Ends(gap);
      InGapSamples(s, keys, g, i);
      InGapSamples(s, keys, g, j);
      GapUncut(s, keys, g, i, j);
      SplittersSpread(s, bits, i, j);
      SetInInterval(gap, i, j + 1 - i);
      ProductMono(|gap|, j + 1 - i, Pow2(bits));
    }
  }

  lemma NoneIsLittle(c: nat, n: nat)
    ensures 0 * c <= n
  {
  }

  lemma InGapSamples(s: seq<Key>, keys: seq<Key>, g: nat, i: nat)
    requires g <= |keys| && i in GapSamples(s, keys, g)
    ensures i < |s| && InGap(keys, g, s[i])
  {
  }

  lemma GapUncut(s: seq<Key>, keys: seq<Key>, g: nat, i: nat, j: nat)
    requires SortedKeys(keys) && g <= |keys| && i <= j < |s| && InGap(keys, g, s[i]) && InGap(keys, g, s[j])
    ensures Uncut(s, keys, i, j)
  {
    forall k | k in keys ensures k < s[i] || s[j] < k {
      var m :| 0 <= m < |keys| && keys[m] == k;
      if m < g { assert k <= keys[g - 1]; } else { assert keys[g] <= k; }
    }
  }

  /** The smallest and the largest member. */
  lemma {:induction false} Ends(a: set<nat>) returns (i: nat, j: nat)
    requires |a| > 0
    ensures i in a && j in a && forall x :: x in a ==> i <= x <= j
    decreases a
  {
    var x :| x in a;
    var b := a - {x};
    if |b| == 0 {
      i, j := x, x;
    } else {
      i, j := Ends(b);
      i, j := if x < i then x else i, if x > j then x else j;
    }
    forall y | y in a ensures i <= y <= j { assert y == x || y in b; }
  }

  lemma {:induction false} SetInInterval(a: set<nat>, i: nat, n: nat)
    requires forall x :: x in a ==> i <= x < i + n
    ensures |a| <= n
    decreases n
  {
    if n > 0 {
      SetInInterval(a - {i + n - 1}, i, n - 1);
    } else {
      assert a == {};
    }
  }

  lemma ProductMono(a: nat, b: nat, c: nat)
    requires a <= b
    ensures a * c <= b * c
  {
  }

  /** A value held by more than its share of the samples is a splitter, and so has a bucket of its own. */
  lemma FrequentIsSplitter(s: seq<Key>, bits: nat, i: nat, j: nat)
    requires SortedKeys(s) && bits >= 1 && i <= j < |s| && s[i] == s[j]
    requires (j + 1 - i) * Pow2(bits) > |s|
    ensures s[i] in InOrder(s, 0, |s|, bits)
  {
    hide *;
    var keys := InOrder(s, 0, |s|, bits);
    if s[i] !in keys {
      NoneEqual(s, keys, i, j);
      SplittersSpread(s, bits, i, j);
    }
  }

  lemma NoneEqual(s: seq<Key>, keys: seq<Key>, i: nat, j: nat)
    requires i <= j < |s| && s[i] == s[j] && s[i] !in keys
    ensures Uncut(s, keys, i, j)
  {
  }

  /** The root is the middle sample: at most half of the samples are smaller, and at most half larger. */
  lemma RootIsMedian(s: seq<Key>, bits: nat)
    requires SortedKeys(s) && s != [] && bits >= 1
    ensures var root := InOrder(s, 0, |s|, bits)[Pow2(bits - 1) - 1];
            && root == s[|s| / 2]
            && 2 * |(set i: nat | i < |s| && s[i] < root)| <= |s|
            && 2 * |(set i: nat | i < |s| && root < s[i])| <= |s|
  {
    RootIs(s, bits);
    Halves(s);
    hide InOrder, SortedKeys;
  }

  lemma Halves(s: seq<Key>)
    requires SortedKeys(s) && s != []
    ensures 2 * |(set i: nat | i < |s| && s[i] < s[|s| / 2])| <= |s|
    ensures 2 * |(set i: nat | i < |s| && s[|s| / 2] < s[i])| <= |s|
  {
    var n := |s|;
    var below, above := set i: nat | i < n && s[i] < s[n / 2], set i: nat | i < n && s[n / 2] < s[i];
    SetInInterval(below, 0, n / 2);
    SetInInterval(above, n / 2 + 1, n - n / 2 - 1);
  }

  lemma RootIs(s: seq<Key>, bits: nat)
    requires s != [] && bits >= 1
    ensures InOrder(s, 0, |s|, bits)[Pow2(bits - 1) - 1] == s[|s| / 2]
  {
  }
}
