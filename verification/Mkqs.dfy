/** Multikey quicksort with cached keys: the partition step in place, and what it saves
    for the LCP values at the borders of its three parts. */
module Mkqs {
  import opened Strings
  import opened Keys
  import opened Permute
  import opened LcpOutput
  import opened FatPartition

  /** The strings act[lo..lo + n] and keys cache[co..co + n] have changed places in step,
      and nothing outside has changed. */
  ghost predicate Cut(act0: seq<Str>, act: seq<Str>, cache0: seq<Key>, cache: seq<Key>, lo: nat, co: nat, n: nat, depth: nat) {
    && co + n <= |cache| && SameStrings(act0, act, lo, n)
    && KeysOf(act[lo..lo + n], cache[co..co + n], depth)
    && OutsideKept(act0, act, lo, lo + n) && OutsideKept(cache0, cache, co, co + n)
  }

  lemma CutSwap(act0: seq<Str>, act: seq<Str>, act': seq<Str>, cache0: seq<Key>, cache: seq<Key>, cache': seq<Key>,
                lo: nat, co: nat, n: nat, depth: nat, x: nat, y: nat)
    requires Cut(act0, act, cache0, cache, lo, co, n, depth) && x < n && y < n
    requires |act'| == |act| && act'[lo..lo + n] == Swap(act[lo..lo + n], x, y) && OutsideKept(act, act', lo, lo + n)
    requires |cache'| == |cache| && cache'[co..co + n] == Swap(cache[co..co + n], x, y) && OutsideKept(cache, cache', co, co + n)
    ensures Cut(act0, act', cache0, cache', lo, co, n, depth)
  {
    KeysOfSwap(act[lo..lo + n], cache[co..co + n], depth, x, y);
  }

  /** The two swaps of the source. */
  method SwapBoth(act: array<Str>, cache: array<Key>, lo: nat, co: nat, n: nat, x: nat, y: nat,
                  ghost depth: nat, ghost act0: seq<Str>, ghost cache0: seq<Key>)
    requires lo + n <= act.Length && co + n <= cache.Length && x < n && y < n
    requires Cut(act0, act[..], cache0, cache[..], lo, co, n, depth)
    modifies act, cache
    ensures Cut(act0, act[..], cache0, cache[..], lo, co, n, depth)
    ensures cache[co..co + n] == Swap(old(cache[co..co + n]), x, y)
  {
    hide Cut, KeyAt;
    ghost var m, k, a, c := act[lo..lo + n], cache[co..co + n], act[..], cache[..];
    act[lo + x], act[lo + y] := act[lo + y], act[lo + x];
    cache[co + x], cache[co + y] := cache[co + y], cache[co + x];
    assert act[lo..lo + n] == Swap(m, x, y);
    assert cache[co..co + n] == Swap(k, x, y);
    assert act[..][lo..lo + n] == act[lo..lo + n] && a[lo..lo + n] == m;
    assert cache[..][co..co + n] == cache[co..co + n] && c[co..co + n] == k;
    CutSwap(act0, a, act[..], cache0, c, cache[..], lo, co, n, depth, x, y);
  }

  method ScanLeft(act: array<Str>, cache: array<Key>, lo: nat, co: nat, n: nat, v: Key, s0: Fat,
                  ghost depth: nat, ghost act0: seq<Str>, ghost cache0: seq<Key>) returns (s: Fat)
    requires lo + n <= act.Length && co + n <= cache.Length && n > 0
    requires Cut(act0, act[..], cache0, cache[..], lo, co, n, depth)
    requires FatInv(cache[co..co + n], v, s0, false)
    modifies act, cache
    ensures Cut(act0, act[..], cache0, cache[..], lo, co, n, depth)
    ensures FatInv(cache[co..co + n], v, s, s.llt <= s.rgt)
    ensures s.rgt == s0.rgt && s.llt >= s0.llt
  {
    hide *;
    s := s0;
    FatBounds(cache[co..co + n], v, s, false);
    while s.llt <= s.rgt
      invariant Cut(act0, act[..], cache0, cache[..], lo, co, n, depth)
      invariant FatInv(cache[co..co + n], v, s, false) && s.leq <= s.llt && s.llt <= s.rgt + 1 <= n
      invariant s.rgt == s0.rgt && s.llt >= s0.llt
    {
      ghost var k := cache[co..co + n];
      assert k[s.llt] == cache[co + s.llt];
      if cache[co + s.llt] > v {
        LeftGreater(k, v, s);
        s := s.(minGt := Min(s.minGt, cache[co + s.llt]));
        return;
      } else if cache[co + s.llt] == v {
        LeftEqual(k, v, s);
        SwapBoth(act, cache, lo, co, n, s.leq, s.llt, depth, act0, cache0);
        s := s.(leq := s.leq + 1, llt := s.llt + 1);
      } else {
        LeftLess(k, v, s);
        s := s.(maxLt := Max(s.maxLt, cache[co + s.llt]), llt := s.llt + 1);
      }
      FatBounds(cache[co..co + n], v, s, false);
    }
  }

  lemma FatStart(k: seq<Key>, v: Key)
    requires k != [] && k[0] == v
    ensures FatInv(k, v, Fat(1, 1, |k| - 1, |k| - 1, 0, MAX_KEY), false)
  {
  }

  /** Stops at a key below the pivot, or when everything has been seen. */
  method ScanRight(act: array<Str>, cache: array<Key>, lo: nat, co: nat, n: nat, v: Key, s0: Fat,
                   ghost depth: nat, ghost act0: seq<Str>, ghost cache0: seq<Key>) returns (s: Fat)
    requires lo + n <= act.Length && co + n <= cache.Length && n > 0
    requires Cut(act0, act[..], cache0, cache[..], lo, co, n, depth)
    requires FatInv(cache[co..co + n], v, s0, s0.llt <= s0.rgt)
    modifies act, cache
    ensures Cut(act0, act[..], cache0, cache[..], lo, co, n, depth)
    ensures FatInv(cache[co..co + n], v, s, s.llt <= s.rgt)
    ensures s.llt == s0.llt && s.rgt <= s0.rgt < n
    ensures s.llt <= s.rgt ==> cache[co + s.rgt] < v
  {
    hide *;
    s := s0;
    FatBounds(cache[co..co + n], v, s, s.llt <= s.rgt);
    while s.llt <= s.rgt
      invariant Cut(act0, act[..], cache0, cache[..], lo, co, n, depth)
      invariant FatInv(cache[co..co + n], v, s, s.llt <= s.rgt) && s.rgt <= s.req < n && s.llt <= s.rgt + 1
      invariant s.llt == s0.llt && s.rgt <= s0.rgt < n
    {
      ghost var k := cache[co..co + n];
      assert k[s.rgt] == cache[co + s.rgt];
      if cache[co + s.rgt] < v {
        return;
      } else if cache[co + s.rgt] == v {
        RightEqual(k, v, s);
        FatBounds(Swap(k, s.req, s.rgt), v, s.(req := s.req - 1, rgt := s.rgt - 1), true);
        SwapBoth(act, cache, lo, co, n, s.req, s.rgt, depth, act0, cache0);
        s := s.(req := s.req - 1, rgt := s.rgt - 1);
      } else {
        RightGreater(k, v, s);
        s := s.(minGt := Min(s.minGt, cache[co + s.rgt]), rgt := s.rgt - 1);
        FatBounds(k, v, s, s.llt <= s.rgt);
      }
    }
  }

  /** The main loop: all keys are compared with the pivot, which stands at the front. */
  method ScanBoth(act: array<Str>, cache: array<Key>, lo: nat, co: nat, n: nat, v: Key,
                  ghost depth: nat, ghost act0: seq<Str>, ghost cache0: seq<Key>) returns (s: Fat)
    requires lo + n <= act.Length && co + n <= cache.Length && n > 0
    requires Cut(act0, act[..], cache0, cache[..], lo, co, n, depth) && cache[co] == v
    modifies act, cache
    ensures Cut(act0, act[..], cache0, cache[..], lo, co, n, depth)
    ensures FatInv(cache[co..co + n], v, s, false) && s.llt == s.rgt + 1
  {
    hide *;
    s := Fat(1, 1, n - 1, n - 1, 0, MAX_KEY);
    FatStart(cache[co..co + n], v);
    while true
      invariant Cut(act0, act[..], cache0, cache[..], lo, co, n, depth)
      invariant FatInv(cache[co..co + n], v, s, false) && s.rgt < n
      decreases s.rgt + 1 - s.llt
    {
      FatBounds(cache[co..co + n], v, s, false);
      s := ScanLeft(act, cache, lo, co, n, v, s, depth, act0, cache0);
      s := ScanRight(act, cache, lo, co, n, v, s, depth, act0, cache0);
      FatBounds(cache[co..co + n], v, s, s.llt <= s.rgt);
      if s.llt > s.rgt { break; }
      ghost var k := cache[co..co + n];
      assert k[s.rgt] == cache[co + s.rgt];
      var key := cache[co + s.rgt];
      Exchange(k, v, s);
      SwapBoth(act, cache, lo, co, n, s.llt, s.rgt, depth, act0, cache0);
      s := s.(maxLt := Max(s.maxLt, key), llt := s.llt + 1, rgt := s.rgt - 1);
    }
  }

  /** swap_ranges on strings and keys. */
  method SwapRanges(act: array<Str>, cache: array<Key>, lo: nat, co: nat, n: nat, x: nat, y: nat, size: nat,
                    ghost depth: nat, ghost act0: seq<Str>, ghost cache0: seq<Key>)
    requires lo + n <= act.Length && co + n <= cache.Length && x + size <= y && y + size <= n
    requires Cut(act0, act[..], cache0, cache[..], lo, co, n, depth)
    modifies act, cache
    ensures Cut(act0, act[..], cache0, cache[..], lo, co, n, depth)
    ensures Exchanged(old(cache[co..co + n]), cache[co..co + n], x, y, size)
  {
    hide *;
    ghost var k := cache[co..co + n];
    NothingExchanged(k, x, y);
    for i := 0 to size
      invariant Cut(act0, act[..], cache0, cache[..], lo, co, n, depth)
      invariant Exchanged(k, cache[co..co + n], x, y, i)
    {
      ghost var k0 := cache[co..co + n];
      SwapBoth(act, cache, lo, co, n, x + i, y + i, depth, act0, cache0);
      OneMoreExchanged(k, k0, x, y, i);
    }
  }

  lemma NothingExchanged(k: seq<Key>, x: nat, y: nat)
    requires x <= y <= |k|
    ensures Exchanged(k, k, x, y, 0)
  {
  }

  lemma OneMoreExchanged(k: seq<Key>, k0: seq<Key>, x: nat, y: nat, i: nat)
    requires Exchanged(k, k0, x, y, i) && x + i + 1 <= y && y + i + 1 <= |k|
    ensures Exchanged(k, Swap(k0, x + i, y + i), x, y, i + 1)
  {
    var k' := Swap(k0, x + i, y + i);
    forall p | 0 <= p < |k| ensures k'[p] == k[Crossed(p, x, y, i + 1)] {
      assert k0[p] == k[Crossed(p, x, y, i)];
      assert k0[x + i] == k[Crossed(x + i, x, y, i)] && k0[y + i] == k[Crossed(y + i, x, y, i)];
    }
  }

  method FillCache(act: array<Str>, cache: array<Key>, lo: nat, co: nat, n: nat, depth: nat)
    requires lo + n <= act.Length && co + n <= cache.Length
    modifies cache
    ensures KeysOf(act[lo..lo + n], cache[co..co + n], depth)
    ensures OutsideKept(old(cache[..]), cache[..], co, co + n)
  {
    hide KeyAt;
    for i := 0 to n
      invariant KeysOf(act[lo..lo + i], cache[co..co + i], depth)
      invariant OutsideKept(old(cache[..]), cache[..], co, co + n)
    {
      ghost var k := cache[co..co + i];
      cache[co + i] := KeyAt(act[lo + i], depth);
      assert cache[co..co + (i + 1)] == k + [KeyAt(act[lo + i], depth)];
      assert act[lo..lo + (i + 1)] == act[lo..lo + i] + [act[lo + i]];
    }
  }

  /** Median of nine. */
  function PivotIndex(k: seq<Key>): (p: nat)
    requires |k| >= 3
    ensures p < |k|
  {
    var n := |k|;
    Med3(k, Med3(k, 0, n / 8, n / 4),
         Med3(k, n / 2 - n / 8, n / 2, n / 2 + n / 8),
         Med3(k, n - 1 - n / 4, n - 1 - n / 8, n - 3))
  }

  /** The places that are looked at for the pivot: three each at the front, in the middle and at the end. */
  function Nine(n: nat): (a: seq<nat>)
    requires n >= 3
    ensures |a| == 9 && forall x :: 0 <= x < 9 ==> a[x] < n
  {
    [0, n / 8, n / 4, n / 2 - n / 8, n / 2, n / 2 + n / 8, n - 1 - n / 4, n - 1 - n / 8, n - 3]
  }

  ghost function NotAbove(k: seq<Key>, v: Key): set<nat>
    requires |k| >= 3
  {
    set x: nat | x < 9 && k[Nine(|k|)[x]] <= v
  }

  ghost function NotBelow(k: seq<Key>, v: Key): set<nat>
    requires |k| >= 3
  {
    set x: nat | x < 9 && k[Nine(|k|)[x]] >= v
  }

  /** The key is one of the nine; at least four of them are no larger, and at least four no smaller. */
  ghost predicate AmongNine(k: seq<Key>, v: Key) {
    && |k| >= 3 && |NotAbove(k, v)| >= 4 && |NotBelow(k, v)| >= 4
    && exists x: nat :: x < 9 && k[Nine(|k|)[x]] == v
  }

  lemma FourMembers(a: set<nat>, w: nat, x: nat, y: nat, z: nat)
    requires w < x < y < z && w in a && x in a && y in a && z in a
    ensures |a| >= 4
  {
    assert |{w, x, y, z}| == 4;
    assert {w, x, y, z} <= a;
    SubsetSize({w, x, y, z}, a);
  }

  lemma SubsetSize(a: set<nat>, b: set<nat>)
    requires a <= b
    ensures |a| <= |b|
  {
    assert |b| == |b - a| + |a * b|;
    assert a * b == a;
  }

  function MedianFrom(k: seq<Key>, b: nat): (p: nat)
    requires |k| >= 3 && b <= 6
    ensures p < |k|
  {
    var a := Nine(|k|);
    Med3(k, a[b], a[b + 1], a[b + 2])
  }

  /** Two of three are not above their median, and two not below. */
  lemma TwoAndTwo(k: seq<Key>, b: nat) returns (w: nat, x: nat, y: nat, z: nat)
    requires |k| >= 3 && b <= 6
    ensures b <= w < x < b + 3 && b <= y < z < b + 3
    ensures var a, m := Nine(|k|), k[MedianFrom(k, b)];
            k[a[w]] <= m && k[a[x]] <= m && k[a[y]] >= m && k[a[z]] >= m
    ensures MedianFrom(k, b) in Nine(|k|)
  {
    var a, m := Nine(|k|), k[MedianFrom(k, b)];
    hide Nine;
    w, x := if k[a[b]] <= m then b else b + 1, if k[a[b + 2]] <= m then b + 2 else b + 1;
    y, z := if k[a[b]] >= m then b else b + 1, if k[a[b + 2]] >= m then b + 2 else b + 1;
  }

  lemma InNotAbove(k: seq<Key>, v: Key, w: nat)
    requires |k| >= 3 && w < 9 && k[Nine(|k|)[w]] <= v
    ensures w in NotAbove(k, v)
  {
  }

  lemma InNotBelow(k: seq<Key>, v: Key, w: nat)
    requires |k| >= 3 && w < 9 && k[Nine(|k|)[w]] >= v
    ensures w in NotBelow(k, v)
  {
  }

  /** Two in each of two threes. */
  lemma FourAndFour(k: seq<Key>, v: Key, b: nat, c: nat, d: nat, e: nat)
    requires |k| >= 3 && b + 3 <= c <= 6 && d + 3 <= e <= 6
    requires k[MedianFrom(k, b)] <= v && k[MedianFrom(k, c)] <= v && k[MedianFrom(k, d)] >= v && k[MedianFrom(k, e)] >= v
    ensures |NotAbove(k, v)| >= 4 && |NotBelow(k, v)| >= 4
  {
    hide *;
    var w, x, _, _ := TwoAndTwo(k, b);
    var w', x', _, _ := TwoAndTwo(k, c);
    var _, _, y, z := TwoAndTwo(k, d);
    var _, _, y', z' := TwoAndTwo(k, e);
    InNotAbove(k, v, w);
    InNotAbove(k, v, x);
    InNotAbove(k, v, w');
    InNotAbove(k, v, x');
    FourMembers(NotAbove(k, v), w, x, w', x');
    InNotBelow(k, v, y);
    InNotBelow(k, v, z);
    InNotBelow(k, v, y');
    InNotBelow(k, v, z');
    FourMembers(NotBelow(k, v), y, z, y', z');
  }

  /** The median of three medians of three. */
  lemma PivotIsAmongNine(k: seq<Key>)
    requires |k| >= 3
    ensures AmongNine(k, k[PivotIndex(k)])
  {
    hide *;
    var v := k[PivotIndex(k)];
    PivotIs(k);
    var f, m, e := k[MedianFrom(k, 0)], k[MedianFrom(k, 3)], k[MedianFrom(k, 6)];
    var b, c := if f <= v then 0 else 3, if e <= v then 6 else 3;
    var b', c' := if f >= v then 0 else 3, if e >= v then 6 else 3;
    FourAndFour(k, v, b, c, b', c');
    var _, _, _, _ := TwoAndTwo(k, 0);
    var _, _, _, _ := TwoAndTwo(k, 3);
    var _, _, _, _ := TwoAndTwo(k, 6);
    ItIsAmongNine(k, PivotIndex(k));
  }

  lemma ItIsAmongNine(k: seq<Key>, p: nat)
    requires |k| >= 3 && p in Nine(|k|) && |NotAbove(k, k[p])| >= 4 && |NotBelow(k, k[p])| >= 4
    ensures AmongNine(k, k[p])
  {
    hide Nine, NotAbove, NotBelow;
    var x: nat :| x < |Nine(|k|)| && Nine(|k|)[x] == p;
  }

  lemma PivotIs(k: seq<Key>)
    requires |k| >= 3
    ensures var p, f, m, e := PivotIndex(k), MedianFrom(k, 0), MedianFrom(k, 3), MedianFrom(k, 6);
            && (p == f || p == m || p == e)
            && (k[p] >= k[f] || k[p] >= k[m]) && (k[p] >= k[f] || k[p] >= k[e]) && (k[p] >= k[m] || k[p] >= k[e])
            && (k[p] <= k[f] || k[p] <= k[m]) && (k[p] <= k[f] || k[p] <= k[e]) && (k[p] <= k[m] || k[p] <= k[e])
  {
  }

  /** What a finished partition step remembers. */
  datatype MkqsStep = MkqsStep(numLt: nat, numEq: nat, numGt: nat, eqRecurse: bool,
                               lcpLt: nat, lcpEq: nat, lcpGt: nat, dcharEq: Byte, dcharGt: Byte)

  /** LCPs and characters at the borders, from the pivot and the extreme keys next to it. */
  ghost predicate Saved(step: MkqsStep, v: Key, maxLt: Key, minGt: Key) {
    && (step.eqRecurse <==> v % 256 != 0) && step.lcpEq == LcpKeyDepth(v)
    && (step.numLt > 0 ==> && step.lcpLt == LcpKeyType(maxLt, v) < KEY_BYTES
                           && step.dcharEq == GetCharAtDepth(v, step.lcpLt))
    && (step.numGt > 0 ==> && step.lcpGt == LcpKeyType(v, minGt) < KEY_BYTES
                           && step.dcharGt == GetCharAtDepth(minGt, step.lcpGt))
  }

  ghost predicate Partitioned(act: seq<Str>, cache: seq<Key>, lo: nat, co: nat, n: nat, depth: nat,
                              step: MkqsStep, v: Key, maxLt: Key, minGt: Key) {
    && lo + n <= |act| && co + n <= |cache| && n == step.numLt + step.numEq + step.numGt
    && KeysOf(act[lo..lo + n], cache[co..co + n], depth)
    && ThreeParts(cache[co..co + n], v, step.numLt, step.numEq, maxLt, minGt)
    && Saved(step, v, maxLt, minGt)
  }

  method SaveLcps(numLt: nat, numEq: nat, numGt: nat, v: Key, maxLt: Key, minGt: Key) returns (step: MkqsStep)
    requires numLt > 0 ==> maxLt < v
    requires numGt > 0 ==> v < minGt
    ensures Saved(step, v, maxLt, minGt) && step.numLt == numLt && step.numEq == numEq && step.numGt == numGt
  {
    var lcpLt, dcharEq, lcpGt, dcharGt := 0, 0, 0, 0;
    if numLt > 0 {
      LcpOfDifferentKeys(maxLt, v);
      lcpLt := LcpKeyType(maxLt, v);
      dcharEq := GetCharAtDepth(v, lcpLt);
    }
    var lcpEq := LcpKeyDepth(v);
    if numGt > 0 {
      LcpOfDifferentKeys(v, minGt);
      lcpGt := LcpKeyType(v, minGt);
      dcharGt := GetCharAtDepth(minGt, lcpGt);
    }
    step := MkqsStep(numLt, numEq, numGt, v % 256 != 0, lcpLt, lcpEq, lcpGt, dcharEq, dcharGt);
  }

  lemma ThreePartsExtremes(k: seq<Key>, v: Key, lt: nat, eq: nat, maxLt: Key, minGt: Key)
    requires ThreeParts(k, v, lt, eq, maxLt, minGt)
    ensures lt > 0 ==> maxLt < v
    ensures lt + eq < |k| ==> v < minGt
  {
  }

  lemma CutPartitioned(act0: seq<Str>, act: seq<Str>, cache0: seq<Key>, cache: seq<Key>, lo: nat, co: nat, n: nat, depth: nat,
                       step: MkqsStep, v: Key, maxLt: Key, minGt: Key)
    requires Cut(act0, act, cache0, cache, lo, co, n, depth) && n == step.numLt + step.numEq + step.numGt
    requires ThreeParts(cache[co..co + n], v, step.numLt, step.numEq, maxLt, minGt) && Saved(step, v, maxLt, minGt)
    ensures Partitioned(act, cache, lo, co, n, depth, step, v, maxLt, minGt)
    ensures SameStrings(act0, act, lo, n) && OutsideKept(act0, act, lo, lo + n) && OutsideKept(cache0, cache, co, co + n)
  {
  }

  lemma ExchangeBounds(k: seq<Key>, v: Key, s: Fat)
    requires FatInv(k, v, s, false) && s.llt == s.rgt + 1
    ensures s.leq <= s.llt <= s.req + 1 <= |k|
    ensures LeftSize(s) <= s.leq && 2 * LeftSize(s) <= s.llt
    ensures RightSize(s, |k|) <= |k| - 1 - s.req && s.llt + 2 * RightSize(s, |k|) <= |k|
  {
  }

  lemma LeftIsExchanged(k: seq<Key>, k': seq<Key>, s: Fat)
    requires s.leq <= s.llt && LeftSize(s) <= s.llt && Exchanged(k, k', 0, s.llt - LeftSize(s), LeftSize(s))
    ensures LeftExchanged(k, k', s) && |k'| == |k|
  {
  }

  lemma RightIsExchanged(k: seq<Key>, k': seq<Key>, s: Fat)
    requires s.rgt <= s.req < |k| && RightSize(s, |k|) <= |k|
    requires Exchanged(k, k', s.llt, |k| - RightSize(s, |k|), RightSize(s, |k|))
    ensures RightExchanged(k, k', s) && |k'| == |k|
  {
  }

  /** Equal keys move from both ends to the centre. */
  method Collect(act: array<Str>, cache: array<Key>, lo: nat, co: nat, n: nat, v: Key, s: Fat,
                 ghost depth: nat, ghost act0: seq<Str>, ghost cache0: seq<Key>)
    requires lo + n <= act.Length && co + n <= cache.Length
    requires Cut(act0, act[..], cache0, cache[..], lo, co, n, depth)
    requires FatInv(cache[co..co + n], v, s, false) && s.llt == s.rgt + 1
    modifies act, cache
    ensures s.leq <= s.llt <= s.req + 1 <= n
    ensures Cut(act0, act[..], cache0, cache[..], lo, co, n, depth)
    ensures ThreeParts(cache[co..co + n], v, s.llt - s.leq, s.leq + (n - 1 - s.req), s.maxLt, s.minGt)
  {
    hide *;
    ghost var k := cache[co..co + n];
    ExchangeBounds(k, v, s);
    var size1 := LeftSize(s);
    SwapRanges(act, cache, lo, co, n, 0, s.llt - size1, size1, depth, act0, cache0);
    ghost var k' := cache[co..co + n];
    LeftIsExchanged(k, k', s);
    var size2 := RightSize(s, n);
    SwapRanges(act, cache, lo, co, n, s.llt, n - size2, size2, depth, act0, cache0);
    RightIsExchanged(k', cache[co..co + n], s);
    Collected(k, k', cache[co..co + n], v, s);
  }

  method LoadCache(act: array<Str>, cache: array<Key>, lo: nat, co: nat, n: nat, depth: nat, cacheDirty: bool)
    requires lo + n <= act.Length && co + n <= cache.Length
    requires cacheDirty || KeysOf(act[lo..lo + n], cache[co..co + n], depth)
    modifies cache
    ensures Cut(act[..], act[..], old(cache[..]), cache[..], lo, co, n, depth)
  {
    if cacheDirty { FillCache(act, cache, lo, co, n, depth); }
    assert act[..][lo..lo + n] == act[lo..lo + n] && cache[..][co..co + n] == cache[co..co + n];
  }

  lemma SameKeys(m: seq<Str>, k: seq<Key>, k': seq<Key>, depth: nat)
    requires KeysOf(m, k, depth) && KeysOf(m, k', depth)
    ensures k == k'
  {
  }

  lemma SameSize(m: seq<Str>, k: seq<Key>, depth: nat)
    requires KeysOf(m, k, depth)
    ensures |k| == |m|
  {
  }

  lemma CutKeys(act: seq<Str>, cache0: seq<Key>, cache: seq<Key>, lo: nat, co: nat, n: nat, depth: nat)
    requires lo + n <= |act| && Cut(act, act, cache0, cache, lo, co, n, depth)
    ensures KeysOf(act[lo..lo + n], cache[co..co + n], depth)
  {
  }

  lemma SwapFront(k: seq<Key>, p: nat)
    requires p < |k|
    ensures Swap(k, 0, p)[0] == k[p]
  {
  }

  /** The constructor of the step: keys are loaded if necessary, then strings and keys are
      partitioned around the median of nine. */
  method NewStep(act: array<Str>, cache: array<Key>, lo: nat, co: nat, n: nat, depth: nat, cacheDirty: bool)
    returns (step: MkqsStep, ghost v: Key, ghost maxLt: Key, ghost minGt: Key)
    requires lo + n <= act.Length && co + n <= cache.Length && n >= 3
    requires cacheDirty || KeysOf(act[lo..lo + n], cache[co..co + n], depth)
    modifies act, cache
    ensures Partitioned(act[..], cache[..], lo, co, n, depth, step, v, maxLt, minGt)
    ensures SameStrings(old(act[..]), act[..], lo, n) && OutsideKept(old(act[..]), act[..], lo, lo + n)
    ensures OutsideKept(old(cache[..]), cache[..], co, co + n)
    ensures forall k :: KeysOf(old(act[lo..lo + n]), k, depth) ==> AmongNine(k, v)
  {
    hide *;
    ghost var act0, cache0 := act[..], cache[..];
    LoadCache(act, cache, lo, co, n, depth, cacheDirty);
    ghost var m0, k0 := act[lo..lo + n], cache[co..co + n];
    CutKeys(act[..], cache0, cache[..], lo, co, n, depth);
    assert act[..][lo..lo + n] == m0 && cache[..][co..co + n] == k0;
    SameSize(m0, k0, depth);
    PivotIsAmongNine(k0);
    var p := PivotIndex(cache[co..co + n]);
    SwapBoth(act, cache, lo, co, n, 0, p, depth, act0, cache0);
    SwapFront(k0, p);
    assert cache[co] == cache[co..co + n][0];
    var pivot := cache[co];
    var s := ScanBoth(act, cache, lo, co, n, pivot, depth, act0, cache0);
    Collect(act, cache, lo, co, n, pivot, s, depth, act0, cache0);
    ThreePartsExtremes(cache[co..co + n], pivot, s.llt - s.leq, s.leq + (n - 1 - s.req), s.maxLt, s.minGt);
    step := SaveLcps(s.llt - s.leq, s.leq + (n - 1 - s.req), s.req - s.rgt, pivot, s.maxLt, s.minGt);
    v, maxLt, minGt := pivot, s.maxLt, s.minGt;
    assert cache[..][co..co + n] == cache[co..co + n];
    forall k | KeysOf(m0, k, depth) ensures AmongNine(k, v) { SameKeys(m0, k, k0, depth); }
    CutPartitioned(act0, act[..], cache0, cache[..], lo, co, n, depth, step, v, maxLt, minGt);
  }
}
