/** In-place permutation of strings into buckets by walking cycles, shared by the sample
    sorters and the radix sort. */
module Permute {
  import opened Strings

  /** Position of the first element of bucket b. */
  function Start(size: seq<nat>, b: nat): nat
    requires b <= |size|
  {
    if b == 0 then 0 else Start(size, b - 1) + size[b - 1]
  }

  lemma {:induction false} StartMono(size: seq<nat>, a: nat, b: nat)
    requires a <= b <= |size|
    ensures Start(size, a) <= Start(size, b)
    ensures a < b ==> Start(size, a) + size[a] <= Start(size, b)
    decreases b
  {
    if a < b { StartMono(size, a, b - 1); }
  }

  function NumBelow(g: seq<nat>, b: nat): nat {
    if g == [] then 0 else NumBelow(g[..|g| - 1], b) + (if g[|g| - 1] < b then 1 else 0)
  }

  ghost predicate Counts(g: seq<nat>, size: seq<nat>) {
    && (forall p :: 0 <= p < |g| ==> g[p] < |size|)
    && (forall c :: 0 <= c < |size| ==> multiset(g)[c] == size[c])
  }

  lemma {:induction false} NumBelowStep(g: seq<nat>, b: nat)
    ensures NumBelow(g, b + 1) == NumBelow(g, b) + multiset(g)[b]
  {
    if g != [] {
      NumBelowStep(g[..|g| - 1], b);
      assert g == g[..|g| - 1] + [g[|g| - 1]];
    }
  }

  lemma {:induction false} NumBelowAll(g: seq<nat>, b: nat)
    requires forall p :: 0 <= p < |g| ==> g[p] < b
    ensures NumBelow(g, b) == |g|
  {
    if g != [] { NumBelowAll(g[..|g| - 1], b); }
  }

  lemma {:induction false} NumBelowNone(g: seq<nat>)
    ensures NumBelow(g, 0) == 0
  {
    if g != [] { NumBelowNone(g[..|g| - 1]); }
  }

  lemma {:induction false} StartIsNumBelow(g: seq<nat>, size: seq<nat>, b: nat)
    requires b <= |size| && Counts(g, size)
    ensures Start(size, b) == NumBelow(g, b)
  {
    if b == 0 {
      NumBelowNone(g);
    } else {
      StartIsNumBelow(g, size, b - 1);
      NumBelowStep(g, b - 1);
    }
  }

  lemma StartTotal(g: seq<nat>, size: seq<nat>)
    requires Counts(g, size)
    ensures Start(size, |size|) == |g|
  {
    StartIsNumBelow(g, size, |size|);
    NumBelowAll(g, |size|);
  }

  /** A run of v's and one more v elsewhere. */
  lemma {:induction false} RunPlusOne(g: seq<nat>, v: nat, x: nat, y: nat, i: nat)
    requires x <= y <= |g| && i < |g| && !(x <= i < y)
    requires g[i] == v && forall p :: x <= p < y ==> g[p] == v
    ensures multiset(g)[v] >= y - x + 1
    decreases |g|
  {
    var n := |g| - 1;
    var g' := g[..n];
    assert g == g' + [g[n]];
    if i == n {
      RunOnly(g', v, if x <= n then x else n, if y <= n then y else n);
    } else if y == |g| && x < y {
      RunPlusOne(g', v, x, y - 1, i);
    } else {
      RunPlusOne(g', v, if x <= n then x else n, if y <= n then y else n, i);
    }
  }

  lemma {:induction false} RunOnly(g: seq<nat>, v: nat, x: nat, y: nat)
    requires x <= y <= |g|
    requires forall p :: x <= p < y ==> g[p] == v
    ensures multiset(g)[v] >= y - x
    decreases |g|
  {
    if g != [] {
      var n := |g| - 1;
      assert g == g[..n] + [g[n]];
      if y == |g| && x < y {
        RunOnly(g[..n], v, x, n);
      } else {
        RunOnly(g[..n], v, if x <= n then x else n, if y <= n then y else n);
      }
    }
  }

  // ---- the state of the walk -------------------------------------------------

  /** Bucket c occupies exactly its place. */
  ghost predicate Complete(g: seq<nat>, size: seq<nat>, c: nat)
    requires c < |size|
  {
    forall p :: Start(size, c) <= p < Start(size, c + 1) && p < |g| ==> g[p] == c
  }

  /** Bucket c is filled from idx[c] to its end. */
  ghost predicate Filled(g: seq<nat>, size: seq<nat>, c: nat, idx: nat)
    requires c < |size|
  {
    && Start(size, c) <= idx <= Start(size, c + 1)
    && (forall p :: idx <= p < Start(size, c + 1) && p < |g| ==> g[p] == c)
  }

  ghost predicate AllBut(g: seq<nat>, size: seq<nat>, idx: seq<nat>, b: nat) {
    && |idx| == |size| && Counts(g, size) && b <= |size|
    && (forall c :: 0 <= c < b ==> Complete(g, size, c))
    && (forall c :: b <= c < |size| ==> Filled(g, size, c, idx[c]))
  }

  /** The hole is at the start i of bucket b; the string in hand counts as standing in it.
      Bucket b is not full, unless it was found full on arrival at a later position. */
  ghost predicate Walking(g: seq<nat>, size: seq<nat>, idx: seq<nat>, b: nat, i: nat) {
    && AllBut(g, size, idx, b) && b < |size| && size[b] > 0
    && i == Start(size, b) && i < |g|
    && (idx[b] > i || i > 0)
  }

  lemma Misplaced(g: seq<nat>, size: seq<nat>, v: nat, x: nat, i: nat)
    requires Counts(g, size) && v < |size| && i < |g| && g[i] == v
    requires Start(size, v) <= x <= Start(size, v + 1) <= |g|
    requires forall p :: x <= p < Start(size, v + 1) ==> g[p] == v
    requires !(x <= i < Start(size, v + 1))
    ensures x > Start(size, v)
  {
    RunPlusOne(g, v, x, Start(size, v + 1), i);
  }

  /** The bucket of the string in hand is not finished and has a free place left. */
  lemma InHand(g: seq<nat>, size: seq<nat>, idx: seq<nat>, b: nat, i: nat)
    requires Walking(g, size, idx, b, i)
    ensures var v := g[i];
            && b <= v < |size| && idx[v] >= 1
            && (idx[v] == i ==> v == b)
            && (idx[b] > i ==> idx[v] > Start(size, v) >= i)
  {
    var v := g[i];
    StartTotal(g, size);
    StartMono(size, v + 1, |size|);
    if v < b {
      StartMono(size, v + 1, b);
      assert Complete(g, size, v);
      Misplaced(g, size, v, Start(size, v), i);
    }
    StartMono(size, b, v);
    if idx[b] > i {
      if v > b { StartMono(size, b + 1, v); }
      Misplaced(g, size, v, idx[v], i);
    } else {
      assert g[i] == b;
    }
  }

  ghost function Swap<T>(s: seq<T>, i: nat, j: nat): (r: seq<T>)
    requires i < |s| && j < |s|
    ensures multiset(r) == multiset(s)
  {
    s[i := s[j]][j := s[i]]
  }

  lemma WalkInHand(g: seq<nat>, size: seq<nat>, idx: seq<nat>, b: nat, i: nat)
    requires Walking(g, size, idx, b, i)
    ensures i < |g| && g[i] < |idx| == |size| && idx[g[i]] >= 1
  {
    InHand(g, size, idx, b, i);
  }

  /** While the walk goes on, the place to fill lies behind the hole, in the string's bucket. */
  lemma StepBounds(g: seq<nat>, size: seq<nat>, idx: seq<nat>, b: nat, i: nat, j: nat)
    requires Walking(g, size, idx, b, i) && g[i] < |idx|
    requires j + 1 == idx[g[i]] && j > i
    ensures var v := g[i];
            && b <= v && i < idx[b]
            && Start(size, v) <= j < Start(size, v + 1) <= |g|
  {
    var v := g[i];
    InHand(g, size, idx, b, i);
    StartTotal(g, size);
    StartMono(size, v + 1, |size|);
    assert Filled(g, size, v, idx[v]) && Filled(g, size, b, idx[b]);
  }

  lemma SwapCounts(g: seq<nat>, size: seq<nat>, i: nat, j: nat)
    requires Counts(g, size) && i < |g| && j < |g|
    ensures Counts(Swap(g, i, j), size)
  {
  }

  /** Placing the string in hand at j and taking up the one found there. */
  lemma WalkStep(g: seq<nat>, size: seq<nat>, idx: seq<nat>, b: nat, i: nat, j: nat)
    requires Walking(g, size, idx, b, i) && g[i] < |idx|
    requires j + 1 == idx[g[i]] && j > i
    ensures i < j < |g| && Walking(Swap(g, i, j), size, idx[g[i] := j], b, i)
  {
    hide Complete, Filled, Counts, Swap;
    var v := g[i];
    StepBounds(g, size, idx, b, i, j);
    SwapCounts(g, size, i, j);
    var g', idx' := Swap(g, i, j), idx[v := j];
    forall c | 0 <= c < b ensures Complete(g', size, c) {
      StartMono(size, c + 1, b);
      StepComplete(g, size, c, i, j);
    }
    forall c | b <= c < |size| ensures Filled(g', size, c, idx'[c]) {
      StartMono(size, b, c);
      StepFilled(g, size, c, idx[c], v, i, j);
    }
  }

  lemma StepComplete(g: seq<nat>, size: seq<nat>, c: nat, i: nat, j: nat)
    requires c < |size| && Complete(g, size, c) && Start(size, c + 1) <= i < j < |g|
    ensures Complete(Swap(g, i, j), size, c)
  {
  }

  lemma StepFilled(g: seq<nat>, size: seq<nat>, c: nat, idx: nat, v: nat, i: nat, j: nat)
    requires c < |size| && v < |size| && Filled(g, size, c, idx)
    requires i < j < |g| && g[i] == v
    requires Start(size, v) <= j < Start(size, v + 1) && (c == v ==> idx == j + 1)
    requires i < Start(size, c) || i < idx
    ensures Filled(Swap(g, i, j), size, c, if c == v then j else idx)
  {
    if c < v { StartMono(size, c + 1, v); }
    if v < c { StartMono(size, v + 1, c); }
  }

  /** The walk only ends with a string of bucket b in hand, and then the bucket is complete. */
  lemma WalkEnd(g: seq<nat>, size: seq<nat>, idx: seq<nat>, idx': seq<nat>, b: nat, i: nat)
    requires Walking(g, size, idx, b, i) && g[i] < |idx|
    requires idx[g[i]] <= i + 1
    requires |idx'| == |idx| && forall c :: 0 <= c < |idx| && c != g[i] ==> idx'[c] == idx[c]
    ensures g[i] == b && AllBut(g, size, idx', b + 1)
  {
    var v := g[i];
    InHand(g, size, idx, b, i);
    if v > b { StartMono(size, b + 1, v); }
    assert Filled(g, size, b, idx[b]);
    assert Complete(g, size, b);
    forall c | b < c < |size| ensures Filled(g, size, c, idx'[c]) {
      assert Filled(g, size, c, idx[c]);
    }
  }

  // ---- the loops ---------------------------------------------------------------

  method CountBuckets(cache: array<nat>, n: nat, k: nat) returns (bktsize: array<nat>)
    requires n <= cache.Length && forall p :: 0 <= p < n ==> cache[p] < k
    ensures fresh(bktsize) && bktsize.Length == k && Counts(cache[..n], bktsize[..])
  {
    bktsize := new nat[k](_ => 0);
    for p := 0 to n
      invariant forall c :: 0 <= c < k ==> multiset(cache[..p])[c] == bktsize[c]
    {
      assert cache[..p + 1] == cache[..p] + [cache[p]];
      bktsize[cache[p]] := bktsize[cache[p]] + 1;
    }
  }

  /** Bucket top is the last one that is not empty. */
  ghost predicate IsLast(size: seq<nat>, top: nat) {
    top < |size| && (top > 0 ==> size[top] > 0) && forall c :: top < c < |size| ==> size[c] == 0
  }

  method PrefixSum(bktsize: array<nat>) returns (bktindex: array<nat>, last: nat, ghost top: nat)
    requires bktsize.Length > 0
    ensures fresh(bktindex) && bktindex.Length == bktsize.Length
    ensures forall c :: 0 <= c < bktsize.Length ==> bktindex[c] == Start(bktsize[..], c + 1)
    ensures IsLast(bktsize[..], top) && last == bktsize[top]
  {
    bktindex := new nat[bktsize.Length];
    bktindex[0] := bktsize[0];
    last, top := bktsize[0], 0;
    assert Start(bktsize[..], 1) == Start(bktsize[..], 0) + bktsize[0];
    for i := 1 to bktsize.Length
      invariant forall c :: 0 <= c < i ==> bktindex[c] == Start(bktsize[..], c + 1)
      invariant top < i && last == bktsize[top] && (top > 0 ==> bktsize[top] > 0)
      invariant forall c :: top < c < i ==> bktsize[c] == 0
    {
      assert bktindex[i - 1] == Start(bktsize[..], (i - 1) + 1);
      bktindex[i] := bktindex[i - 1] + bktsize[i];
      if bktsize[i] > 0 { last, top := bktsize[i], i; }
    }
  }

  ghost predicate Paired<T>(g: seq<nat>, h: seq<T>, f: T -> nat) {
    |g| == |h| && forall p :: 0 <= p < |g| ==> g[p] == f(h[p])
  }

  lemma {:induction false} SumUpdate(s: seq<nat>, k: nat, v: nat)
    requires k < |s| && v < s[k]
    ensures Sum(s[k := v]) < Sum(s)
  {
    var n := |s| - 1;
    if k < n {
      assert s[k := v][..n] == s[..n][k := v];
      SumUpdate(s[..n], k, v);
    } else {
      assert s[k := v][..n] == s[..n];
    }
  }

  ghost function Sum(s: seq<nat>): nat {
    if s == [] then 0 else Sum(s[..|s| - 1]) + s[|s| - 1]
  }

  /** The memory shows the strings h with their buckets g, except at the hole i;
      behind the hole the cached bucket numbers are up to date. */
  ghost predicate Shown<T>(m: seq<T>, c: seq<nat>, g: seq<nat>, h: seq<T>, i: nat) {
    && |m| == |h| == |g| && |g| <= |c|
    && (forall p :: 0 <= p < |h| && p != i ==> m[p] == h[p])
    && (forall p :: i < p < |g| ==> c[p] == g[p])
  }

  lemma ShownSwap<T>(m: seq<T>, c: seq<nat>, g: seq<nat>, h: seq<T>, i: nat, j: nat)
    requires Shown(m, c, g, h, i) && i < j < |g|
    ensures Shown(m[j := h[i]], c[j := g[i]], Swap(g, i, j), Swap(h, i, j), i)
    ensures m[j] == Swap(h, i, j)[i] && c[j] == Swap(g, i, j)[i]
  {
  }

  lemma ShownHole<T>(m: seq<T>, c: seq<nat>, g: seq<nat>, h: seq<T>, i: nat, x: T)
    requires Shown(m, c, g, h, i) && i < |m|
    ensures Shown(m[i := x], c, g, h, i)
  {
  }

  lemma PairedSwap<T>(g: seq<nat>, h: seq<T>, f: T -> nat, i: nat, j: nat)
    requires Paired(g, h, f) && i < |g| && j < |g|
    ensures Paired(Swap(g, i, j), Swap(h, i, j), f)
  {
  }

  /** One round of the outer loop: follow the cycle from position i until a string of
      the bucket at i comes to hand. */
  method WalkCycle(a: array<Str>, lo: nat, n: nat, cache: array<nat>, bktindex: array<nat>, i: nat,
                      ghost size: seq<nat>, ghost b: nat, ghost f: Str -> nat, ghost g0: seq<nat>, ghost h0: seq<Str>)
    returns (permbkt: nat, ghost g: seq<nat>, ghost h: seq<Str>)
    requires lo + n <= a.Length && n <= cache.Length && i < n && cache != bktindex
    requires |g0| == |h0| == n && Shown(a[lo..lo + n], cache[..], g0, h0, i) && Paired(g0, h0, f)
    requires a[lo + i] == h0[i] && cache[i] == g0[i]
    requires Walking(g0, size, bktindex[..], b, i)
    modifies a, cache, bktindex
    ensures permbkt == b && |g| == |h| == n
    ensures Shown(a[lo..lo + n], cache[..], g, h, i) && Paired(g, h, f) && a[lo + i] == h[i]
    ensures AllBut(g, size, bktindex[..], b + 1) && multiset(h) == multiset(h0)
    ensures a[..lo] == old(a[..lo]) && a[lo + n..] == old(a[lo + n..])
  {
    hide Walking, AllBut, Shown, Paired, Swap;
    var perm := a[lo + i];
    permbkt := cache[i];
    g, h := g0, h0;
    ghost var idx: seq<nat> := bktindex[..];
    WalkInHand(g, size, idx, b, i);
    var j := bktindex[permbkt] - 1;
    bktindex[permbkt] := j;
    while j > i
      invariant i < |g| == |h| == n && j >= 0 && permbkt < |idx| == |size|
      invariant permbkt == g[i] && perm == h[i]
      invariant Walking(g, size, idx, b, i) && j + 1 == idx[permbkt]
      invariant bktindex[..] == idx[permbkt := j]
      invariant Shown(a[lo..lo + n], cache[..], g, h, i) && Paired(g, h, f)
      invariant multiset(h) == multiset(h0)
      invariant a[..lo] == old(a[..lo]) && a[lo + n..] == old(a[lo + n..])
      decreases Sum(idx)
    {
      ghost var m, c := a[lo..lo + n], cache[..];
      WalkStep(g, size, idx, b, i, j);
      ShownSwap(m, c, g, h, i, j);
      PairedSwap(g, h, f, i, j);
      SumUpdate(idx, permbkt, j);
      perm, a[lo + j] := a[lo + j], perm;
      permbkt, cache[j] := cache[j], permbkt;
      assert a[lo..lo + n] == m[j := h[i]];
      idx := bktindex[..];
      g, h := Swap(g, i, j), Swap(h, i, j);
      WalkInHand(g, size, idx, b, i);
      j := bktindex[permbkt] - 1;
      bktindex[permbkt] := j;
    }
    WalkEnd(g, size, idx, bktindex[..], b, i);
    ghost var m := a[lo..lo + n];
    a[lo + i] := perm;
    assert a[lo..lo + n] == m[i := perm];
    ShownHole(m, cache[..], g, h, i, perm);
  }

  /** All strings stand in ascending buckets. */
  ghost predicate InBuckets(q: seq<Str>, size: seq<nat>, f: Str -> nat) {
    && Start(size, |size|) == |q|
    && forall c, p :: 0 <= c < |size| && Start(size, c) <= p < Start(size, c + 1) && p < |q| ==> f(q[p]) == c
  }

  /** When all buckets up to b are complete and only the last non-empty one can be left,
      everything is in place. */
  lemma LastBucketInPlace(g: seq<nat>, size: seq<nat>, idx: seq<nat>, b: nat, top: nat, c: nat)
    requires AllBut(g, size, idx, b) && IsLast(size, top) && c < |size|
    requires Start(size, b) + size[top] >= |g|
    ensures Complete(g, size, c)
  {
    StartTotal(g, size);
    StartMono(size, c + 1, |size|);
    StartMono(size, top + 1, |size|);
    if c >= b {
      StartMono(size, b, c);
      NothingBehind(size, top, top + 1);
      forall p | Start(size, c) <= p < Start(size, c + 1) && p < |g| ensures g[p] == c {
        RightPlace(g, size, idx, b, top, c, p);
      }
    }
  }

  lemma {:induction false} NothingBehind(size: seq<nat>, top: nat, c: nat)
    requires IsLast(size, top) && top < c <= |size|
    ensures Start(size, c) == Start(size, |size|)
    decreases |size| - c
  {
    if c < |size| { NothingBehind(size, top, c + 1); }
  }

  lemma RightPlace(g: seq<nat>, size: seq<nat>, idx: seq<nat>, b: nat, top: nat, c: nat, p: nat)
    requires AllBut(g, size, idx, b) && IsLast(size, top) && b <= c < |size|
    requires Start(size, b) + size[top] >= |g|
    requires Start(size, c) <= p < Start(size, c + 1) && p < |g|
    ensures g[p] == c
  {
    var v := g[p];
    StartTotal(g, size);
    NothingBehind(size, top, top + 1);
    assert multiset(g)[v] == size[v] && v in multiset(g);
    StartMono(size, b, c);
    if v < b {
      assert Complete(g, size, v);
      StartMono(size, v + 1, b);
      StartMono(size, b, |size|);
      Misplaced(g, size, v, Start(size, v), p);
    } else if v < top {
      StartMono(size, b, v);
      StartMono(size, v, top);
    } else if c < top {
      StartMono(size, b, c);
      StartMono(size, c, top);
    }
  }

  lemma Arranged(m: seq<Str>, c: seq<nat>, g: seq<nat>, h: seq<Str>, f: Str -> nat,
                 size: seq<nat>, idx: seq<nat>, b: nat, top: nat, i: nat)
    requires Between(m, c, g, h, f, size, idx, b, i) && IsLast(size, top) && i + size[top] >= |g|
    ensures InBuckets(h, size, f) && m == h
  {
    StartTotal(g, size);
    forall c, p | 0 <= c < |size| && Start(size, c) <= p < Start(size, c + 1) && p < |h| ensures f(h[p]) == c {
      LastBucketInPlace(g, size, idx, b, top, c);
    }
  }

  /** The position is the start of a bucket; this names the non-empty one that starts there. */
  lemma {:induction false} BucketAt(g: seq<nat>, size: seq<nat>, idx: seq<nat>, b: nat, top: nat, i: nat) returns (b': nat)
    requires AllBut(g, size, idx, b) && IsLast(size, top) && i == Start(size, b)
    requires i + size[top] < |g|
    ensures b <= b' < |size| && i == Start(size, b') && size[b'] > 0
    ensures AllBut(g, size, idx, b')
    decreases |size| - b
  {
    StartTotal(g, size);
    if size[b] > 0 {
      b' := b;
    } else {
      b' := BucketAt(g, size, idx, b + 1, top, i);
    }
  }

  /** Nothing is placed before the first walk. */
  lemma NothingPlaced(g: seq<nat>, size: seq<nat>, idx: seq<nat>)
    requires Counts(g, size) && |idx| == |size|
    requires forall c :: 0 <= c < |size| ==> idx[c] == Start(size, c + 1)
    ensures AllBut(g, size, idx, 0)
  {
    forall c | 0 <= c < |size| ensures Filled(g, size, c, idx[c]) {
      StartMono(size, c, c + 1);
    }
  }

  /** The strings of a[lo..lo + n] are arranged by ascending bucket number, in place. */
  method PermuteInPlace(a: array<Str>, lo: nat, n: nat, cache: array<nat>, bktsize: array<nat>, bktindex: array<nat>,
                        last: nat, ghost f: Str -> nat, ghost top: nat)
    requires lo + n <= a.Length && n <= cache.Length && cache != bktindex && bktsize != cache && bktsize != bktindex
    requires Counts(cache[..n], bktsize[..]) && Paired(cache[..n], a[lo..lo + n], f)
    requires bktindex.Length == bktsize.Length
    requires forall c :: 0 <= c < bktsize.Length ==> bktindex[c] == Start(bktsize[..], c + 1)
    requires IsLast(bktsize[..], top) && last == bktsize[top]
    modifies a, cache, bktindex
    ensures InBuckets(a[lo..lo + n], bktsize[..], f)
    ensures multiset(a[lo..lo + n]) == multiset(old(a[lo..lo + n]))
    ensures a[..lo] == old(a[..lo]) && a[lo + n..] == old(a[lo + n..])
  {
    ghost var size, g, h := bktsize[..], cache[..n], a[lo..lo + n];
    assert top < |size| && size[top] == last;
    NothingPlaced(g, size, bktindex[..]);
    ghost var b: nat := 0;
    var i: nat := 0;
    assert Between(a[lo..lo + n], cache[..], g, h, f, size, bktindex[..], b, i);
    hide Between, InBuckets, IsLast, Start;
    while i + last < n
      invariant |g| == |h| == n && bktsize[..] == size && top < |size| && size[top] == last
      invariant Between(a[lo..lo + n], cache[..], g, h, f, size, bktindex[..], b, i)
      invariant multiset(h) == multiset(old(a[lo..lo + n]))
      invariant a[..lo] == old(a[..lo]) && a[lo + n..] == old(a[lo + n..])
      decreases n - i
    {
      i, b, g, h := WalkFrom(a, lo, n, cache, bktsize, bktindex, i, size, b, top, f, g, h);
    }
    Arranged(a[lo..lo + n], cache[..], g, h, f, size, bktindex[..], b, top, i);
  }

  /** Between two walks: all buckets before b, and so all positions before i, are final. */
  ghost predicate Between(m: seq<Str>, c: seq<nat>, g: seq<nat>, h: seq<Str>, f: Str -> nat,
                          size: seq<nat>, idx: seq<nat>, b: nat, i: nat) {
    && AllBut(g, size, idx, b) && Paired(g, h, f) && i == Start(size, b)
    && m == h && Synced(c, g, i) && (i == 0 ==> Untouched(idx, size))
  }

  method WalkFrom(a: array<Str>, lo: nat, n: nat, cache: array<nat>, bktsize: array<nat>, bktindex: array<nat>, i: nat,
                  ghost size: seq<nat>, ghost b: nat, ghost top: nat, ghost f: Str -> nat, ghost g: seq<nat>, ghost h: seq<Str>)
    returns (i': nat, ghost b': nat, ghost g': seq<nat>, ghost h': seq<Str>)
    requires lo + n <= a.Length && n <= cache.Length && cache != bktindex && bktsize != cache && bktsize != bktindex
    requires |g| == |h| == n && bktsize[..] == size
    requires Between(a[lo..lo + n], cache[..], g, h, f, size, bktindex[..], b, i)
    requires IsLast(size, top) && i + size[top] < n
    modifies a, cache, bktindex
    ensures |g'| == |h'| == n && i < i' && bktsize[..] == size
    ensures Between(a[lo..lo + n], cache[..], g', h', f, size, bktindex[..], b', i')
    ensures multiset(h') == multiset(h)
    ensures a[..lo] == old(a[..lo]) && a[lo + n..] == old(a[lo + n..])
  {
    hide Between, Walking, AllBut, Paired, IsLast, Start, Shown, Synced, Untouched, Counts;
    ghost var m, c := a[lo..lo + n], cache[..];
    b' := WalkStart(m, c, g, h, f, size, bktindex[..], b, top, i);
    assert m[i] == a[lo + i] && c[i] == cache[i];
    var permbkt;
    permbkt, g', h' := WalkCycle(a, lo, n, cache, bktindex, i, size, b', f, g, h);
    ShownEnd(a[lo..lo + n], cache[..], g', h', f, size, bktindex[..], b', i);
    b' := b' + 1;
    i' := i + bktsize[permbkt];
  }

  /** The cached bucket numbers are up to date from i on. */
  ghost predicate Synced(c: seq<nat>, g: seq<nat>, i: nat) {
    |g| <= |c| && forall p :: i <= p < |g| ==> c[p] == g[p]
  }

  ghost predicate Untouched(idx: seq<nat>, size: seq<nat>) {
    |idx| == |size| && forall c :: 0 <= c < |size| ==> idx[c] == Start(size, c + 1)
  }

  lemma WalkStart(m: seq<Str>, c: seq<nat>, g: seq<nat>, h: seq<Str>, f: Str -> nat,
                  size: seq<nat>, idx: seq<nat>, b: nat, top: nat, i: nat) returns (b': nat)
    requires |m| == |g| && Between(m, c, g, h, f, size, idx, b, i)
    requires IsLast(size, top) && i + size[top] < |g|
    ensures Walking(g, size, idx, b', i) && Shown(m, c, g, h, i) && Paired(g, h, f)
    ensures i < |g| && m[i] == h[i] && c[i] == g[i] && b' < |size| && size[b'] > 0 && i == Start(size, b')
  {
    assert top < |size|;
    hide IsLast, Paired;
    b' := BucketAt(g, size, idx, b, top, i);
  }

  lemma ShownEnd(m: seq<Str>, c: seq<nat>, g: seq<nat>, h: seq<Str>, f: Str -> nat,
                 size: seq<nat>, idx: seq<nat>, b: nat, i: nat)
    requires Shown(m, c, g, h, i) && i < |h| && m[i] == h[i] && b < |size| && i == Start(size, b) && size[b] > 0
    requires AllBut(g, size, idx, b + 1) && Paired(g, h, f)
    ensures Between(m, c, g, h, f, size, idx, b + 1, i + size[b])
  {
    hide AllBut, Paired;
  }
}
