/** msd_CI2: most significant digit radix sort with cached characters, in place. */
module RadixSort {
  import opened Strings
  import opened Keys
  import opened Permute
  import opened Buckets
  import opened InsertionSort

  const ALPHABET := 256

  ghost function CharOf(depth: nat): Str -> nat {
    (s: Str) => Padded(s, depth) as nat
  }

  lemma CharOrder(q: seq<Str>, depth: nat)
    requires CommonPrefix(q, depth)
    ensures OrderedBy(q, CharOf(depth))
  {
    forall i, j | 0 <= i < |q| && 0 <= j < |q| && CharOf(depth)(q[i]) < CharOf(depth)(q[j]) ensures Leq(q[i], q[j]) {
      assert SamePrefix(q[i], q[j], depth);
      LeqAt(q[i], q[j], depth);
    }
  }

  /** Strings that end at the common prefix are equal. */
  lemma EndedBucketSorted(q: seq<Str>, size: seq<nat>, depth: nat)
    requires CommonPrefix(q, depth) && |size| > 0 && InBuckets(q, size, CharOf(depth))
    ensures BucketSorted(q, size, 0)
  {
    StartMono(size, 1, |size|);
    forall i, j | Start(size, 0) <= i < j < Start(size, 1) ensures Leq(q[i], q[j]) {
      assert CharOf(depth)(q[i]) == 0 && CharOf(depth)(q[j]) == 0;
      assert SamePrefix(q[i], q[j], depth);
      LeqEqual(q[i], q[j], depth);
    }
  }

  /** Strings with the same nonzero character share a longer prefix. */
  lemma DeeperPrefix(q: seq<Str>, depth: nat, c: nat)
    requires CommonPrefix(q, depth) && c > 0
    requires forall i :: 0 <= i < |q| ==> CharOf(depth)(q[i]) == c
    ensures CommonPrefix(q, depth + 1)
  {
    forall i, j | 0 <= i < |q| && 0 <= j < |q| ensures SamePrefix(q[i], q[j], depth + 1) {
      assert CharOf(depth)(q[i]) == c && CharOf(depth)(q[j]) == c;
      assert SamePrefix(q[i], q[j], depth);
    }
  }

  method CacheChars(a: array<Str>, charcache: array<nat>, lo: nat, n: nat, depth: nat)
    requires lo + n <= a.Length && n <= charcache.Length && CommonPrefix(a[lo..lo + n], depth)
    modifies charcache
    ensures Paired(charcache[..n], a[lo..lo + n], CharOf(depth))
    ensures forall p :: 0 <= p < n ==> charcache[p] < ALPHABET
  {
    for p := 0 to n
      invariant forall r :: 0 <= r < p ==> charcache[r] == CharOf(depth)(a[lo + r]) < ALPHABET
    {
      var s := a[lo + p];
      assert a[lo..lo + n][p] == s && SamePrefix(s, s, depth);
      charcache[p] := At(s, depth);
    }
  }

  /** msd_CI2_run: distribute by the character at depth. */
  method Run(a: array<Str>, charcache: array<nat>, lo: nat, n: nat, depth: nat) returns (bktsize: array<nat>)
    requires lo + n <= a.Length && n <= charcache.Length && CommonPrefix(a[lo..lo + n], depth)
    modifies a, charcache
    ensures fresh(bktsize) && bktsize.Length == ALPHABET
    ensures Recursing(old(a[..]), a[..], lo, n, bktsize[..], CharOf(depth), 0)
  {
    CacheChars(a, charcache, lo, n, depth);
    bktsize := CountBuckets(charcache, n, ALPHABET);
    var bktindex, last;
    ghost var top, before := 0, a[..];
    bktindex, last, top := PrefixSum(bktsize);
    PermuteInPlace(a, lo, n, charcache, bktsize, bktindex, last, CharOf(depth), top);
    StartRecursing(before, a[..], lo, n, bktsize[..], CharOf(depth));
  }

  method MsdCI2(a: array<Str>, charcache: array<nat>, lo: nat, n: nat, depth: nat, threshold: nat, ghost maxLen: nat)
    requires lo + n <= a.Length && n <= charcache.Length
    requires CommonPrefix(a[lo..lo + n], depth) && Bounded(a[lo..lo + n], maxLen)
    modifies a, charcache
    ensures SortedResult(old(a[..]), a[..], lo, n)
    decreases maxLen - depth, 2
  {
    if n < threshold {
      Inssort(a, lo, n, depth);
      return;
    }
    ghost var before := a[..];
    var bktsize := Run(a, charcache, lo, n, depth);
    RecurseBuckets(a, charcache, lo, n, depth, threshold, bktsize, before, maxLen);
  }

  method RecurseBuckets(a: array<Str>, charcache: array<nat>, lo: nat, n: nat, depth: nat, threshold: nat,
                        bktsize: array<nat>, ghost before: seq<Str>, ghost maxLen: nat)
    requires lo + n <= a.Length && n <= charcache.Length && bktsize != charcache && bktsize.Length == ALPHABET
    requires |before| == a.Length
    requires CommonPrefix(before[lo..lo + n], depth) && Bounded(before[lo..lo + n], maxLen)
    requires Recursing(before, a[..], lo, n, bktsize[..], CharOf(depth), 0)
    modifies a, charcache
    ensures SortedResult(before, a[..], lo, n)
    decreases maxLen - depth, 1
  {
    hide Recursing, SortedResult, CommonPrefix, Bounded, CharOf;
    ghost var size := bktsize[..];
    FirstBucket(before, a[..], lo, n, size, depth);
    var bsum := bktsize[0];
    assert bsum == Start(size, 1);
    for i := 1 to bktsize.Length
      invariant bktsize[..] == size && bsum == Start(size, i)
      invariant Recursing(before, a[..], lo, n, size, CharOf(depth), i)
    {
      SortBucket(a, charcache, lo, n, depth, threshold, bsum, bktsize[i], i, size, before, maxLen);
      bsum := bsum + bktsize[i];
    }
    AllBuckets(before, a[..], lo, n, size, depth);
  }

  method SortBucket(a: array<Str>, charcache: array<nat>, lo: nat, n: nat, depth: nat, threshold: nat,
                    bsum: nat, m: nat, ghost i: nat, ghost size: seq<nat>, ghost before: seq<Str>, ghost maxLen: nat)
    requires lo + n <= a.Length && n <= charcache.Length && |before| == a.Length
    requires CommonPrefix(before[lo..lo + n], depth) && Bounded(before[lo..lo + n], maxLen)
    requires 0 < i < |size| && bsum == Start(size, i) && m == size[i]
    requires Recursing(before, a[..], lo, n, size, CharOf(depth), i)
    modifies a, charcache
    ensures Recursing(before, a[..], lo, n, size, CharOf(depth), i + 1)
    decreases maxLen - depth, 0
  {
    hide Recursing, SortedResult, CommonPrefix, Bounded, Start, CharOf;
    ghost var now := a[..];
    BucketStrings(before, now, lo, n, size, CharOf(depth), i, i);
    if m > 1 {
      DeeperBucket(before, now, lo, n, size, depth, i, maxLen);
      MsdCI2(a, charcache, lo + bsum, m, depth + 1, threshold, maxLen);
      Recursed(before, now, a[..], lo, n, size, CharOf(depth), i);
    } else {
      Skipped(before, now, lo, n, size, CharOf(depth), i);
    }
  }

  lemma FirstBucket(before: seq<Str>, now: seq<Str>, lo: nat, n: nat, size: seq<nat>, depth: nat)
    requires Recursing(before, now, lo, n, size, CharOf(depth), 0) && |size| > 0
    requires CommonPrefix(before[lo..lo + n], depth)
    ensures Recursing(before, now, lo, n, size, CharOf(depth), 1)
  {
    PrefixSurvives(before[lo..lo + n], now[lo..lo + n], depth);
    EndedBucketSorted(now[lo..lo + n], size, depth);
    Skipped(before, now, lo, n, size, CharOf(depth), 0);
  }

  lemma DeeperBucket(before: seq<Str>, now: seq<Str>, lo: nat, n: nat, size: seq<nat>, depth: nat, c: nat, maxLen: nat)
    requires Recursing(before, now, lo, n, size, CharOf(depth), c) && 0 < c < |size| && size[c] > 1
    requires CommonPrefix(before[lo..lo + n], depth) && Bounded(before[lo..lo + n], maxLen)
    ensures var x := lo + Start(size, c);
            && x + size[c] <= lo + n <= |now|
            && CommonPrefix(now[x..x + size[c]], depth + 1) && Bounded(now[x..x + size[c]], maxLen)
            && depth + 1 <= maxLen
  {
    var q := now[lo..lo + n];
    PrefixSurvives(before[lo..lo + n], q, depth);
    BoundSurvives(before[lo..lo + n], q, maxLen);
    BucketStrings(before, now, lo, n, size, CharOf(depth), c, c);
    var x := lo + Start(size, c);
    SubSegment(now, lo, lo + n, x, x + size[c], depth, maxLen);
    var r := now[x..x + size[c]];
    assert forall i :: 0 <= i < |r| ==> r[i] == now[x + i];
    DeeperPrefix(r, depth, c);
    assert SamePrefix(r[0], r[0], depth + 1);
  }

  lemma AllBuckets(before: seq<Str>, now: seq<Str>, lo: nat, n: nat, size: seq<nat>, depth: nat)
    requires Recursing(before, now, lo, n, size, CharOf(depth), |size|)
    requires CommonPrefix(before[lo..lo + n], depth)
    ensures SortedResult(before, now, lo, n)
  {
    PrefixSurvives(before[lo..lo + n], now[lo..lo + n], depth);
    CharOrder(now[lo..lo + n], depth);
    Finished(before, now, lo, n, size, CharOf(depth));
  }

  /** msd_CI: the sorter for small sets. */
  method MsdCI(a: array<Str>, lo: nat, n: nat, depth: nat, threshold: nat, ghost maxLen: nat)
    requires lo + n <= a.Length
    requires CommonPrefix(a[lo..lo + n], depth) && Bounded(a[lo..lo + n], maxLen)
    modifies a
    ensures SortedResult(old(a[..]), a[..], lo, n)
  {
    var charcache := new nat[n];
    MsdCI2(a, charcache, lo, n, depth, threshold, maxLen);
  }
}
