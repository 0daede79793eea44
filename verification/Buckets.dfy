/** Sorting by buckets: once the strings stand in ascending buckets, sorting every bucket
    by itself sorts the whole. */
module Buckets {
  import opened Strings
  import opened Permute

  ghost predicate SortedIn(q: seq<Str>, x: nat, y: nat) {
    y <= |q| && forall i, j :: x <= i < j < y ==> Leq(q[i], q[j])
  }

  ghost predicate BucketSorted(q: seq<Str>, size: seq<nat>, c: nat)
    requires c < |size|
  {
    SortedIn(q, Start(size, c), Start(size, c + 1))
  }

  lemma {:induction false} FindBucket(size: seq<nat>, b: nat, p: nat) returns (c: nat)
    requires b <= |size| && p < Start(size, b)
    ensures c < b && Start(size, c) <= p < Start(size, c + 1)
  {
    if p >= Start(size, b - 1) { c := b - 1; } else { c := FindBucket(size, b - 1, p); }
  }

  /** Strings with a larger f are larger. */
  ghost predicate OrderedBy(q: seq<Str>, f: Str -> nat) {
    forall i, j :: 0 <= i < |q| && 0 <= j < |q| && f(q[i]) < f(q[j]) ==> Leq(q[i], q[j])
  }

  lemma SortedFromBuckets(q: seq<Str>, size: seq<nat>, f: Str -> nat)
    requires InBuckets(q, size, f) && OrderedBy(q, f)
    requires forall c :: 0 <= c < |size| ==> BucketSorted(q, size, c)
    ensures Sorted(q)
  {
    forall i, j | 0 <= i < j < |q| ensures Leq(q[i], q[j]) {
      var c := FindBucket(size, |size|, i);
      var d := FindBucket(size, |size|, j);
      assert f(q[i]) == c && f(q[j]) == d;
      if d < c { StartMono(size, d + 1, c); }
      assert BucketSorted(q, size, c);
    }
  }

  lemma SameElements(x: seq<Str>, y: seq<Str>, s: Str)
    requires multiset(x) == multiset(y) && s in y
    ensures s in x
  {
    assert s in multiset(y);
    assert s in multiset(x);
  }

  /** Only the strings x..y were rearranged. */
  ghost predicate Rearranged(q: seq<Str>, r: seq<Str>, x: nat, y: nat) {
    && |q| == |r| && x <= y <= |q|
    && (forall p :: 0 <= p < |q| && !(x <= p < y) ==> r[p] == q[p])
    && multiset(q[x..y]) == multiset(r[x..y])
  }

  lemma RearrangedMultiset(q: seq<Str>, r: seq<Str>, x: nat, y: nat)
    requires Rearranged(q, r, x, y)
    ensures multiset(q) == multiset(r)
  {
    assert q == q[..x] + q[x..y] + q[y..];
    assert r == q[..x] + r[x..y] + q[y..];
  }

  /** Every string found inside comes from inside. */
  lemma RearrangedFrom(q: seq<Str>, r: seq<Str>, x: nat, y: nat, p: nat) returns (k: nat)
    requires Rearranged(q, r, x, y) && x <= p < y
    ensures x <= k < y && q[k] == r[p]
  {
    var u, v := q[x..y], r[x..y];
    assert v[p - x] == r[p];
    SameElements(u, v, r[p]);
    var i :| 0 <= i < |u| && u[i] == r[p];
    k := x + i;
  }

  /** Rearranging inside one bucket keeps all strings in their buckets. */
  lemma RearrangedBucket(q: seq<Str>, r: seq<Str>, size: seq<nat>, f: Str -> nat, c: nat)
    requires InBuckets(q, size, f) && c < |size|
    requires Rearranged(q, r, Start(size, c), Start(size, c + 1))
    ensures InBuckets(r, size, f)
  {
    forall d, p | 0 <= d < |size| && Start(size, d) <= p < Start(size, d + 1) && p < |r| ensures f(r[p]) == d {
      if Start(size, c) <= p < Start(size, c + 1) {
        var k := RearrangedFrom(q, r, Start(size, c), Start(size, c + 1), p);
        assert f(q[k]) == c;
        SameBucket(size, c, d, p);
      }
    }
  }

  lemma SameBucket(size: seq<nat>, c: nat, d: nat, p: nat)
    requires c < |size| && d < |size|
    requires Start(size, c) <= p < Start(size, c + 1) && Start(size, d) <= p < Start(size, d + 1)
    ensures c == d
  {
    if c < d { StartMono(size, c + 1, d); }
    if d < c { StartMono(size, d + 1, c); }
  }

  lemma OtherBucket(q: seq<Str>, r: seq<Str>, size: seq<nat>, c: nat, d: nat)
    requires c < |size| && d < |size| && c != d && BucketSorted(q, size, d)
    requires Rearranged(q, r, Start(size, c), Start(size, c + 1))
    ensures BucketSorted(r, size, d)
  {
    if d < c { StartMono(size, d + 1, c); } else { StartMono(size, c + 1, d); }
  }

  lemma PrefixSurvives(q: seq<Str>, r: seq<Str>, d: nat)
    requires CommonPrefix(q, d) && multiset(q) == multiset(r)
    ensures CommonPrefix(r, d)
  {
    forall i, j | 0 <= i < |r| && 0 <= j < |r| ensures SamePrefix(r[i], r[j], d) {
      SameElements(q, r, r[i]);
      SameElements(q, r, r[j]);
    }
  }

  ghost predicate Bounded(q: seq<Str>, maxLen: nat) {
    forall i :: 0 <= i < |q| ==> |q[i]| <= maxLen
  }

  lemma BoundSurvives(q: seq<Str>, r: seq<Str>, maxLen: nat)
    requires Bounded(q, maxLen) && multiset(q) == multiset(r)
    ensures Bounded(r, maxLen)
  {
    forall i | 0 <= i < |r| ensures |r[i]| <= maxLen {
      SameElements(q, r, r[i]);
    }
  }

  /** What a sorter leaves behind in a[lo..lo + n]. */
  ghost predicate SortedResult(before: seq<Str>, after: seq<Str>, lo: nat, n: nat) {
    && lo + n <= |before| && Rearranged(before, after, lo, lo + n) && SortedIn(after, lo, lo + n)
  }

  // ---- recursion over the buckets of a[lo..lo + n] ---------------------------

  lemma RearrangedAgain(q: seq<Str>, r: seq<Str>, t: seq<Str>, lo: nat, hi: nat, x: nat, y: nat)
    requires Rearranged(q, r, lo, hi) && Rearranged(r, t, x, y) && lo <= x && y <= hi
    ensures Rearranged(q, t, lo, hi)
  {
    SegmentRearranged(r, t, lo, hi, x, y);
    RearrangedMultiset(r[lo..hi], t[lo..hi], x - lo, y - lo);
  }

  lemma SubSlice(q: seq<Str>, lo: nat, hi: nat, x: nat, y: nat)
    requires lo <= x <= y <= hi <= |q|
    ensures q[lo..hi][x - lo..y - lo] == q[x..y]
  {
    var r := q[lo..hi];
    var u, v := r[x - lo..y - lo], q[x..y];
    forall i | 0 <= i < y - x ensures u[i] == v[i] {
      assert u[i] == r[x - lo + i] == q[x + i];
    }
  }

  lemma SegmentRearranged(r: seq<Str>, t: seq<Str>, lo: nat, hi: nat, x: nat, y: nat)
    requires Rearranged(r, t, x, y) && lo <= x && y <= hi <= |r|
    ensures Rearranged(r[lo..hi], t[lo..hi], x - lo, y - lo)
  {
    SubSlice(r, lo, hi, x, y);
    SubSlice(t, lo, hi, x, y);
  }

  /** The array was rearranged into buckets, and the buckets before cur are sorted. */
  ghost predicate Recursing(before: seq<Str>, now: seq<Str>, lo: nat, n: nat, size: seq<nat>, f: Str -> nat, cur: nat) {
    && Rearranged(before, now, lo, lo + n) && cur <= |size|
    && InBuckets(now[lo..lo + n], size, f)
    && BucketsSorted(now[lo..lo + n], size, cur)
  }

  ghost predicate BucketsSorted(q: seq<Str>, size: seq<nat>, cur: nat)
    requires cur <= |size|
  {
    forall c :: 0 <= c < cur ==> BucketSorted(q, size, c)
  }

  lemma StartRecursing(before: seq<Str>, now: seq<Str>, lo: nat, n: nat, size: seq<nat>, f: Str -> nat)
    requires lo + n <= |before| == |now| && before[..lo] == now[..lo] && before[lo + n..] == now[lo + n..]
    requires multiset(before[lo..lo + n]) == multiset(now[lo..lo + n])
    requires InBuckets(now[lo..lo + n], size, f)
    ensures Recursing(before, now, lo, n, size, f, 0)
  {
    forall p | 0 <= p < |now| && !(lo <= p < lo + n) ensures now[p] == before[p] {
      if p < lo { assert now[..lo][p] == before[..lo][p]; } else { assert now[lo + n..][p - lo - n] == before[lo + n..][p - lo - n]; }
    }
  }

  lemma SubSegment(q: seq<Str>, lo: nat, hi: nat, x: nat, y: nat, depth: nat, maxLen: nat)
    requires lo <= x <= y <= hi <= |q|
    requires CommonPrefix(q[lo..hi], depth) && Bounded(q[lo..hi], maxLen)
    ensures CommonPrefix(q[x..y], depth) && Bounded(q[x..y], maxLen)
  {
    SubSlice(q, lo, hi, x, y);
    var r := q[lo..hi];
    var u := r[x - lo..y - lo];
    assert forall i :: 0 <= i < y - x ==> u[i] == r[x - lo + i];
  }

  lemma Recursed(before: seq<Str>, now: seq<Str>, next: seq<Str>, lo: nat, n: nat, size: seq<nat>, f: Str -> nat, cur: nat)
    requires Recursing(before, now, lo, n, size, f, cur) && cur < |size|
    requires SortedResult(now, next, lo + Start(size, cur), size[cur])
    ensures Recursing(before, next, lo, n, size, f, cur + 1)
  {
    hide Rearranged, InBuckets, BucketsSorted, SortedIn;
    var x, y := Start(size, cur), Start(size, cur + 1);
    RecursingSize(before, now, lo, n, size, f, cur);
    StartMono(size, cur + 1, |size|);
    SegmentRearranged(now, next, lo, lo + n, lo + x, lo + y);
    RearrangedAgain(before, now, next, lo, lo + n, lo + x, lo + y);
    RearrangedBucket(now[lo..lo + n], next[lo..lo + n], size, f, cur);
    SortedSegment(next, lo, n, size, cur);
    OneMoreBucket(now[lo..lo + n], next[lo..lo + n], size, cur);
  }

  lemma OneMoreBucket(q: seq<Str>, r: seq<Str>, size: seq<nat>, cur: nat)
    requires cur < |size| && BucketsSorted(q, size, cur) && BucketSorted(r, size, cur)
    requires Rearranged(q, r, Start(size, cur), Start(size, cur + 1))
    ensures BucketsSorted(r, size, cur + 1)
  {
    hide Rearranged;
    forall c | 0 <= c < cur ensures BucketSorted(r, size, c) {
      OtherBucket(q, r, size, cur, c);
    }
  }

  lemma RecursingSize(before: seq<Str>, now: seq<Str>, lo: nat, n: nat, size: seq<nat>, f: Str -> nat, cur: nat)
    requires Recursing(before, now, lo, n, size, f, cur)
    ensures Start(size, |size|) == n && lo + n <= |before| == |now|
  {
  }

  lemma SortedSegment(q: seq<Str>, lo: nat, n: nat, size: seq<nat>, c: nat)
    requires c < |size| && lo + n <= |q| && Start(size, c + 1) <= n
    requires SortedIn(q, lo + Start(size, c), lo + Start(size, c + 1))
    ensures BucketSorted(q[lo..lo + n], size, c)
  {
    var r := q[lo..lo + n];
    assert forall i :: 0 <= i < n ==> r[i] == q[lo + i];
  }

  /** A bucket that needs no sorting. */
  lemma Skipped(before: seq<Str>, now: seq<Str>, lo: nat, n: nat, size: seq<nat>, f: Str -> nat, cur: nat)
    requires Recursing(before, now, lo, n, size, f, cur) && cur < |size|
    requires size[cur] <= 1 || BucketSorted(now[lo..lo + n], size, cur)
    ensures Recursing(before, now, lo, n, size, f, cur + 1)
  {
    StartMono(size, cur + 1, |size|);
    if size[cur] <= 1 { assert Start(size, cur + 1) == Start(size, cur) + size[cur]; }
    assert BucketSorted(now[lo..lo + n], size, cur);
  }

  lemma Finished(before: seq<Str>, now: seq<Str>, lo: nat, n: nat, size: seq<nat>, f: Str -> nat)
    requires Recursing(before, now, lo, n, size, f, |size|)
    requires OrderedBy(now[lo..lo + n], f)
    ensures SortedResult(before, now, lo, n)
  {
    var q := now[lo..lo + n];
    SortedFromBuckets(q, size, f);
    forall i, j | lo <= i < j < lo + n ensures Leq(now[i], now[j]) {
      assert now[i] == q[i - lo] && now[j] == q[j - lo];
    }
  }

  /** The strings of bucket c, found in the array. */
  lemma BucketStrings(before: seq<Str>, now: seq<Str>, lo: nat, n: nat, size: seq<nat>, f: Str -> nat, cur: nat, c: nat)
    requires Recursing(before, now, lo, n, size, f, cur) && c < |size|
    ensures Start(size, c) + size[c] == Start(size, c + 1) <= n && lo + n <= |now| == |before|
    ensures forall p :: lo + Start(size, c) <= p < lo + Start(size, c) + size[c] ==> f(now[p]) == c
    ensures multiset(now[lo..lo + n]) == multiset(before[lo..lo + n])
  {
    StartMono(size, c + 1, |size|);
    var q := now[lo..lo + n];
    forall p | lo + Start(size, c) <= p < lo + Start(size, c) + size[c] ensures f(now[p]) == c {
      assert now[p] == q[p - lo];
    }
  }
}
