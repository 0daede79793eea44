/** The plain insertion sort at the bottom of the radix sort. */
module InsertionSort {
  import opened Strings
  import opened Buckets

  /** Compare behind a common prefix, never reading past a terminator. */
  method LeqFrom(s: Str, t: Str, d: nat) returns (leq: bool)
    requires SamePrefix(s, t, d)
    ensures leq == Leq(s, t)
  {
    var i := d;
    while At(s, i) == At(t, i) && At(s, i) != 0
      invariant d <= i && SamePrefix(s, t, i)
      decreases |s| - i
    {
      i := i + 1;
    }
    leq := At(s, i) <= At(t, i);
    if At(s, i) == At(t, i) { LeqEqual(s, t, i); } else { LeqAt(s, t, i); }
  }

  /** h[lo..pi + 1] is sorted, with the exception of position pj, whose string is known
      to be less than or equal to everything behind it. */
  ghost predicate Inserting(h: seq<Str>, lo: nat, pi: nat, pj: nat) {
    && lo <= pj <= pi < |h|
    && (forall i, j :: lo <= i < j <= pi && i != pj && j != pj ==> Leq(h[i], h[j]))
    && (forall j :: pj < j <= pi ==> Leq(h[pj], h[j]))
  }

  ghost function SwapDown(h: seq<Str>, pj: nat): seq<Str>
    requires 0 < pj < |h|
  {
    h[pj := h[pj - 1]][pj - 1 := h[pj]]
  }

  lemma InsertShift(h: seq<Str>, lo: nat, pi: nat, pj: nat)
    requires Inserting(h, lo, pi, pj) && pj > lo && !Leq(h[pj - 1], h[pj])
    ensures Inserting(SwapDown(h, pj), lo, pi, pj - 1)
  {
    LeqTotal(h[pj - 1], h[pj]);
  }

  lemma InsertDone(h: seq<Str>, lo: nat, pi: nat, pj: nat)
    requires Inserting(h, lo, pi, pj)
    requires pj == lo || Leq(h[pj - 1], h[pj])
    ensures SortedIn(h, lo, pi + 1)
  {
    forall i, j | lo <= i < j < pi + 1 ensures Leq(h[i], h[j]) {
      if j == pj && i < pj - 1 { LcpOfThree(h[i], h[pj - 1], h[pj]); }
    }
  }

  lemma SwapRearranged(before: seq<Str>, h: seq<Str>, lo: nat, hi: nat, pj: nat)
    requires Rearranged(before, h, lo, hi) && lo < pj < hi
    ensures Rearranged(before, SwapDown(h, pj), lo, hi)
  {
    var r := SwapDown(h, pj);
    assert r[lo..hi] == h[lo..hi][pj - lo := h[lo..hi][pj - 1 - lo]][pj - 1 - lo := h[lo..hi][pj - lo]];
  }

  method InsertOne(a: array<Str>, lo: nat, hi: nat, d: nat, pi: nat)
    requires lo < pi < hi <= a.Length && CommonPrefix(a[lo..hi], d)
    requires SortedIn(a[..], lo, pi)
    modifies a
    ensures SortedIn(a[..], lo, pi + 1) && Rearranged(old(a[..]), a[..], lo, hi)
  {
    hide Inserting, Leq, Sorted, SwapDown, Rearranged;
    var tmp := a[pi];
    var pj := pi;
    ghost var before, h := a[..], a[..];
    InsertStart(h, lo, hi, pi);
    while pj > lo
      invariant lo <= pj <= pi && |h| == a.Length == |before|
      invariant Inserting(h, lo, pi, pj) && Rearranged(before, h, lo, hi)
      invariant h == a[..][pj := tmp]
      invariant CommonPrefix(h[lo..hi], d)
    {
      assert h[lo..hi][pj - 1 - lo] == a[pj - 1] && h[lo..hi][pj - lo] == tmp;
      var leq := LeqFrom(a[pj - 1], tmp, d);
      if leq { break; }
      InsertShift(h, lo, pi, pj);
      SwapRearranged(before, h, lo, hi, pj);
      a[pj] := a[pj - 1];
      SwapHole(a[..], h, pj, tmp);
      h := SwapDown(h, pj);
      StillPrefix(before, h, lo, hi, d);
      pj := pj - 1;
    }
    InsertDone(h, lo, pi, pj);
    a[pj] := tmp;
    assert a[..] == h;
  }

  lemma InsertStart(h: seq<Str>, lo: nat, hi: nat, pi: nat)
    requires lo < pi < hi <= |h| && SortedIn(h, lo, pi)
    ensures Inserting(h, lo, pi, pi) && Rearranged(h, h, lo, hi)
  {
  }

  lemma SwapHole(m: seq<Str>, h: seq<Str>, pj: nat, tmp: Str)
    requires 0 < pj < |m| == |h| && h[pj] == tmp && m[pj] == h[pj - 1]
    requires forall p :: 0 <= p < |m| && p != pj ==> m[p] == h[p]
    ensures SwapDown(h, pj) == m[pj - 1 := tmp]
  {
  }

  lemma StillPrefix(before: seq<Str>, h: seq<Str>, lo: nat, hi: nat, d: nat)
    requires Rearranged(before, h, lo, hi) && CommonPrefix(before[lo..hi], d)
    ensures CommonPrefix(h[lo..hi], d)
  {
    PrefixSurvives(before[lo..hi], h[lo..hi], d);
  }

  lemma NothingRearranged(q: seq<Str>, lo: nat, hi: nat)
    requires lo <= hi <= |q|
    ensures Rearranged(q, q, lo, hi)
  {
  }

  method Inssort(a: array<Str>, lo: nat, n: nat, d: nat)
    requires lo + n <= a.Length && CommonPrefix(a[lo..lo + n], d)
    modifies a
    ensures SortedResult(old(a[..]), a[..], lo, n)
  {
    hide Leq, Rearranged;
    var pi := 1;
    ghost var before := a[..];
    NothingRearranged(before, lo, lo + n);
    while pi < n
      invariant 1 <= pi && (pi <= n || n == 0)
      invariant SortedIn(a[..], lo, lo + if pi <= n then pi else n)
      invariant Rearranged(before, a[..], lo, lo + n) && CommonPrefix(a[lo..lo + n], d)
    {
      ghost var now := a[..];
      InsertOne(a, lo, lo + n, d, lo + pi);
      RearrangedAgain(before, now, a[..], lo, lo + n, lo, lo + n);
      StillPrefix(before, a[..], lo, lo + n, d);
      pi := pi + 1;
    }
  }
}
