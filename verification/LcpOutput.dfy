/** What the LCP-producing sorters write: the string array, the LCP array and the
    distinguishing characters, over a common range of indices. */
module LcpOutput {
  import opened Strings
  import opened Keys

  /** The contents of the three output arrays. */
  datatype Output = Output(str: seq<Str>, lcp: seq<nat>, chr: seq<Byte>) {
    predicate Covers(hi: nat) {
      hi <= |str| && hi <= |lcp| && hi <= |chr|
    }
  }

  ghost function OutputOf(out: array<Str>, lcp: array<nat>, chr: array<Byte>): Output
    reads out, lcp, chr
  {
    Output(out[..], lcp[..], chr[..])
  }

  /** Position k is in order with its predecessor, and both entries are exact. */
  ghost predicate ExactAt(o: Output, k: nat) {
    && 0 < k && o.Covers(k + 1)
    && Leq(o.str[k - 1], o.str[k]) && o.lcp[k] == Lcp(o.str[k - 1], o.str[k]) && o.chr[k] == At(o.str[k], o.lcp[k])
  }

  /** All positions of the range but the first, and but the boundaries that are still to be set. */
  ghost predicate Delivered(o: Output, lo: nat, n: nat, open: set<nat>) {
    && o.Covers(lo + n) && forall k :: lo < k < lo + n && k !in open ==> ExactAt(o, k)
  }

  /** Only positions x..y were written. */
  ghost predicate OutsideKept<T>(s0: seq<T>, s1: seq<T>, x: nat, y: nat) {
    |s0| == |s1| && forall p :: 0 <= p < |s0| && !(x <= p < y) ==> s1[p] == s0[p]
  }

  /** The first LCP and the first character of the range belong to whoever made the range. */
  ghost predicate WroteOnly(o0: Output, o1: Output, lo: nat, n: nat) {
    && OutsideKept(o0.str, o1.str, lo, lo + n)
    && OutsideKept(o0.lcp, o1.lcp, lo + 1, lo + n)
    && OutsideKept(o0.chr, o1.chr, lo + 1, lo + n)
  }

  /** The range holds the strings q0[lo..lo + n]. */
  ghost predicate SameStrings(q0: seq<Str>, q1: seq<Str>, lo: nat, n: nat) {
    lo + n <= |q0| && lo + n <= |q1| && multiset(q1[lo..lo + n]) == multiset(q0[lo..lo + n])
  }

  /** What an LCP-producing sorter leaves behind: the strings q0[lo..lo + n] sorted, every LCP
      but the first exact, with its distinguishing character, and nothing else written. */
  ghost predicate LcpSorted(q0: seq<Str>, o0: Output, o1: Output, lo: nat, n: nat) {
    SameStrings(q0, o1.str, lo, n) && WroteOnly(o0, o1, lo, n) && Delivered(o1, lo, n, {})
  }

  // ---- composition ----------------------------------------------------------------

  lemma WroteNothing(o: Output, lo: nat, n: nat)
    ensures WroteOnly(o, o, lo, n)
  {
  }

  lemma WroteOnlyTrans(o0: Output, o1: Output, o2: Output, lo: nat, n: nat)
    requires WroteOnly(o0, o1, lo, n) && WroteOnly(o1, o2, lo, n)
    ensures WroteOnly(o0, o2, lo, n)
  {
  }

  lemma WroteOnlyWider(o0: Output, o1: Output, lo: nat, n: nat, x: nat, m: nat)
    requires WroteOnly(o0, o1, x, m) && lo <= x && x + m <= lo + n
    ensures WroteOnly(o0, o1, lo, n)
  {
  }

  lemma DeliveredSurvives(o0: Output, o1: Output, lo: nat, n: nat, open: set<nat>, x: nat, m: nat)
    requires Delivered(o0, lo, n, open) && WroteOnly(o0, o1, x, m)
    requires lo + n <= x || x + m <= lo
    ensures Delivered(o1, lo, n, open)
  {
    forall k | lo < k < lo + n && k !in open ensures ExactAt(o1, k) {
      assert ExactAt(o0, k);
    }
  }

  lemma DeliveredJoin(o: Output, lo: nat, a: nat, b: nat, open: set<nat>, open': set<nat>)
    requires Delivered(o, lo, a, open) && Delivered(o, lo + a, b, open')
    ensures Delivered(o, lo, a + b, open + open' + {lo + a})
  {
  }

  lemma SameStringsJoin(q0: seq<Str>, q1: seq<Str>, lo: nat, a: nat, b: nat)
    requires SameStrings(q0, q1, lo, a) && SameStrings(q0, q1, lo + a, b)
    ensures SameStrings(q0, q1, lo, a + b)
  {
    var x0, y0, x1, y1 := q0[lo..lo + a], q0[lo + a..lo + a + b], q1[lo..lo + a], q1[lo + a..lo + a + b];
    assert q0[lo..lo + (a + b)] == x0 + y0;
    assert q1[lo..lo + (a + b)] == x1 + y1;
    MultisetJoin(x0, y0, x1, y1);
  }

  lemma MultisetJoin(a: seq<Str>, b: seq<Str>, a': seq<Str>, b': seq<Str>)
    requires multiset(a) == multiset(a') && multiset(b) == multiset(b')
    ensures multiset(a + b) == multiset(a' + b')
  {
  }

  lemma SameStringsSurvive(q0: seq<Str>, q1: seq<Str>, q2: seq<Str>, lo: nat, n: nat, x: nat, y: nat)
    requires SameStrings(q0, q1, lo, n) && OutsideKept(q1, q2, x, y)
    requires lo + n <= x || y <= lo
    ensures SameStrings(q0, q2, lo, n)
  {
    assert q2[lo..lo + n] == q1[lo..lo + n];
  }

  /** The first a strings of the range of n are final, except for the open boundaries. */
  ghost predicate PartsDone(q0: seq<Str>, o0: Output, o: Output, lo: nat, a: nat, n: nat, open: set<nat>) {
    a <= n && SameStrings(q0, o.str, lo, a) && WroteOnly(o0, o, lo, n) && Delivered(o, lo, a, open)
  }

  lemma NoPartsDone(q0: seq<Str>, o: Output, lo: nat, n: nat)
    requires lo + n <= |q0| && o.Covers(lo + n)
    ensures PartsDone(q0, o, o, lo, 0, n, {})
  {
    assert o.str[lo..lo + 0] == q0[lo..lo + 0];
  }

  /** One more part, sorted by itself, behind the parts that are done. */
  lemma OneMorePart(q0: seq<Str>, q: seq<Str>, o0: Output, o: Output, o': Output,
                    lo: nat, a: nat, b: nat, n: nat, open: set<nat>)
    requires PartsDone(q0, o0, o, lo, a, n, open) && LcpSorted(q, o, o', lo + a, b) && a + b <= n
    requires lo + a + b <= |q0| && q[lo + a..lo + a + b] == q0[lo + a..lo + a + b]
    ensures PartsDone(q0, o0, o', lo, a + b, n, open + {lo + a})
  {
    hide Delivered, WroteOnly, OutsideKept, SameStrings;
    PartFacts(q0, q, o, o', lo, a, b, n, open);
    WroteOnlyWider(o, o', lo, n, lo + a, b);
    WroteOnlyTrans(o0, o, o', lo, n);
    DeliveredSurvives(o, o', lo, a, open, lo + a, b);
    DeliveredJoin(o', lo, a, b, open, {});
    assert open + {} + {lo + a} == open + {lo + a};
    SameStringsJoin(q0, o'.str, lo, a, b);
  }

  lemma PartFacts(q0: seq<Str>, q: seq<Str>, o: Output, o': Output, lo: nat, a: nat, b: nat, n: nat, open: set<nat>)
    requires SameStrings(q0, o.str, lo, a) && LcpSorted(q, o, o', lo + a, b)
    requires lo + a + b <= |q0| && q[lo + a..lo + a + b] == q0[lo + a..lo + a + b]
    ensures SameStrings(q0, o'.str, lo, a) && SameStrings(q0, o'.str, lo + a, b)
  {
    SameStringsSurvive(q0, o.str, o'.str, lo, a, lo + a, lo + a + b);
  }

  lemma AllPartsDone(q0: seq<Str>, q: seq<Str>, o0: Output, o: Output, lo: nat, n: nat, open: set<nat>)
    requires PartsDone(q, o0, o, lo, n, n, open) && SameStrings(q0, q, lo, n)
    requires forall k :: k in open ==> k <= lo || lo + n <= k
    ensures LcpSorted(q0, o0, o, lo, n)
  {
  }

  // ---- neighbours decided by their keys --------------------------------------------

  lemma KeyChar(s: Str, depth: nat, d: nat)
    requires d < KEY_BYTES
    ensures GetCharAtDepth(KeyAt(s, depth), d) == Padded(s, depth + d)
  {
    assert KeyAt(s, depth) == Val(Digits(s, depth));
    GetCharOfVal(Digits(s, depth), d);
  }

  /** Between different keys, the keys tell LCP and distinguishing character. */
  lemma Boundary(s: Str, t: Str, depth: nat)
    requires SamePrefix(s, t, depth) && KeyAt(s, depth) < KeyAt(t, depth)
    ensures var d := LcpKeyType(KeyAt(s, depth), KeyAt(t, depth));
            && d < KEY_BYTES && Leq(s, t) && Lcp(s, t) == depth + d
            && GetCharAtDepth(KeyAt(t, depth), d) == At(t, depth + d)
  {
    hide KeyAt, LcpKeyType, GetCharAtDepth, Leq;
    KeysDiffer(s, t, depth);
    KeyChar(t, depth, LcpKeyType(KeyAt(s, depth), KeyAt(t, depth)));
  }

  // ---- strings with the same key -----------------------------------------------------

  ghost predicate AllHaveKey(q: seq<Str>, depth: nat, key: Key) {
    forall i :: 0 <= i < |q| ==> KeyAt(q[i], depth) == key
  }

  /** Either the key is full and eight more characters agree, or the strings are equal and
      the key tells their length. */
  lemma EqualKeys(q: seq<Str>, depth: nat, key: Key)
    requires CommonPrefix(q, depth) && AllHaveKey(q, depth, key)
    ensures key % 256 != 0 ==> CommonPrefix(q, depth + KEY_BYTES)
    ensures key % 256 == 0 ==> forall i :: 0 <= i < |q| ==> q[i] == q[0] && |q[i]| == depth + LcpKeyDepth(key)
  {
    hide KeyAt, LcpKeyDepth;
    forall i, j | 0 <= i < |q| && 0 <= j < |q|
      ensures key % 256 != 0 ==> SamePrefix(q[i], q[j], depth + KEY_BYTES)
      ensures key % 256 == 0 ==> q[i] == q[j] && |q[i]| == depth + LcpKeyDepth(key)
    {
      assert SamePrefix(q[i], q[j], depth) && KeyAt(q[i], depth) == key == KeyAt(q[j], depth);
      if key % 256 != 0 { KeysEqualLong(q[i], q[j], depth); } else { KeysEqualShort(q[i], q[j], depth); }
    }
  }

  lemma MultisetMiddle(a: seq<Str>, b: seq<Str>, b': seq<Str>, c: seq<Str>)
    requires multiset(b) == multiset(b')
    ensures multiset(a + b + c) == multiset(a + b' + c)
  {
  }

  /** Rearranging a part rearranges the whole. */
  lemma PartSameWhole(q: seq<Str>, q': seq<Str>, lo: nat, n: nat, x: nat, m: nat)
    requires SameStrings(q, q', x, m) && OutsideKept(q, q', x, x + m)
    requires lo <= x && x + m <= lo + n <= |q|
    ensures SameStrings(q, q', lo, n)
  {
    var a, b, b', c := q[lo..x], q[x..x + m], q'[x..x + m], q[x + m..lo + n];
    assert q[lo..lo + n] == a + b + c;
    assert q'[lo..lo + n] == a + b' + c;
    MultisetMiddle(a, b, b', c);
  }

  // ---- operations of the string pointer --------------------------------------------

  /** copy_back: the strings are moved to the output array, unless they are there already. */
  method CopyBack(act: array<Str>, out: array<Str>, lo: nat, n: nat)
    requires lo + n <= act.Length && lo + n <= out.Length
    modifies out
    ensures out[lo..lo + n] == old(act[lo..lo + n]) && OutsideKept(old(out[..]), out[..], lo, lo + n)
    ensures act != out ==> act[..] == old(act[..])
    ensures act == out ==> out[..] == old(out[..])
  {
    if act != out {
      for i := lo to lo + n
        invariant forall p :: lo <= p < i ==> out[p] == act[p]
        invariant OutsideKept(old(out[..]), out[..], lo, lo + n)
      {
        out[i] := act[i];
      }
      assert out[lo..lo + n] == act[lo..lo + n];
    }
  }

  /** fill_lcp: equal strings share all v characters, the terminator distinguishes nothing. */
  method FillLcp(out: array<Str>, lcp: array<nat>, chr: array<Byte>, lo: nat, n: nat, v: nat)
    requires lo + n <= out.Length && lo + n <= lcp.Length && lo + n <= chr.Length
    requires forall p :: lo <= p < lo + n ==> out[p] == out[lo] && |out[p]| == v
    modifies lcp, chr
    ensures out[..] == old(out[..])
    ensures WroteOnly(old(OutputOf(out, lcp, chr)), OutputOf(out, lcp, chr), lo, n)
    ensures Delivered(OutputOf(out, lcp, chr), lo, n, {})
  {
    var i := lo + 1;
    while i < lo + n
      invariant lo < i && out[..] == old(out[..])
      invariant forall p :: lo < p < i && p < lo + n ==> lcp[p] == v && chr[p] == 0
      invariant OutsideKept(old(lcp[..]), lcp[..], lo + 1, lo + n) && OutsideKept(old(chr[..]), chr[..], lo + 1, lo + n)
    {
      lcp[i] := v;
      chr[i] := 0;
      i := i + 1;
    }
    ghost var o := OutputOf(out, lcp, chr);
    forall k | lo < k < lo + n ensures ExactAt(o, k) {
      LeqEqual(out[k - 1], out[k], v);
    }
  }

  /** set_lcp and set_cache at one boundary. */
  method SetBoundary(out: array<Str>, lcp: array<nat>, chr: array<Byte>, k: nat, v: nat, c: Byte,
                     ghost lo: nat, ghost n: nat, ghost open: set<nat>)
    requires lo < k < lo + n && k < lcp.Length && k < chr.Length
    requires Delivered(OutputOf(out, lcp, chr), lo, n, open)
    requires Leq(out[k - 1], out[k]) && v == Lcp(out[k - 1], out[k]) && v <= |out[k]| && c == At(out[k], v)
    modifies lcp, chr
    ensures out[..] == old(out[..])
    ensures WroteOnly(old(OutputOf(out, lcp, chr)), OutputOf(out, lcp, chr), lo, n)
    ensures Delivered(OutputOf(out, lcp, chr), lo, n, open - {k})
  {
    hide Leq, Lcp, At;
    ghost var o0 := OutputOf(out, lcp, chr);
    lcp[k] := v;
    chr[k] := c;
    ghost var o1 := OutputOf(out, lcp, chr);
    forall i | lo < i < lo + n && i !in open - {k} ensures ExactAt(o1, i) {
      if i != k { assert ExactAt(o0, i); }
    }
  }

  ghost predicate KeyIs(q: seq<Str>, i: int, depth: nat, key: Key) {
    0 <= i < |q| && KeyAt(q[i], depth) == key
  }

  /** Two neighbours with different keys: the saved byte LCP and character are set. */
  method SetKeyBoundary(out: array<Str>, lcp: array<nat>, chr: array<Byte>, k: nat, depth: nat, d: nat, c: Byte,
                        ghost a: Key, ghost b: Key, ghost lo: nat, ghost n: nat, ghost open: set<nat>)
    requires lo < k < lo + n && Delivered(OutputOf(out, lcp, chr), lo, n, open)
    requires KeyIs(out[..], k - 1, depth, a) && KeyIs(out[..], k, depth, b) && a < b
    requires CommonPrefix(out[lo..lo + n], depth)
    requires d == LcpKeyType(a, b) < KEY_BYTES && c == GetCharAtDepth(b, d)
    modifies lcp, chr
    ensures out[..] == old(out[..])
    ensures WroteOnly(old(OutputOf(out, lcp, chr)), OutputOf(out, lcp, chr), lo, n)
    ensures Delivered(OutputOf(out, lcp, chr), lo, n, open - {k})
  {
    assert lo + n <= out.Length && k < lcp.Length && k < chr.Length;
    hide KeyAt, LcpKeyType, GetCharAtDepth, Leq, Lcp, Delivered, WroteOnly;
    ghost var q := out[lo..lo + n];
    assert q[k - 1 - lo] == out[k - 1] && q[k - lo] == out[k];
    assert SamePrefix(q[k - 1 - lo], q[k - lo], depth);
    Boundary(out[k - 1], out[k], depth);
    SetBoundary(out, lcp, chr, k, depth + d, c, lo, n, open);
  }

  /** Exact neighbours make a sorted sequence with an exact LCP array. */
  lemma DeliveredSorted(o: Output, lo: nat, n: nat)
    requires Delivered(o, lo, n, {})
    ensures Sorted(o.str[lo..lo + n]) && LcpExact(o.str[lo..lo + n], o.lcp[lo..lo + n])
  {
    hide Leq, Lcp;
    var q, l := o.str[lo..lo + n], o.lcp[lo..lo + n];
    forall i | 1 <= i < |q| ensures Leq(q[i - 1], q[i]) && l[i] == Lcp(q[i - 1], q[i]) {
      assert ExactAt(o, lo + i);
    }
    SortedFromNeighbours(q);
  }
}
