/** The sorters as their callers see them. */
module EntryPoints {
  import opened Strings
  import opened Keys
  import opened Buckets
  import opened LcpOutput
  import SampleSort
  import LcpSampleSort

  /** The longest string; only the termination argument of the sorters speaks of it. */
  ghost function MaxLen(q: seq<Str>): (m: nat)
    ensures forall i :: 0 <= i < |q| ==> |q[i]| <= m
  {
    if q == [] then 0
    else
      var m := MaxLen(q[..|q| - 1]);
      if |q[|q| - 1]| > m then |q[|q| - 1]| else m
  }

  lemma MaxLenBounds(q: seq<Str>)
    ensures Bounded(q, MaxLen(q))
  {
  }

  /** sample_sort_generic with a tree classifier: all strings sorted, none lost. */
  method SampleSortGeneric(strings: array<Str>, depth: nat, cfg: SampleSort.Config)
    requires cfg.Valid() && CommonPrefix(strings[..], depth)
    modifies strings
    ensures Sorted(strings[..]) && multiset(strings[..]) == multiset(old(strings[..]))
  {
    hide Leq, Bounded, CommonPrefix;
    var n := strings.Length;
    ghost var q := strings[..];
    assert strings[0..0 + n] == q;
    MaxLenBounds(q);
    SampleSort.SampleSort(strings, 0, n, depth, cfg, MaxLen(q));
    RearrangedMultiset(q, strings[..], 0, n);
  }

  lemma WholeSorted(q0: seq<Str>, o0: Output, o1: Output, n: nat)
    requires LcpSorted(q0, o0, o1, 0, n) && |q0| == |o1.str| == |o1.lcp| == n
    ensures Sorted(o1.str) && LcpExact(o1.str, o1.lcp) && multiset(o1.str) == multiset(q0)
    ensures n > 0 && |o0.lcp| == n ==> o1.lcp[0] == o0.lcp[0]
  {
    DeliveredSorted(o1, 0, n);
    hide Leq, Lcp;
    assert o1.str[0..0 + n] == o1.str && o1.lcp[0..0 + n] == o1.lcp && q0[0..0 + n] == q0;
  }

  /** The LCP-producing sorter: strings and LCPs in place, the shadow array allocated here. */
  method SampleSortLcp(strings: array<Str>, lcp: array<nat>, depth: nat, cfg: LcpSampleSort.Config)
    requires cfg.Valid() && CommonPrefix(strings[..], depth) && lcp.Length == strings.Length
    modifies strings, lcp
    ensures Sorted(strings[..]) && multiset(strings[..]) == multiset(old(strings[..]))
    ensures LcpExact(strings[..], lcp[..])
    ensures lcp.Length > 0 ==> lcp[0] == old(lcp[0])
  {
    hide LcpSorted, Bounded, CommonPrefix, Sorted, LcpExact, OutsideKept;
    var n := strings.Length;
    var shadow := new Str[n](_ => []);
    var chr := new Byte[n](_ => 0);
    var cache := new Key[n](_ => 0);
    ghost var q, o := strings[..], OutputOf(strings, lcp, chr);
    assert strings[0..0 + n] == q;
    MaxLenBounds(q);
    LcpSampleSort.SortRange(strings, shadow, strings, lcp, chr, cache, 0, n, depth, cfg, MaxLen(q));
    WholeSorted(q, o, OutputOf(strings, lcp, chr), n);
  }

  /** The variant that delivers into the shadow array, with LCPs and distinguishing characters. */
  method SampleSortOut(strings: array<Str>, output: array<Str>, lcp: array<nat>, chr: array<Byte>, depth: nat,
                       cfg: LcpSampleSort.Config)
    requires cfg.Valid() && CommonPrefix(strings[..], depth) && strings != output
    requires output.Length == lcp.Length == chr.Length == strings.Length
    modifies strings, output, lcp, chr
    ensures Sorted(output[..]) && multiset(output[..]) == multiset(old(strings[..]))
    ensures LcpExact(output[..], lcp[..])
    ensures forall k :: 1 <= k < lcp.Length ==> lcp[k] <= |output[k]| && chr[k] == At(output[k], lcp[k])
    ensures lcp.Length > 0 ==> lcp[0] == old(lcp[0]) && chr[0] == old(chr[0])
  {
    hide LcpSorted, Bounded, CommonPrefix, Sorted, LcpExact, OutsideKept;
    var n := strings.Length;
    var cache := new Key[n](_ => 0);
    ghost var q, o := strings[..], OutputOf(output, lcp, chr);
    assert strings[0..0 + n] == q;
    MaxLenBounds(q);
    LcpSampleSort.SortRange(strings, output, output, lcp, chr, cache, 0, n, depth, cfg, MaxLen(q));
    WholeSorted(q, o, OutputOf(output, lcp, chr), n);
    WholeChars(q, o, OutputOf(output, lcp, chr), n);
  }

  lemma WholeChars(q0: seq<Str>, o0: Output, o1: Output, n: nat)
    requires LcpSorted(q0, o0, o1, 0, n) && |o1.str| == |o1.lcp| == |o1.chr| == n
    ensures forall k :: 1 <= k < n ==> o1.lcp[k] <= |o1.str[k]| && o1.chr[k] == At(o1.str[k], o1.lcp[k])
    ensures n > 0 && |o0.chr| == n ==> o1.chr[0] == o0.chr[0]
  {
    hide Leq, Lcp;
    forall k | 1 <= k < n ensures o1.lcp[k] <= |o1.str[k]| && o1.chr[k] == At(o1.str[k], o1.lcp[k]) {
      assert ExactAt(o1, k);
    }
  }
}
