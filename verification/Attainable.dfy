/** What the workers' operations promise can always be kept: whatever a worker finds, there is something
    it may leave behind. */
module Attainable {
  import opened Strings
  import opened Keys
  import opened Classify
  import opened LcpOutput
  import opened BucketLcps
  import opened SharedMemory
  import opened Tasks
  import opened WorkTree
  import Buckets
  import MkqsSort
  import Permute
  import SampleSort

  // ---- sorted strings with their LCPs ----------------------------------------------------------

  ghost function InsertStr(r: seq<Str>, s: Str): seq<Str> {
    if r == [] || Leq(r[|r| - 1], s) then r + [s] else InsertStr(r[..|r| - 1], s) + [r[|r| - 1]]
  }

  lemma {:induction false} InsertStrSorted(r: seq<Str>, s: Str)
    requires Sorted(r)
    ensures Sorted(InsertStr(r, s)) && multiset(InsertStr(r, s)) == multiset(r) + multiset{s}
  {
    hide Leq;
    if r == [] || Leq(r[|r| - 1], s) {
      AppendSorted(r, s);
    } else {
      var n := |r| - 1;
      InsertStrSorted(r[..n], s);
      assert r == r[..n] + [r[n]];
      LeqTotal(r[n], s);
      var q := InsertStr(r[..n], s);
      forall x | x in q ensures Leq(x, r[n]) {
        assert x in multiset(q);
        if x != s { assert x in r[..n]; }
      }
      AppendSorted(q, r[n]);
    }
  }

  lemma AppendSorted(r: seq<Str>, s: Str)
    requires Sorted(r) && (r == [] || Leq(r[|r| - 1], s) || forall x :: x in r ==> Leq(x, s))
    ensures Sorted(r + [s]) && multiset(r + [s]) == multiset(r) + multiset{s}
  {
    hide Leq;
    forall i | 0 <= i < |r| ensures Leq(r[i], s) {
      if r != [] && Leq(r[|r| - 1], s) && i < |r| - 1 { LcpOfThree(r[i], r[|r| - 1], s); }
    }
  }

  ghost function SortStrs(q: seq<Str>): (r: seq<Str>)
    ensures Sorted(r) && multiset(r) == multiset(q)
  {
    if q == [] then [] else
      var n := |q| - 1;
      InsertStrSorted(SortStrs(q[..n]), q[n]);
      assert q == q[..n] + [q[n]];
      InsertStr(SortStrs(q[..n]), q[n])
  }

  ghost function LcpsOf(r: seq<Str>, first: nat): (l: seq<nat>)
    ensures |l| == |r|
  {
    seq(|r|, i requires 0 <= i < |r| => if i == 0 then first else Lcp(r[i - 1], r[i]))
  }

  ghost function CharsOf(r: seq<Str>, first: Byte): (c: seq<Byte>)
    ensures |c| == |r|
  {
    seq(|r|, i requires 0 <= i < |r| => if i == 0 then first else At(r[i], Lcp(r[i - 1], r[i])))
  }

  /** The strings r in the output array, with all LCPs but the first. */
  ghost function WithLcps(l: Mem, out: bool, r: seq<Str>): Mem
    requires Sized(l, |r|)
  {
    if r == [] then l
    else Mem(if out then l.a else r, if out then r else l.b, LcpsOf(r, l.lcp[0]), CharsOf(r, l.chr[0]), l.key)
  }

  lemma LcpsExact(l: Mem, out: bool, r: seq<Str>)
    requires Sized(l, |r|) && forall i :: 1 <= i < |r| ==> Leq(r[i - 1], r[i])
    ensures var l' := WithLcps(l, out, r);
            Sized(l', |r|) && Strs(l', out) == r && FirstKept(l, l') && Delivered(OutOf(l', out), 0, |r|, {})
  {
    hide Leq, Lcp;
  }

  /** Every range can be sorted. */
  lemma LeafExists(w: Work, out: bool, l: Mem) returns (l': Mem)
    requires WorkOk(w) && Sized(l, w.n)
    ensures LeafOk(w, out, l, l')
  {
    hide Leq, Lcp, Delivered, CommonPrefix;
    var r := SortStrs(w.q);
    assert |multiset(r)| == |multiset(w.q)|;
    l' := WithLcps(l, out, r);
    LcpsExact(l, out, r);
    assert r[0..0 + w.n] == r && w.q[0..0 + w.n] == w.q;
  }

  // ---- boundaries ----------------------------------------------------------------------------------

  lemma {:induction false} OnlyStarts(lo: nat, size: seq<nat>, b: nat, k: nat)
    requires b <= |size| && k in StartsFrom(lo, size, b)
    ensures exists c: nat :: b <= c <= |size| && k == lo + Permute.Start(size, c)
    decreases |size| - b
  {
    if k != lo + Permute.Start(size, b) { OnlyStarts(lo, size, b + 1, k); }
  }

  /** Where a bucket begins, the strings on both sides are in different buckets. */
  lemma StartBetween(size: seq<nat>, k: nat, c: nat, x: nat)
    requires c <= |size| && k == Permute.Start(size, c) && 0 < k && x < |size|
    ensures !(Permute.Start(size, x) <= k - 1 && k < Permute.Start(size, x + 1))
  {
    if x < c { Permute.StartMono(size, x + 1, c); } else { Permute.StartMono(size, c, x); }
  }

  lemma BucketNeighbours(q: seq<Str>, size: seq<nat>, keys: seq<Key>, depth: nat, k: nat)
    requires 0 < k < |q| && InPlace(q, 0, |q|, size, keys, depth) && k in StartsFrom(0, size, 0)
    ensures Leq(q[k - 1], q[k])
  {
    hide Leq, Lcp, KeyBucket, CommonPrefix;
    var f := KeyBucket(keys, depth);
    assert q[0..0 + |q|] == q;
    var x := Buckets.FindBucket(size, |size|, k - 1);
    var y := Buckets.FindBucket(size, |size|, k);
    OnlyStarts(0, size, 0, k);
    var c: nat :| c <= |size| && k == 0 + Permute.Start(size, c);
    StartBetween(size, k, c, x);
    if y < x { Permute.StartMono(size, y + 1, x); }
    SampleSort.KeyBucketOrdered(q, keys, depth);
  }

  lemma KeyNeighbours(q: seq<Str>, depth: nat, k: nat, a: Key, b: Key)
    requires 0 < k < |q| && CommonPrefix(q, depth) && KeyIs(q, k - 1, depth, a) && KeyIs(q, k, depth, b) && a < b
    ensures Leq(q[k - 1], q[k])
  {
    hide Leq, Lcp, KeyAt;
    KeysDiffer(q[k - 1], q[k], depth);
  }

  lemma NeighboursClosed(o: Output, n: nat, open: set<nat>)
    requires Delivered(o, 0, n, open) && |o.str| == n
    requires forall k :: k in open && 0 < k < n ==> Leq(o.str[k - 1], o.str[k])
    ensures forall i :: 1 <= i < n ==> Leq(o.str[i - 1], o.str[i])
  {
    hide Leq, Lcp;
    forall i | 1 <= i < n ensures Leq(o.str[i - 1], o.str[i]) {
      assert i !in open ==> ExactAt(o, i);
    }
  }

  lemma OpenOrdered(w: Work, info: Info, out: bool, l: Mem)
    requires CloseReady(w, info, out, l)
    ensures |Strs(l, out)| == w.n && forall i :: 1 <= i < w.n ==> Leq(Strs(l, out)[i - 1], Strs(l, out)[i])
  {
    hide Leq, Lcp, InfoOk, InPlace, Delivered, KeyIs;
    var q := Strs(l, out);
    if info.ByBuckets? {
      forall k | k in StartsFrom(0, info.size, 0) && 0 < k < w.n ensures Leq(q[k - 1], q[k]) {
        BucketNeighbours(q, info.size, info.splitters, w.depth, k);
      }
      NeighboursClosed(OutOf(l, out), w.n, StartsFrom(0, info.size, 0));
    } else {
      forall k | k in MkqsSort.Open(0, info.step) && 0 < k < w.n ensures Leq(q[k - 1], q[k]) {
        if k == info.step.numLt { KeyNeighbours(q, w.depth, k, info.maxLt, info.v); }
        else { KeyNeighbours(q, w.depth, k, info.v, info.minGt); }
      }
      NeighboursClosed(OutOf(l, out), w.n, MkqsSort.Open(0, info.step));
    }
  }

  /** Every range whose pieces are done can be closed. */
  lemma CloseExists(w: Work, info: Info, out: bool, l: Mem) returns (l': Mem)
    requires CloseReady(w, info, out, l)
    ensures CloseOk(w, out, l, l')
  {
    hide *;
    OpenOrdered(w, info, out, l);
    ReadySized(w, info, out, l);
    l' := WithLcps(l, out, Strs(l, out));
    LcpsExact(l, out, Strs(l, out));
    ClosedBy(w, out, l, l');
  }

  lemma ReadySized(w: Work, info: Info, out: bool, l: Mem)
    requires CloseReady(w, info, out, l)
    ensures Sized(l, w.n) && Sized(l, |Strs(l, out)|)
  {
  }

  lemma ClosedBy(w: Work, out: bool, l: Mem, l': Mem)
    requires Sized(l', w.n) && Strs(l', out) == Strs(l, out) && FirstKept(l, l') && Delivered(OutOf(l', out), 0, w.n, {})
    ensures CloseOk(w, out, l, l')
  {
  }

  // ---- writing ---------------------------------------------------------------------------------------

  function Spliced<A>(s: seq<A>, x: nat, l: seq<A>): (r: seq<A>)
    requires x + |l| <= |s|
    ensures |r| == |s| && r[x..x + |l|] == l
    ensures forall i :: 0 <= i < |s| && !(x <= i < x + |l|) ==> r[i] == s[i]
  {
    s[..x] + l + s[x + |l|..]
  }

  /** A range of the memory replaced. */
  function SplicedMem(m: Mem, x: nat, l: Mem, n: nat): (m': Mem)
    requires Sized(m, |m.a|) && Sized(l, n) && x + n <= |m.a|
  {
    Mem(Spliced(m.a, x, l.a), Spliced(m.b, x, l.b), Spliced(m.lcp, x, l.lcp), Spliced(m.chr, x, l.chr), Spliced(m.key, x, l.key))
  }

  /** Whoever is at work can bring its range into any state by writing. */
  lemma WriteExists(s: State, t: nat, l: Mem) returns (s': State)
    requires InMemory(s, t) && (s.tasks[t].phase.Working? || s.tasks[t].phase.Closing?) && Sized(l, s.tasks[t].work.n)
    ensures Write(s, s', t) && InMemory(s', t) && Local(s', t) == l && s'.tasks == s.tasks
  {
    s' := s.(mem := SplicedMem(s.mem, s.tasks[t].lo, l, s.tasks[t].work.n));
  }
}
