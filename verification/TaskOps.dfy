/** The operations of the workers, on arrays that hold exactly the range of a task: what they read and
    write lies in that range, and they keep what the task promises. */
module TaskOps {
  import opened Strings
  import opened Keys
  import opened SplitterTree
  import opened Classifier
  import opened Classify
  import opened Permute
  import opened Buckets
  import opened LcpOutput
  import opened FatPartition
  import opened Mkqs
  import opened BucketLcps
  import opened SharedMemory
  import opened Tasks
  import MkqsSort
  import LcpSampleSort
  import SampleSort
  import ParallelStep

  ghost function MemOf(a: array<Str>, b: array<Str>, lcp: array<nat>, chr: array<Byte>, key: array<Key>): Mem
    reads a, b, lcp, chr, key
  {
    Mem(a[..], b[..], lcp[..], chr[..], key[..])
  }

  lemma SortedLeaf(w: Work, out: bool, l: Mem, l': Mem, q: seq<Str>)
    requires Sized(l, w.n) && Sized(l', w.n) && q == w.q && LcpSorted(q, OutOf(l, out), OutOf(l', out), 0, w.n)
    ensures LeafOk(w, out, l, l')
  {
    hide Delivered, SameStrings;
  }

  /** insertion_sort_cache, or insertion_sort after copy_back. Keys in the cache may be used, or loaded
      again, as the job that a part is given to does. */
  method LeafByInsertion(a: array<Str>, b: array<Str>, lcp: array<nat>, chr: array<Byte>, key: array<Key>, depth: nat,
                         side: bool, out: bool, cached: bool, ghost w: Work)
    requires a != b && a.Length == w.n && w == Work(w.n, depth, side, w.q, w.cached) && (cached ==> w.cached) && WorkOk(w)
    requires Ready(w, MemOf(a, b, lcp, chr, key))
    modifies a, b, lcp, chr, key
    ensures LeafOk(w, out, old(MemOf(a, b, lcp, chr, key)), MemOf(a, b, lcp, chr, key))
  {
    var n := a.Length;
    var act, o := if side then b else a, if out then b else a;
    ghost var l := MemOf(a, b, lcp, chr, key);
    assert act[0..0 + n] == w.q && key[0..0 + n] == key[..];
    hide LeafOk, LcpSorted, KeysOf, CommonPrefix;
    MkqsSort.InsertionSortCache(act, o, lcp, chr, key, 0, 0, n, depth, !cached);
    SortedLeaf(w, out, l, MemOf(a, b, lcp, chr, key), w.q);
  }

  /** copy_back and fill_lcp: the strings of a key with terminator. */
  method LeafOfEquals(a: array<Str>, b: array<Str>, lcp: array<nat>, chr: array<Byte>, key: array<Key>, depth: nat,
                      side: bool, out: bool, v: Key, ghost w: Work)
    requires a != b && a.Length == w.n && w == Work(w.n, w.depth, side, w.q, w.cached)
    requires CommonPrefix(w.q, depth) && AllHaveKey(w.q, depth, v) && v % 256 == 0
    requires Ready(w, MemOf(a, b, lcp, chr, key))
    modifies a, b, lcp, chr
    ensures LeafOk(w, out, old(MemOf(a, b, lcp, chr, key)), MemOf(a, b, lcp, chr, key))
  {
    var n := a.Length;
    var act, o := if side then b else a, if out then b else a;
    ghost var l := MemOf(a, b, lcp, chr, key);
    assert act[..][0..0 + n] == w.q;
    hide LeafOk, LcpSorted, KeysOf, CommonPrefix, AllHaveKey, LcpKeyDepth;
    MkqsSort.FillEqual(act, o, lcp, chr, 0, n, depth, LcpKeyDepth(v), v);
    SortedLeaf(w, out, l, MemOf(a, b, lcp, chr, key), w.q);
  }

  lemma SliceHasKey(r: seq<Str>, x: nat, m: nat, depth: nat, v: Key)
    requires x + m <= |r| && CommonPrefix(r, depth) && forall i :: x <= i < x + m ==> KeyAt(r[i], depth) == v
    ensures CommonPrefix(r[x..x + m], depth) && AllHaveKey(r[x..x + m], depth, v)
  {
    SliceAgrees(r, x, m, depth);
    hide KeyAt, CommonPrefix;
    var q := r[x..x + m];
    forall i | 0 <= i < |q| ensures KeyAt(q[i], depth) == v { assert q[i] == r[x + i]; }
  }

  /** The equal bucket of splitter i. */
  lemma EqualBucketPiece(w: Work, info: Info, i: nat)
    requires InfoOk(w, info) && info.ByBuckets? && i < |info.splitters|
    ensures var x, m := PieceLo(info, 2 * i + 1), PieceSize(info, 2 * i + 1);
            x + m <= |info.r| && CommonPrefix(info.r[x..x + m], w.depth) && AllHaveKey(info.r[x..x + m], w.depth, info.splitters[i])
  {
    BucketTotal(w, info);
    var x, m := PieceLo(info, 2 * i + 1), PieceSize(info, 2 * i + 1);
    BucketPieceStrings(w, info, 2 * i + 1);
    hide *;
    LcpSampleSort.KeyOfOdd(info.r, x, m, info.splitters, w.depth, 2 * i + 1);
    SliceAgrees(info.r, x, m, w.depth);
  }

  /** The pivot's part. */
  lemma PivotPiece(w: Work, info: Info)
    requires WorkOk(w) && InfoOk(w, info) && info.ByPivot?
    ensures var x, m := PieceLo(info, 1), PieceSize(info, 1);
            x + m <= |info.r| && CommonPrefix(info.r[x..x + m], w.depth) && AllHaveKey(info.r[x..x + m], w.depth, info.v)
  {
    hide Partitioned, CommonPrefix, AllHaveKey, KeyAt;
    PrefixSurvives(w.q, info.r, w.depth);
    PivotStrings(info.r, info.keys, w.n, w.depth, info.step, info.v, info.maxLt, info.minGt);
    SliceHasKey(info.r, info.step.numLt, info.step.numEq, w.depth, info.v);
  }

  /** The pieces this is for: an equal bucket with its done mark, and the pivot's part without recursion. */
  lemma EqualPiece(w: Work, info: Info, j: nat)
    requires WorkOk(w) && InfoOk(w, info) && j < Pieces(info) && PieceLo(info, j) + PieceSize(info, j) <= |info.r|
    requires match info
             case ByBuckets(_, _, keys, _) => j % 2 == 1 && j / 2 < |keys| && keys[j / 2] % 256 == 0
             case ByPivot(_, _, _, v, _, _) => j == 1 && v % 256 == 0
    ensures var v := if info.ByBuckets? then info.splitters[j / 2] else info.v;
            && v % 256 == 0 && CommonPrefix(Piece(w, info, j).q, w.depth) && AllHaveKey(Piece(w, info, j).q, w.depth, v)
  {
    hide WorkOk, InfoOk, CommonPrefix, AllHaveKey, PieceDepth, PieceLo, PieceSize;
    if info.ByBuckets? {
      EqualBucketPiece(w, info, j / 2);
      assert j == 2 * (j / 2) + 1;
    } else {
      PivotPiece(w, info);
    }
  }

  // ---- splitting ---------------------------------------------------------------------------------------

  lemma FlightInfo(w: Work, x: LcpSampleSort.Flight)
    requires LcpSampleSort.InFlight(x) && x.lo == 0 && x.n == w.n == |x.p| && x.depth == w.depth && |w.q| == w.n
    requires SameStrings(w.q, x.p, 0, w.n)
    ensures InfoOk(w, ByBuckets(x.p, x.size, x.step.splitters, x.step.splitterLcp)) && Boundaries(x.step.bkt, x.size)
  {
    assert x.p[0..0 + w.n] == x.p && w.q[0..0 + w.n] == w.q;
    hide InPlace, IsLcpTable, SampleSort.Sampled, Bounded;
  }

  /** The constructor of the sequential sample sort step. */
  method SplitBySamples(a: array<Str>, b: array<Str>, lcp: array<nat>, chr: array<Byte>, key: array<Key>, depth: nat,
                        side: bool, cfg: LcpSampleSort.Config, ghost w: Work, ghost maxLen: nat)
    returns (step: LcpSampleSort.Step, ghost info: Info)
    requires a != b && a.Length == w.n > 0 && w == Work(w.n, depth, side, w.q, w.cached) && WorkOk(w) && cfg.Valid()
    requires Ready(w, MemOf(a, b, lcp, chr, key)) && Bounded(w.q, maxLen)
    modifies a, b
    ensures SplitOk(w, old(MemOf(a, b, lcp, chr, key)), MemOf(a, b, lcp, chr, key), info)
    ensures info.ByBuckets? && Boundaries(step.bkt, info.size) && step.splitters == info.splitters && step.splitterLcp == info.splitterLcp
  {
    hide CommonPrefix, Bounded, InfoOk, LcpSampleSort.InFlight, WroteOnly, OutsideKept;
    var n := a.Length;
    var act, shd := if side then b else a, if side then a else b;
    assert act[0..0 + n] == w.q == act[..];
    ghost var x;
    step, x := LcpSampleSort.MakeStep(act, shd, act, lcp, chr, 0, n, depth, cfg, maxLen);
    FlightInfo(w, x);
    info := ByBuckets(x.p, x.size, x.step.splitters, x.step.splitterLcp);
  }

  /** The constructor of the multikey quicksort step, with the keys in the cache or loaded again. */
  method SplitByPivot(a: array<Str>, b: array<Str>, lcp: array<nat>, chr: array<Byte>, key: array<Key>, depth: nat,
                      side: bool, cached: bool, ghost w: Work)
    returns (step: MkqsStep, ghost info: Info)
    requires a != b && a.Length == w.n >= 3 && w == Work(w.n, depth, side, w.q, w.cached) && (cached ==> w.cached) && WorkOk(w)
    requires Ready(w, MemOf(a, b, lcp, chr, key))
    modifies a, b, key
    ensures SplitOk(w, old(MemOf(a, b, lcp, chr, key)), MemOf(a, b, lcp, chr, key), info)
    ensures info.ByPivot? && step == info.step
  {
    var n := a.Length;
    var act := if side then b else a;
    assert act[0..0 + n] == w.q == act[..] && key[0..0 + n] == key[..];
    hide Partitioned, KeysOf, CommonPrefix;
    ghost var v, maxLt, minGt;
    step, v, maxLt, minGt := NewStep(act, key, 0, 0, n, depth, !cached);
    info := ByPivot(act[..], key[..], step, v, maxLt, minGt);
    assert act[0..0 + n] == act[..];
  }

  /** Any interleaving of the count and distribute jobs of a parallel step. */
  lemma SplitInParallel(w: Work, l: Mem, l': Mem, k: ParallelStep.Config, run: seq<ParallelStep.State>,
                        splitters: seq<Key>, splitterLcp: seq<nat>)
    requires WorkOk(w) && Ready(w, l) && w.n > 0 && k.q == w.q
    requires ParallelStep.ConfigOk(k) && Paired(k.g, k.q, KeyBucket(splitters, w.depth)) && |k.size| == 2 * |splitters| + 1
    requires ParallelStep.Run(k, run) && run[|run| - 1].moveFinished > 0
    requires splitters != [] && SortedKeys(splitters) && IsLcpTable(splitterLcp, splitters)
    requires SampleSort.Sampled(splitters, w.q, w.depth)
    requires Sized(l', w.n) && l'.lcp == l.lcp && l'.chr == l.chr && Strs(l', !w.side) == run[|run| - 1].shadow
    ensures var s := run[|run| - 1];
            && SplitOk(w, l, l', ByBuckets(s.shadow, k.size, splitters, splitterLcp))
            && |s.bkt| > 0 && Boundaries(s.bkt[0] + [w.n], k.size)
  {
    var s, f := run[|run| - 1], KeyBucket(splitters, w.depth);
    ParallelStep.Finished(k, run, f);
    hide ParallelStep.ConfigOk, ParallelStep.Run, KeysOf, IsLcpTable, CommonPrefix, KeyBucket, SortedKeys, SampleSort.Sampled, Paired;
    DistributedFacts(k, s, f);
    hide ParallelStep.Distributed;
    PrefixSurvives(w.q, s.shadow, w.depth);
    SampleSort.SampledSurvives(splitters, w.q, s.shadow, w.depth);
    InPlaceNow(s.shadow, w.n, k.size, splitters, w.depth);
  }

  lemma DistributedFacts(k: ParallelStep.Config, s: ParallelStep.State, f: Str -> nat)
    requires ParallelStep.Distributed(k, s, f)
    ensures InBuckets(s.shadow, k.size, f) && multiset(s.shadow) == multiset(k.q) && |s.shadow| == |k.q|
    ensures |s.bkt| > 0 && Boundaries(s.bkt[0] + [|k.q|], k.size)
  {
    assert Start(k.size, |k.size|) == |k.q|;
  }

  // ---- closing -----------------------------------------------------------------------------------------

  lemma ClosedOk(w: Work, out: bool, l: Mem, l': Mem)
    requires Sized(l, w.n) && Sized(l', w.n) && Strs(l', out) == Strs(l, out)
    requires WroteOnly(OutOf(l, out), OutOf(l', out), 0, w.n) && Delivered(OutOf(l', out), 0, w.n, {})
    ensures CloseOk(w, out, l, l')
  {
    hide Delivered;
  }

  /** sample_sort_lcp. */
  method CloseBuckets(a: array<Str>, b: array<Str>, lcp: array<nat>, chr: array<Byte>, key: array<Key>, depth: nat,
                      out: bool, bkt: seq<nat>, splitters: seq<Key>, ghost w: Work, ghost info: Info)
    requires a != b && a.Length == w.n && w.depth == depth && info.ByBuckets? && info.splitters == splitters
    requires CloseReady(w, info, out, MemOf(a, b, lcp, chr, key)) && Boundaries(bkt, info.size)
    modifies lcp, chr
    ensures CloseOk(w, out, old(MemOf(a, b, lcp, chr, key)), MemOf(a, b, lcp, chr, key))
  {
    var n := a.Length;
    var o := if out then b else a;
    ghost var l := MemOf(a, b, lcp, chr, key);
    hide InPlace, Delivered, StartsFrom, SameStrings, CloseOk, Boundaries, WroteOnly, IsLcpTable, SampleSort.Sampled;
    SampleSortLcp(o, lcp, chr, 0, n, depth, bkt, splitters, info.size);
    ClosedOk(w, out, l, MemOf(a, b, lcp, chr, key));
  }

  /** calculate_lcp of multikey quicksort. */
  method CloseThirds(a: array<Str>, b: array<Str>, lcp: array<nat>, chr: array<Byte>, key: array<Key>, depth: nat,
                     out: bool, step: MkqsStep, ghost w: Work, ghost info: Info)
    requires a != b && a.Length == w.n && w.depth == depth && info.ByPivot? && info.step == step
    requires CloseReady(w, info, out, MemOf(a, b, lcp, chr, key))
    modifies lcp, chr
    ensures CloseOk(w, out, old(MemOf(a, b, lcp, chr, key)), MemOf(a, b, lcp, chr, key))
  {
    hide Delivered, SameStrings, CloseOk, WroteOnly, Saved, MkqsSort.BorderKeys, MkqsSort.Open, CommonPrefix, Partitioned;
    var n := a.Length;
    var o := if out then b else a;
    ghost var l := MemOf(a, b, lcp, chr, key);
    assert o[0..0 + n] == o[..];
    MkqsSort.CalculateLcp(o, lcp, chr, 0, n, depth, step, info.v, info.maxLt, info.minGt);
    ClosedOk(w, out, l, MemOf(a, b, lcp, chr, key));
  }
}
