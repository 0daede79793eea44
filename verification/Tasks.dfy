/** A piece of work, as every worker knows it that sorts part of the strings: what it finds in its
    range, how it may be split into smaller pieces, and what it leaves behind. */
module Tasks {
  import opened Strings
  import opened Keys
  import opened SplitterTree
  import opened Classifier
  import opened Classify
  import opened Permute
  import opened Buckets
  import opened LcpOutput
  import opened FatPartition
  import opened Mkqs
  import opened BucketLcps
  import opened SharedMemory
  import MkqsSort
  import LcpSampleSort
  import SampleSort

  /** n strings that agree on depth characters, standing in one of the arrays in the order q; their keys
      may have been cached. */
  datatype Work = Work(n: nat, depth: nat, side: bool, q: seq<Str>, cached: bool)

  ghost predicate WorkOk(w: Work) {
    |w.q| == w.n && CommonPrefix(w.q, w.depth)
  }

  /** What the worker finds in its range. */
  ghost predicate Ready(w: Work, l: Mem) {
    Sized(l, w.n) && Strs(l, w.side) == w.q && (w.cached ==> KeysOf(w.q, l.key, w.depth))
  }

  /** What it leaves behind in its range: the strings sorted in the output array, all LCPs but the
      first and all distinguishing characters but the first exact. */
  ghost predicate SortedOk(w: Work, out: bool, l: Mem) {
    Sized(l, w.n) && LcpSorted(w.q, OutOf(l, out), OutOf(l, out), 0, w.n)
  }

  /** The first LCP and character of the range belong to someone else. */
  ghost predicate FirstKept(l: Mem, l': Mem) {
    |l.lcp| == |l'.lcp| && |l.chr| == |l'.chr| && (|l.lcp| > 0 ==> l'.lcp[0] == l.lcp[0]) && (|l.chr| > 0 ==> l'.chr[0] == l.chr[0])
  }

  ghost predicate LeafOk(w: Work, out: bool, l: Mem, l': Mem) {
    SortedOk(w, out, l') && FirstKept(l, l')
  }

  /** How a piece of work was split: by the buckets of a classifier, or around a pivot. */
  datatype Info =
    | ByBuckets(r: seq<Str>, size: seq<nat>, splitters: seq<Key>, splitterLcp: seq<nat>)
    | ByPivot(r: seq<Str>, keys: seq<Key>, step: MkqsStep, v: Key, maxLt: Key, minGt: Key)

  ghost predicate InfoOk(w: Work, info: Info) {
    && |info.r| == w.n && multiset(info.r) == multiset(w.q)
    && match info
       case ByBuckets(r, size, splitters, splitterLcp) =>
         && w.n > 0 && InPlace(r, 0, w.n, size, splitters, w.depth) && splitters != []
         && IsLcpTable(splitterLcp, splitters) && SampleSort.Sampled(splitters, r, w.depth)
       case ByPivot(r, keys, step, v, maxLt, minGt) =>
         |keys| == w.n && Partitioned(r, keys, 0, 0, w.n, w.depth, step, v, maxLt, minGt)
  }

  /** Distribution goes to the other array, partitioning stays in place. */
  ghost predicate SplitOk(w: Work, l: Mem, l': Mem, info: Info) {
    && InfoOk(w, info) && Sized(l', w.n) && FirstKept(l, l')
    && match info
       case ByBuckets(r, _, _, _) => Strs(l', !w.side) == r
       case ByPivot(r, keys, _, _, _, _) => Strs(l', w.side) == r && l'.key == keys
  }

  // ---- the pieces ------------------------------------------------------------------------------

  function Pieces(info: Info): nat {
    match info
    case ByBuckets(_, size, _, _) => |size|
    case ByPivot(_, _, _, _, _, _) => 3
  }

  function PieceLo(info: Info, j: nat): nat
    requires j <= Pieces(info)
  {
    match info
    case ByBuckets(_, size, _, _) => Start(size, j)
    case ByPivot(_, _, step, _, _, _) =>
      if j == 0 then 0 else if j == 1 then step.numLt else if j == 2 then step.numLt + step.numEq
      else step.numLt + step.numEq + step.numGt
  }

  function PieceSize(info: Info, j: nat): nat
    requires j < Pieces(info)
  {
    match info
    case ByBuckets(_, size, _, _) => size[j]
    case ByPivot(_, _, step, _, _, _) => if j == 0 then step.numLt else if j == 1 then step.numEq else step.numGt
  }

  /** How much deeper the strings of one piece agree; where they are equal, to their end. */
  ghost function PieceDepth(info: Info, j: nat): nat
    requires j < Pieces(info)
  {
    match info
    case ByBuckets(_, _, splitters, _) =>
      if j % 2 == 1 && j / 2 < |splitters| && splitters[j / 2] % 256 == 0 then LcpKeyDepth(splitters[j / 2])
      else SampleSort.Deeper(splitters, j)
    case ByPivot(_, _, _, v, _, _) => if j != 1 then 0 else if v % 256 != 0 then KEY_BYTES else LcpKeyDepth(v)
  }

  ghost function Piece(w: Work, info: Info, j: nat): Work
    requires j < Pieces(info) && PieceLo(info, j) + PieceSize(info, j) <= |info.r|
  {
    Work(PieceSize(info, j), w.depth + PieceDepth(info, j), if info.ByBuckets? then !w.side else w.side,
         info.r[PieceLo(info, j)..PieceLo(info, j) + PieceSize(info, j)], info.ByPivot? && j != 1)
  }

  lemma {:induction false} PiecesFollow(info: Info, i: nat, j: nat)
    requires i <= j <= Pieces(info)
    ensures PieceLo(info, i) <= PieceLo(info, j)
    ensures i < j ==> PieceLo(info, i) + PieceSize(info, i) <= PieceLo(info, j)
  {
    if info.ByBuckets? { StartMono(info.size, i, j); }
  }

  lemma PiecesFit(w: Work, info: Info, j: nat)
    requires InfoOk(w, info) && j < Pieces(info)
    ensures PieceLo(info, j) + PieceSize(info, j) == PieceLo(info, j + 1) <= |info.r| == w.n
  {
    PiecesFollow(info, j + 1, Pieces(info));
    if info.ByBuckets? {
      assert InBuckets(info.r[0..0 + w.n], info.size, KeyBucket(info.splitters, w.depth));
    }
  }

  lemma BucketPieceStrings(w: Work, info: Info, j: nat)
    requires InfoOk(w, info) && info.ByBuckets? && j < Pieces(info)
    ensures PieceLo(info, j) + PieceSize(info, j) <= |info.r|
    ensures CommonPrefix(info.r, w.depth) && SortedKeys(info.splitters) && |info.size| == 2 * |info.splitters| + 1
    ensures SampleSort.Sampled(info.splitters, info.r, w.depth)
    ensures forall i :: PieceLo(info, j) <= i < PieceLo(info, j) + PieceSize(info, j) ==>
              KeyBucket(info.splitters, w.depth)(info.r[i]) == j
  {
    PiecesFit(w, info, j);
    assert info.r[0..0 + w.n] == info.r;
    hide InBuckets, CommonPrefix, SortedKeys, SampleSort.Sampled, IsLcpTable, KeyBucket;
    LcpSampleSort.StringsIn(info.r, 0, w.n, info.size, KeyBucket(info.splitters, w.depth), j, PieceLo(info, j), PieceSize(info, j));
  }

  lemma MarkedBucket(r: seq<Str>, keys: seq<Key>, depth: nat, j: nat, x: nat, m: nat)
    requires x + m <= |r| && CommonPrefix(r, depth) && SortedKeys(keys) && j < 2 * |keys| + 1
    requires forall i :: x <= i < x + m ==> KeyBucket(keys, depth)(r[i]) == j
    requires j % 2 == 1 && keys[j / 2] % 256 == 0
    ensures CommonPrefix(r[x..x + m], depth + LcpKeyDepth(keys[j / 2]))
  {
    hide KeyBucket, KeyAt, LcpKeyDepth, SortedKeys;
    LcpSampleSort.KeyOfOdd(r, x, m, keys, depth, j);
    SliceAgrees(r, x, m, depth);
    EqualKeys(r[x..x + m], depth, keys[j / 2]);
  }

  lemma OpenBucket(r: seq<Str>, keys: seq<Key>, depth: nat, j: nat, x: nat, m: nat)
    requires x + m <= |r| && CommonPrefix(r, depth) && SortedKeys(keys) && j < 2 * |keys| + 1
    requires SampleSort.Sampled(keys, r, depth) && SampleSort.Open(keys, j)
    requires forall i :: x <= i < x + m ==> KeyBucket(keys, depth)(r[i]) == j
    ensures CommonPrefix(r[x..x + m], depth + SampleSort.Deeper(keys, j))
  {
    hide KeyBucket, KeyAt, Bucket, SampleSort.Deeper, SampleSort.Open, SampleSort.Sampled, SortedKeys;
    var q := r[x..x + m];
    forall a, b | 0 <= a < m && 0 <= b < m ensures SamePrefix(q[a], q[b], depth + SampleSort.Deeper(keys, j)) {
      assert q[a] == r[x + a] && q[b] == r[x + b];
      BucketOf(keys, depth, q[a]);
      BucketOf(keys, depth, q[b]);
      SampleSort.BucketDeeper(r, keys, depth, j, q[a], q[b]);
    }
  }

  lemma BucketPieceOk(w: Work, info: Info, j: nat)
    requires InfoOk(w, info) && info.ByBuckets? && j < Pieces(info)
    ensures PieceLo(info, j) + PieceSize(info, j) <= |info.r| && WorkOk(Piece(w, info, j))
  {
    hide InfoOk, KeyBucket, PieceLo, PieceSize, CommonPrefix, SampleSort.Deeper, SampleSort.Sampled, LcpKeyDepth, SortedKeys;
    BucketPieceStrings(w, info, j);
    var keys, x, m := info.splitters, PieceLo(info, j), PieceSize(info, j);
    if j % 2 == 1 && j / 2 < |keys| && keys[j / 2] % 256 == 0 {
      MarkedBucket(info.r, keys, w.depth, j, x, m);
    } else {
      OpenBucket(info.r, keys, w.depth, j, x, m);
    }
  }

  lemma BucketOf(keys: seq<Key>, depth: nat, s: Str)
    ensures KeyBucket(keys, depth)(s) == Bucket(keys, KeyAt(s, depth))
  {
  }

  lemma SliceAgrees(r: seq<Str>, x: nat, m: nat, depth: nat)
    requires x + m <= |r| && CommonPrefix(r, depth)
    ensures CommonPrefix(r[x..x + m], depth)
  {
    var q := r[x..x + m];
    forall a, b | 0 <= a < m && 0 <= b < m ensures SamePrefix(q[a], q[b], depth) {
      assert q[a] == r[x + a] && q[b] == r[x + b];
    }
  }

  lemma PivotBucket(r: seq<Str>, depth: nat, v: Key, x: nat, m: nat)
    requires x + m <= |r| && CommonPrefix(r, depth) && forall i :: x <= i < x + m ==> KeyAt(r[i], depth) == v
    ensures CommonPrefix(r[x..x + m], depth + if v % 256 != 0 then KEY_BYTES else LcpKeyDepth(v))
  {
    hide KeyAt, LcpKeyDepth;
    var q := r[x..x + m];
    SliceAgrees(r, x, m, depth);
    forall i | 0 <= i < m ensures KeyAt(q[i], depth) == v { assert q[i] == r[x + i]; }
    EqualKeys(q, depth, v);
  }

  lemma PivotPieceOk(w: Work, info: Info, j: nat)
    requires InfoOk(w, info) && info.ByPivot? && j < Pieces(info) && WorkOk(w)
    ensures PieceLo(info, j) + PieceSize(info, j) <= |info.r| && WorkOk(Piece(w, info, j))
  {
    hide Partitioned, KeyAt;
    PiecesFit(w, info, j);
    PrefixSurvives(w.q, info.r, w.depth);
    var x, m := PieceLo(info, j), PieceSize(info, j);
    if j == 1 {
      MkqsSort.PartKeys(info.r, info.keys, 0, 0, w.n, w.depth, info.step, info.v, info.maxLt, info.minGt);
      PivotPart(info, x, m);
      hide InfoOk, KeyAt, PieceLo, PieceSize, CommonPrefix, LcpKeyDepth;
      PivotBucket(info.r, w.depth, info.v, x, m);
    } else {
      hide InfoOk, PieceLo, PieceSize, CommonPrefix;
      SliceAgrees(info.r, x, m, w.depth);
    }
  }

  lemma PivotPart(info: Info, x: nat, m: nat)
    requires info.ByPivot? && x == PieceLo(info, 1) && m == PieceSize(info, 1)
    ensures x == info.step.numLt && m == info.step.numEq
  {
  }

  /** Every piece is work of its own kind. */
  lemma PieceOk(w: Work, info: Info, j: nat)
    requires InfoOk(w, info) && WorkOk(w) && j < Pieces(info)
    ensures PieceLo(info, j) + PieceSize(info, j) <= |info.r| && WorkOk(Piece(w, info, j))
  {
    hide InfoOk, WorkOk;
    if info.ByBuckets? { BucketPieceOk(w, info, j); } else { PivotPieceOk(w, info, j); }
  }

  /** After the split, every piece finds its strings, and its cached keys, in its part of the range. */
  lemma PieceReady(w: Work, l: Mem, l': Mem, info: Info, j: nat)
    requires SplitOk(w, l, l', info) && j < Pieces(info)
    ensures PieceLo(info, j) + PieceSize(info, j) <= w.n == |info.r|
    ensures Ready(Piece(w, info, j), Section(l', PieceLo(info, j), PieceSize(info, j)))
  {
    PiecesFit(w, info, j);
    var x, m := PieceLo(info, j), PieceSize(info, j);
    if info.ByPivot? && j != 1 {
      assert info.r[0..0 + w.n] == info.r && info.keys[0..0 + w.n] == info.keys;
      assert KeysOf(info.r, info.keys, w.depth);
      hide KeyAt, Partitioned, PieceLo, PieceSize;
      KeysOfSlice(info.r, info.keys, x, m, w.depth);
    }
  }

  lemma KeysOfSlice(r: seq<Str>, k: seq<Key>, x: nat, m: nat, depth: nat)
    requires KeysOf(r, k, depth) && x + m <= |r|
    ensures KeysOf(r[x..x + m], k[x..x + m], depth)
  {
    hide KeyAt;
  }

  // ---- all pieces done -----------------------------------------------------------------------------

  lemma ExactShift(o: Output, c: Output, x: nat, m: nat, k: nat)
    requires o.Covers(x + m) && c == Output(o.str[x..x + m], o.lcp[x..x + m], o.chr[x..x + m])
    requires 0 < k < m && ExactAt(c, k)
    ensures ExactAt(o, x + k)
  {
    hide Leq, Lcp;
    assert c.str[k - 1] == o.str[x + k - 1] && c.str[k] == o.str[x + k] && c.lcp[k] == o.lcp[x + k] && c.chr[k] == o.chr[x + k];
  }

  /** A piece that is done in its own range is done in the range of the whole. */
  lemma Lifted(r: seq<Str>, q: seq<Str>, o: Output, c: Output, x: nat, m: nat)
    requires o.Covers(x + m) && c == Output(o.str[x..x + m], o.lcp[x..x + m], o.chr[x..x + m])
    requires x + m <= |r| && q == r[x..x + m] && LcpSorted(q, c, c, 0, m)
    ensures LcpSorted(r, o, o, x, m)
  {
    hide ExactAt;
    assert q[0..0 + m] == q && c.str[0..0 + m] == c.str;
    forall k | x < k < x + m ensures ExactAt(o, k) {
      assert ExactAt(c, k - x);
      ExactShift(o, c, x, m, k - x);
    }
  }

  ghost predicate PiecesDone(w: Work, info: Info, out: bool, l: Mem) {
    && Sized(l, w.n) && |info.r| == w.n
    && forall j :: 0 <= j < Pieces(info) ==> LcpSorted(info.r, OutOf(l, out), OutOf(l, out), PieceLo(info, j), PieceSize(info, j))
  }

  lemma PieceDone(w: Work, info: Info, out: bool, l: Mem, j: nat)
    requires InfoOk(w, info) && Sized(l, w.n) && j < Pieces(info)
    requires PieceLo(info, j) + PieceSize(info, j) <= w.n
    requires SortedOk(Piece(w, info, j), out, Section(l, PieceLo(info, j), PieceSize(info, j)))
    ensures LcpSorted(info.r, OutOf(l, out), OutOf(l, out), PieceLo(info, j), PieceSize(info, j))
  {
    hide InfoOk, LcpSorted, PieceLo, PieceSize, PieceDepth;
    SizeOf(w, info);
    var x, m := PieceLo(info, j), PieceSize(info, j);
    Lifted(info.r, Piece(w, info, j).q, OutOf(l, out), OutOf(Section(l, x, m), out), x, m);
  }

  lemma SizeOf(w: Work, info: Info)
    requires InfoOk(w, info)
    ensures |info.r| == w.n
  {
  }

  // ---- buckets ---------------------------------------------------------------------------------------

  /** The strings of the first c buckets stand in their buckets of the output, sorted. */
  ghost predicate BucketsBefore(r: seq<Str>, o: Output, size: seq<nat>, f: Str -> nat, c: nat) {
    && c <= |size| && Start(size, c) <= |r|
    && PartsDone(r, o, o, 0, Start(size, c), |r|, StartsFrom(0, size, 0))
    && forall p :: 0 <= p < Start(size, c) && p < |o.str| ==> InRightBucket(o.str, size, f, p)
  }

  ghost predicate InRightBucket(q: seq<Str>, size: seq<nat>, f: Str -> nat, p: nat)
    requires p < |q|
  {
    f(q[p]) < |size| && Start(size, f(q[p])) <= p < Start(size, f(q[p]) + 1)
  }

  lemma PartJoined(q0: seq<Str>, o0: Output, o: Output, lo: nat, a: nat, m: nat, n: nat, open: set<nat>)
    requires PartsDone(q0, o0, o, lo, a, n, open) && a + m <= n && lo + a in open
    requires LcpSorted(q0, o, o, lo + a, m)
    ensures PartsDone(q0, o0, o, lo, a + m, n, open)
  {
    hide Delivered, SameStrings, WroteOnly;
    DeliveredJoin(o, lo, a, m, open, {});
    assert open + {} + {lo + a} == open;
    SameStringsJoin(q0, o.str, lo, a, m);
  }

  lemma StartStep(size: seq<nat>, c: nat)
    requires c < |size|
    ensures Start(size, c + 1) == Start(size, c) + size[c]
  {
  }

  lemma OneMore(r: seq<Str>, o: Output, size: seq<nat>, f: Str -> nat, c: nat)
    requires BucketsBefore(r, o, size, f, c) && c < |size| && Start(size, c) + size[c] <= |r|
    requires LcpSorted(r, o, o, Start(size, c), size[c])
    requires forall i :: Start(size, c) <= i < Start(size, c) + size[c] ==> f(r[i]) == c
    ensures BucketsBefore(r, o, size, f, c + 1)
  {
    hide PartsDone, LcpSorted, StartsFrom, Start;
    StartIn(0, size, 0, c);
    StartStep(size, c);
    PartJoined(r, o, o, 0, Start(size, c), size[c], |r|, StartsFrom(0, size, 0));
    LcpSampleSort.SortedInBucket(r, r, o, o, c, Start(size, c), size[c], f);
  }

  ghost predicate BucketDone(r: seq<Str>, o: Output, size: seq<nat>, f: Str -> nat, c: nat) {
    && c < |size| && Start(size, c) + size[c] <= |r| && LcpSorted(r, o, o, Start(size, c), size[c])
    && forall i :: Start(size, c) <= i < Start(size, c) + size[c] ==> f(r[i]) == c
  }

  lemma NoneBefore(r: seq<Str>, o: Output, size: seq<nat>, f: Str -> nat)
    requires o.Covers(|r|)
    ensures BucketsBefore(r, o, size, f, 0)
  {
    NoPartsDone(r, o, 0, |r|);
    hide StartsFrom;
    OpenLess(o, 0, 0, {}, StartsFrom(0, size, 0));
  }

  lemma {:induction false} AllBefore(r: seq<Str>, o: Output, size: seq<nat>, f: Str -> nat, c: nat)
    requires o.Covers(|r|) && c <= |size|
    requires forall j :: 0 <= j < |size| ==> BucketDone(r, o, size, f, j)
    ensures BucketsBefore(r, o, size, f, c)
  {
    if c == 0 {
      NoneBefore(r, o, size, f);
    } else {
      AllBefore(r, o, size, f, c - 1);
      assert BucketDone(r, o, size, f, c - 1);
      hide BucketsBefore, LcpSorted;
      OneMore(r, o, size, f, c - 1);
    }
  }

  lemma DoneAt(w: Work, info: Info, o: Output, j: nat)
    requires InfoOk(w, info) && info.ByBuckets? && j < |info.size|
    requires LcpSorted(info.r, o, o, Start(info.size, j), info.size[j])
    ensures BucketDone(info.r, o, info.size, KeyBucket(info.splitters, w.depth), j)
  {
    BucketPieceStrings(w, info, j);
    hide InfoOk, LcpSorted, KeyBucket;
  }

  /** Everything sample_sort_lcp asks for. */
  lemma BucketsClosable(w: Work, info: Info, o: Output)
    requires InfoOk(w, info) && info.ByBuckets? && |o.str| == |o.lcp| == |o.chr| == w.n
    requires forall j :: 0 <= j < |info.size| ==> LcpSorted(info.r, o, o, Start(info.size, j), info.size[j])
    ensures InPlace(o.str, 0, w.n, info.size, info.splitters, w.depth)
    ensures Delivered(o, 0, w.n, StartsFrom(0, info.size, 0)) && SameStrings(info.r, o.str, 0, w.n)
  {
    var f := KeyBucket(info.splitters, w.depth);
    BucketPieceStrings(w, info, 0);
    BucketTotal(w, info);
    hide *;
    forall j | 0 <= j < |info.size| ensures BucketDone(info.r, o, info.size, f, j) { DoneAt(w, info, o, j); }
    CoversAll(o, w.n);
    AllBefore(info.r, o, info.size, f, |info.size|);
    AllIn(info.r, o, info.size, f, w.n);
    PrefixSurvives(info.r, o.str, w.depth);
    InPlaceNow(o.str, w.n, info.size, info.splitters, w.depth);
  }

  lemma CoversAll(o: Output, n: nat)
    requires |o.str| == |o.lcp| == |o.chr| == n
    ensures o.Covers(n)
  {
  }

  lemma AllIn(r: seq<Str>, o: Output, size: seq<nat>, f: Str -> nat, n: nat)
    requires BucketsBefore(r, o, size, f, |size|) && |r| == n == Start(size, |size|) && |o.str| == n
    ensures InBuckets(o.str, size, f) && SameStrings(r, o.str, 0, n) && multiset(r) == multiset(o.str)
    ensures Delivered(o, 0, n, StartsFrom(0, size, 0))
  {
    hide Delivered, StartsFrom;
    BucketsIn(o.str, size, f, n);
    assert r[0..0 + n] == r && o.str[0..0 + n] == o.str;
  }

  lemma InPlaceNow(q: seq<Str>, n: nat, size: seq<nat>, splitters: seq<Key>, depth: nat)
    requires |q| == n && |size| == 2 * |splitters| + 1 && SortedKeys(splitters) && CommonPrefix(q, depth)
    requires InBuckets(q, size, KeyBucket(splitters, depth))
    ensures InPlace(q, 0, n, size, splitters, depth)
  {
    assert q[0..0 + n] == q;
  }

  lemma BucketTotal(w: Work, info: Info)
    requires InfoOk(w, info) && info.ByBuckets?
    ensures |info.r| == w.n == Start(info.size, |info.size|)
  {
  }

  lemma BucketsIn(q: seq<Str>, size: seq<nat>, f: Str -> nat, n: nat)
    requires n == |q| == Start(size, |size|)
    requires forall p :: 0 <= p < n ==> InRightBucket(q, size, f, p)
    ensures InBuckets(q, size, f)
  {
    forall c, p | 0 <= c < |size| && Start(size, c) <= p < Start(size, c + 1) && p < |q| ensures f(q[p]) == c {
      assert InRightBucket(q, size, f, p);
      var d := f(q[p]);
      if c < d { StartMono(size, c + 1, d); }
      if d < c { StartMono(size, d + 1, c); }
    }
  }

  // ---- thirds -----------------------------------------------------------------------------------------

  ghost predicate ThirdsDone(r: seq<Str>, o: Output, step: MkqsStep) {
    && LcpSorted(r, o, o, 0, step.numLt) && LcpSorted(r, o, o, step.numLt, step.numEq)
    && LcpSorted(r, o, o, step.numLt + step.numEq, step.numGt)
  }

  lemma NothingJoined(r: seq<Str>, o: Output, n: nat, open: set<nat>)
    requires |r| == n && o.Covers(n)
    ensures PartsDone(r, o, o, 0, 0, n, open)
  {
    NoPartsDone(r, o, 0, n);
    OpenLess(o, 0, 0, {}, open);
  }

  lemma ThirdsJoined(r: seq<Str>, o: Output, step: MkqsStep, n: nat)
    requires |r| == n == step.numLt + step.numEq + step.numGt && o.Covers(n) && ThirdsDone(r, o, step)
    ensures PartsDone(r, o, o, 0, n, n, MkqsSort.Open(0, step))
  {
    hide PartsDone, LcpSorted;
    var open := MkqsSort.Open(0, step);
    NothingJoined(r, o, n, open);
    PartJoined(r, o, o, 0, 0, step.numLt, n, open);
    PartJoined(r, o, o, 0, step.numLt, step.numEq, n, open);
    PartJoined(r, o, o, 0, step.numLt + step.numEq, step.numGt, n, open);
  }

  lemma LtBorder(r: seq<Str>, keys: seq<Key>, o: Output, n: nat, depth: nat, step: MkqsStep, v: Key, maxLt: Key, minGt: Key)
    requires |r| == n == |o.str| && CommonPrefix(r, depth) && Partitioned(r, keys, 0, 0, n, depth, step, v, maxLt, minGt)
    requires LcpSorted(r, o, o, 0, step.numLt) && step.numLt > 0
    ensures KeyIs(o.str, step.numLt - 1, depth, maxLt)
  {
    hide LcpSorted, Partitioned, KeyAt, CommonPrefix;
    PivotBetween(r, keys, n, depth, step, v, maxLt, minGt);
    SliceAgrees(r, 0, step.numLt, depth);
    MkqsSort.PartKeys(r, keys, 0, 0, n, depth, step, v, maxLt, minGt);
    MkqsSort.LastKey(r, o, o, 0, step.numLt, depth, maxLt);
  }

  lemma GtBorder(r: seq<Str>, keys: seq<Key>, o: Output, n: nat, depth: nat, step: MkqsStep, v: Key, maxLt: Key, minGt: Key)
    requires |r| == n == |o.str| && CommonPrefix(r, depth) && Partitioned(r, keys, 0, 0, n, depth, step, v, maxLt, minGt)
    requires LcpSorted(r, o, o, step.numLt + step.numEq, step.numGt) && step.numGt > 0
    ensures KeyIs(o.str, step.numLt + step.numEq, depth, minGt)
  {
    hide LcpSorted, Partitioned, KeyAt, CommonPrefix;
    PivotBetween(r, keys, n, depth, step, v, maxLt, minGt);
    SliceAgrees(r, step.numLt + step.numEq, step.numGt, depth);
    MkqsSort.PartKeys(r, keys, 0, 0, n, depth, step, v, maxLt, minGt);
    MkqsSort.FirstKey(r, o, o, step.numLt + step.numEq, step.numGt, depth, minGt);
  }

  lemma PivotStrings(r: seq<Str>, keys: seq<Key>, n: nat, depth: nat, step: MkqsStep, v: Key, maxLt: Key, minGt: Key)
    requires |r| == n && Partitioned(r, keys, 0, 0, n, depth, step, v, maxLt, minGt)
    ensures step.numLt + step.numEq <= n && step.numEq > 0
    ensures forall i :: step.numLt <= i < step.numLt + step.numEq ==> KeyAt(r[i], depth) == v
    ensures exists i :: step.numLt <= i < step.numLt + step.numEq && KeyAt(r[i], depth) == v
  {
    MkqsSort.PartKeys(r, keys, 0, 0, n, depth, step, v, maxLt, minGt);
    hide KeyAt, KeysOf, ThreeParts, Saved;
    assert KeyAt(r[step.numLt], depth) == v;
  }

  lemma EqFirst(r: seq<Str>, keys: seq<Key>, o: Output, n: nat, depth: nat, step: MkqsStep, v: Key, maxLt: Key, minGt: Key)
    requires |r| == n == |o.str| && CommonPrefix(r, depth) && Partitioned(r, keys, 0, 0, n, depth, step, v, maxLt, minGt)
    requires LcpSorted(r, o, o, step.numLt, step.numEq) && step.numEq > 0
    ensures KeyIs(o.str, step.numLt, depth, v)
  {
    SliceAgrees(r, step.numLt, step.numEq, depth);
    PivotStrings(r, keys, n, depth, step, v, maxLt, minGt);
    hide LcpSorted, Partitioned, KeyAt, CommonPrefix;
    MkqsSort.FirstKey(r, o, o, step.numLt, step.numEq, depth, v);
  }

  lemma EqLast(r: seq<Str>, keys: seq<Key>, o: Output, n: nat, depth: nat, step: MkqsStep, v: Key, maxLt: Key, minGt: Key)
    requires |r| == n == |o.str| && CommonPrefix(r, depth) && Partitioned(r, keys, 0, 0, n, depth, step, v, maxLt, minGt)
    requires LcpSorted(r, o, o, step.numLt, step.numEq) && step.numEq > 0
    ensures KeyIs(o.str, step.numLt + step.numEq - 1, depth, v)
  {
    SliceAgrees(r, step.numLt, step.numEq, depth);
    PivotStrings(r, keys, n, depth, step, v, maxLt, minGt);
    hide LcpSorted, Partitioned, KeyAt, CommonPrefix;
    MkqsSort.LastKey(r, o, o, step.numLt, step.numEq, depth, v);
  }

  lemma BordersKnown(r: seq<Str>, keys: seq<Key>, o: Output, n: nat, depth: nat, step: MkqsStep, v: Key, maxLt: Key, minGt: Key)
    requires |r| == n == |o.str| && CommonPrefix(r, depth) && Partitioned(r, keys, 0, 0, n, depth, step, v, maxLt, minGt)
    requires ThirdsDone(r, o, step)
    ensures MkqsSort.BorderKeys(o.str, 0, depth, step, v, maxLt, minGt)
  {
    hide LcpSorted, Partitioned, KeyIs, CommonPrefix, Saved;
    PivotBetween(r, keys, n, depth, step, v, maxLt, minGt);
    EqFirst(r, keys, o, n, depth, step, v, maxLt, minGt);
    EqLast(r, keys, o, n, depth, step, v, maxLt, minGt);
    if step.numLt > 0 { LtBorder(r, keys, o, n, depth, step, v, maxLt, minGt); }
    if step.numGt > 0 { GtBorder(r, keys, o, n, depth, step, v, maxLt, minGt); }
  }

  lemma PivotBetween(r: seq<Str>, keys: seq<Key>, n: nat, depth: nat, step: MkqsStep, v: Key, maxLt: Key, minGt: Key)
    requires |r| == n && Partitioned(r, keys, 0, 0, n, depth, step, v, maxLt, minGt)
    ensures step.numLt > 0 ==> maxLt < v
    ensures step.numGt > 0 ==> v < minGt
    ensures step.numEq > 0 && n == step.numLt + step.numEq + step.numGt && Saved(step, v, maxLt, minGt)
  {
    hide KeysOf, Saved;
  }

  /** Everything calculate_lcp asks for. */
  lemma ThirdsClosable(w: Work, info: Info, o: Output)
    requires WorkOk(w) && InfoOk(w, info) && info.ByPivot? && |o.str| == |o.lcp| == |o.chr| == w.n
    requires ThirdsDone(info.r, o, info.step)
    ensures Delivered(o, 0, w.n, MkqsSort.Open(0, info.step)) && CommonPrefix(o.str, w.depth)
    ensures Saved(info.step, info.v, info.maxLt, info.minGt) && info.step.numEq > 0
    ensures w.n == info.step.numLt + info.step.numEq + info.step.numGt
    ensures MkqsSort.BorderKeys(o.str, 0, w.depth, info.step, info.v, info.maxLt, info.minGt)
    ensures SameStrings(info.r, o.str, 0, w.n)
  {
    hide Partitioned, ThirdsDone, Delivered, MkqsSort.BorderKeys, Saved, MkqsSort.Open, SameStrings, CommonPrefix;
    PrefixSurvives(w.q, info.r, w.depth);
    PivotBetween(info.r, info.keys, w.n, w.depth, info.step, info.v, info.maxLt, info.minGt);
    ThirdsJoined(info.r, o, info.step, w.n);
    SameWhole(info.r, o, w.n);
    PrefixSurvives(info.r, o.str, w.depth);
    BordersKnown(info.r, info.keys, o, w.n, w.depth, info.step, info.v, info.maxLt, info.minGt);
  }

  lemma SameWhole(r: seq<Str>, o: Output, n: nat)
    requires |r| == |o.str| == n && SameStrings(r, o.str, 0, n)
    ensures multiset(r) == multiset(o.str)
  {
    assert r[0..0 + n] == r && o.str[0..0 + n] == o.str;
  }

  // ---- closing -------------------------------------------------------------------------------------------

  /** What the worker finds that calculates the LCPs between the pieces. */
  ghost predicate CloseReady(w: Work, info: Info, out: bool, l: Mem) {
    && InfoOk(w, info) && Sized(l, w.n) && SameStrings(w.q, Strs(l, out), 0, w.n)
    && match info
       case ByBuckets(_, size, splitters, _) =>
         InPlace(Strs(l, out), 0, w.n, size, splitters, w.depth) && Delivered(OutOf(l, out), 0, w.n, StartsFrom(0, size, 0))
       case ByPivot(_, _, step, v, maxLt, minGt) =>
         && w.n == step.numLt + step.numEq + step.numGt && step.numEq > 0
         && Delivered(OutOf(l, out), 0, w.n, MkqsSort.Open(0, step)) && CommonPrefix(Strs(l, out), w.depth)
         && Saved(step, v, maxLt, minGt) && MkqsSort.BorderKeys(Strs(l, out), 0, w.depth, step, v, maxLt, minGt)
  }

  /** It writes LCPs and characters only. */
  ghost predicate CloseOk(w: Work, out: bool, l: Mem, l': Mem) {
    && Sized(l', w.n) && Strs(l', out) == Strs(l, out) && FirstKept(l, l')
    && Delivered(OutOf(l', out), 0, w.n, {})
  }

  lemma SameAsSplit(w: Work, info: Info, q: seq<Str>)
    requires WorkOk(w) && InfoOk(w, info) && |q| == w.n && SameStrings(info.r, q, 0, w.n)
    ensures SameStrings(w.q, q, 0, w.n)
  {
    assert w.q[0..0 + w.n] == w.q && info.r[0..0 + w.n] == info.r;
  }

  /** When all pieces are done, the LCPs between them can be calculated. */
  lemma Closable(w: Work, info: Info, out: bool, l: Mem)
    requires WorkOk(w) && InfoOk(w, info) && PiecesDone(w, info, out, l)
    ensures CloseReady(w, info, out, l)
  {
    var o := OutOf(l, out);
    hide InfoOk, LcpSorted, InPlace, Delivered, SameStrings, CommonPrefix, StartsFrom, Saved, MkqsSort.BorderKeys, MkqsSort.Open;
    if info.ByBuckets? {
      forall j | 0 <= j < |info.size| ensures LcpSorted(info.r, o, o, Start(info.size, j), info.size[j]) {
        assert LcpSorted(info.r, o, o, PieceLo(info, j), PieceSize(info, j));
      }
      BucketsClosable(w, info, o);
    } else {
      assert LcpSorted(info.r, o, o, PieceLo(info, 0), PieceSize(info, 0));
      assert LcpSorted(info.r, o, o, PieceLo(info, 1), PieceSize(info, 1));
      assert LcpSorted(info.r, o, o, PieceLo(info, 2), PieceSize(info, 2));
      ThirdsClosable(w, info, o);
    }
    SameAsSplit(w, info, o.str);
  }

  /** Calculated, they make the whole range done. */
  lemma Closed(w: Work, info: Info, out: bool, l: Mem, l': Mem)
    requires CloseReady(w, info, out, l) && CloseOk(w, out, l, l')
    ensures SortedOk(w, out, l')
  {
    hide InfoOk, InPlace, Delivered, SameStrings, CommonPrefix, Saved, MkqsSort.BorderKeys;
    assert WroteOnly(OutOf(l', out), OutOf(l', out), 0, w.n);
  }

  /** The pieces of a range are done when each is done in its own part. */
  lemma PiecesOf(w: Work, info: Info, out: bool, l: Mem)
    requires InfoOk(w, info) && Sized(l, w.n)
    requires forall j :: 0 <= j < Pieces(info) ==>
               && PieceLo(info, j) + PieceSize(info, j) <= w.n == |info.r|
               && SortedOk(Piece(w, info, j), out, Section(l, PieceLo(info, j), PieceSize(info, j)))
    ensures PiecesDone(w, info, out, l)
  {
    SizeOf(w, info);
    hide InfoOk, SortedOk, LcpSorted, PieceLo, PieceSize;
    forall j | 0 <= j < Pieces(info)
      ensures LcpSorted(info.r, OutOf(l, out), OutOf(l, out), PieceLo(info, j), PieceSize(info, j))
    {
      PieceDone(w, info, out, l, j);
    }
  }
}
