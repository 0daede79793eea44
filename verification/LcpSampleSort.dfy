/** The LCP-producing sample sort, end to end: distribution steps that alternate between two string
    arrays, multikey quicksort for smaller buckets, and LCPs across bucket boundaries. */
module LcpSampleSort {
  import opened Bits
  import opened Strings
  import opened Keys
  import opened SplitterTree
  import opened TreeBuilder
  import opened Classifier
  import opened Classify
  import opened Permute
  import opened Buckets
  import opened LcpOutput
  import opened BucketLcps
  import OutOfPlace
  import MkqsSort
  import SampleSort

  /** Classifier, tree size, and where sample sort and quicksort hand over. */
  datatype Config = Config(variant: Variant, treebits: nat, smallsort: nat, insertion: nat) {
    ghost predicate Valid() {
      && 1 <= treebits <= MAX_TREEBITS && smallsort >= 1 && insertion >= 3
      && (variant.Interleave? ==> variant.rollout > 0)
    }
  }

  /** What a finished step remembers: bucket boundaries, splitters and their LCP bytes. */
  datatype Step = Step(bkt: seq<nat>, splitters: seq<Key>, splitterLcp: seq<nat>)

  /** A step in flight: the strings right after distribution, and the output before it. */
  datatype Flight = Flight(p: seq<Str>, o0: Output, lo: nat, n: nat, depth: nat, maxLen: nat, size: seq<nat>, step: Step)

  ghost predicate InFlight(x: Flight) {
    && x.n > 0 && x.lo + x.n <= |x.p| && x.o0.Covers(x.lo + x.n)
    && x.step.splitters != [] && IsLcpTable(x.step.splitterLcp, x.step.splitters) && Boundaries(x.step.bkt, x.size)
    && InPlace(x.p, x.lo, x.n, x.size, x.step.splitters, x.depth)
    && Bounded(x.p[x.lo..x.lo + x.n], x.maxLen)
    && SampleSort.Sampled(x.step.splitters, x.p[x.lo..x.lo + x.n], x.depth)
  }

  /** The strings of the buckets before cur stand in their buckets of the output, too. */
  ghost predicate Placed(x: Flight, q: seq<Str>, cur: nat)
    requires cur <= |x.size|
  {
    forall c, p :: 0 <= c < cur && x.lo + Start(x.size, c) <= p < x.lo + Start(x.size, c + 1) && p < |q| ==>
      KeyBucket(x.step.splitters, x.depth)(q[p]) == c
  }

  /** The buckets before cur are sorted; the others still stand in the shadow array. */
  ghost predicate Progress(x: Flight, shd: seq<Str>, o: Output, cur: nat) {
    && cur <= |x.size| && Start(x.size, cur) <= x.n
    && PartsDone(x.p, x.o0, o, x.lo, Start(x.size, cur), x.n, StartsFrom(x.lo, x.size, 0))
    && OutsideKept(x.p, shd, x.lo, x.lo + Start(x.size, cur)) && Placed(x, o.str, cur)
  }

  lemma FlightFacts(x: Flight)
    requires InFlight(x)
    ensures x.lo + x.n <= |x.p| && |x.size| == 2 * |x.step.splitters| + 1 && Start(x.size, |x.size|) == x.n > 0
    ensures SortedKeys(x.step.splitters) && CommonPrefix(x.p[x.lo..x.lo + x.n], x.depth)
    ensures InBuckets(x.p[x.lo..x.lo + x.n], x.size, KeyBucket(x.step.splitters, x.depth))
    ensures |x.step.bkt| == |x.size| + 1 && |x.step.splitterLcp| == |x.step.splitters| + 1
  {
    SortedOf(x.p, x.lo, x.n, x.size, x.step.splitters, x.depth);
  }

  lemma FlightStart(x: Flight)
    requires InFlight(x)
    ensures Progress(x, x.p, x.o0, 0)
  {
    NoPartsDone(x.p, x.o0, x.lo, x.n);
    OpenLess(x.o0, x.lo, 0, {}, StartsFrom(x.lo, x.size, 0));
    hide Delivered, StartsFrom;
  }

  lemma ProgressFacts(x: Flight, shd: seq<Str>, o: Output, cur: nat)
    requires Progress(x, shd, o, cur)
    ensures cur <= |x.size| && Start(x.size, cur) <= x.n
    ensures PartsDone(x.p, x.o0, o, x.lo, Start(x.size, cur), x.n, StartsFrom(x.lo, x.size, 0))
    ensures OutsideKept(x.p, shd, x.lo, x.lo + Start(x.size, cur)) && Placed(x, o.str, cur)
  {
  }

  lemma BucketRange(size: seq<nat>, cur: nat, n: nat)
    requires cur < |size| && Start(size, |size|) == n
    ensures Start(size, cur) + size[cur] == Start(size, cur + 1) <= n
  {
    StartMono(size, cur + 1, |size|);
  }

  /** The strings of bucket cur right after distribution. */
  lemma BucketStrings(x: Flight, cur: nat, y: nat, m: nat)
    requires InFlight(x) && cur < |x.size| && y == x.lo + Start(x.size, cur) && m == x.size[cur]
    ensures y + m <= x.lo + x.n <= |x.p|
    ensures forall i :: y <= i < y + m ==> KeyBucket(x.step.splitters, x.depth)(x.p[i]) == cur
  {
    hide *;
    FlightFacts(x);
    BucketRange(x.size, cur, x.n);
    StringsIn(x.p, x.lo, x.n, x.size, KeyBucket(x.step.splitters, x.depth), cur, y, m);
  }

  lemma StringsIn(p: seq<Str>, lo: nat, n: nat, size: seq<nat>, f: Str -> nat, cur: nat, y: nat, m: nat)
    requires lo + n <= |p| && InBuckets(p[lo..lo + n], size, f) && cur < |size|
    requires y == lo + Start(size, cur) && y + m == lo + Start(size, cur + 1) && y + m <= lo + n
    ensures forall i :: y <= i < y + m ==> f(p[i]) == cur
  {
    var q, s, e := p[lo..lo + n], Start(size, cur), Start(size, cur + 1);
    assert forall j :: s <= j < e && j < |q| ==> f(q[j]) == cur;
    hide Start, InBuckets;
    forall i | y <= i < y + m ensures f(p[i]) == cur {
      assert q[i - lo] == p[i];
    }
  }

  /** Bucket cur, as it still stands in the shadow array. */
  lemma BucketUntouched(x: Flight, shd: seq<Str>, o: Output, cur: nat, y: nat, m: nat)
    requires InFlight(x) && Progress(x, shd, o, cur) && cur < |x.size| && y == x.lo + Start(x.size, cur) && m == x.size[cur]
    ensures y + m <= x.lo + x.n && y + m <= |shd| && y + m <= |x.p| && o.Covers(y + m)
    ensures shd[y..y + m] == x.p[y..y + m]
  {
    hide *;
    BucketStrings(x, cur, y, m);
    ProgressFacts(x, shd, o, cur);
    KeptSlice(x.p, shd, x.lo, y, m);
    CoversWrote(x, o, Start(x.size, cur), y + m);
  }

  lemma KeptSlice(p: seq<Str>, shd: seq<Str>, lo: nat, y: nat, m: nat)
    requires OutsideKept(p, shd, lo, y) && y + m <= |p|
    ensures |shd| == |p| && shd[y..y + m] == p[y..y + m]
  {
  }

  lemma CoversWrote(x: Flight, o: Output, a: nat, hi: nat)
    requires PartsDone(x.p, x.o0, o, x.lo, a, x.n, StartsFrom(x.lo, x.size, 0)) && InFlight(x) && hi <= x.lo + x.n
    ensures o.Covers(hi)
  {
    hide InPlace, SameStrings, Delivered, StartsFrom, Boundaries, IsLcpTable, Bounded;
  }

  lemma FlightStrings(x: Flight)
    requires InFlight(x)
    ensures x.lo + x.n <= |x.p| && Bounded(x.p[x.lo..x.lo + x.n], x.maxLen) && x.step.splitters != []
    ensures SampleSort.Sampled(x.step.splitters, x.p[x.lo..x.lo + x.n], x.depth)
  {
  }

  lemma DeeperIsLong(keys: seq<Key>, cur: nat)
    ensures cur % 2 == 1 ==> SampleSort.Deeper(keys, cur) == KEY_BYTES > 0
  {
  }

  /** The bucket's strings agree on more characters, and a less-than bucket does not hold them all. */
  lemma BucketReady(x: Flight, shd: seq<Str>, o: Output, cur: nat, y: nat, m: nat, d: nat)
    requires InFlight(x) && Progress(x, shd, o, cur) && cur < |x.size| && y == x.lo + Start(x.size, cur) && m == x.size[cur] > 0
    requires SampleSort.Open(x.step.splitters, cur) && d == x.depth + SampleSort.Deeper(x.step.splitters, cur)
    ensures y + m <= x.lo + x.n && y + m <= |shd| && CommonPrefix(shd[y..y + m], d) && Bounded(shd[y..y + m], x.maxLen)
    ensures d <= x.maxLen && (if cur % 2 == 0 then m < x.n else x.depth < d)
  {
    hide *;
    FlightFacts(x);
    FlightStrings(x);
    BucketStrings(x, cur, y, m);
    BucketUntouched(x, shd, o, cur, y, m);
    SampleSort.SegmentReady(x.p, x.lo, x.n, y, m, x.step.splitters, x.depth, cur, x.maxLen);
    if cur % 2 == 0 { SampleSort.BucketSmaller(x.p[x.lo..x.lo + x.n], x.size, x.step.splitters, x.depth, cur); }
    DeeperIsLong(x.step.splitters, cur);
  }

  /** The strings of an equal bucket all carry the splitter's key. */
  lemma EqualBucketKey(x: Flight, shd: seq<Str>, o: Output, cur: nat, y: nat, m: nat)
    requires InFlight(x) && Progress(x, shd, o, cur) && cur < |x.size| && y == x.lo + Start(x.size, cur) && m == x.size[cur]
    requires cur % 2 == 1
    ensures y + m <= |shd| && CommonPrefix(shd[y..y + m], x.depth)
    ensures AllHaveKey(shd[y..y + m], x.depth, x.step.splitters[cur / 2])
  {
    hide *;
    FlightFacts(x);
    FlightStrings(x);
    BucketStrings(x, cur, y, m);
    BucketUntouched(x, shd, o, cur, y, m);
    SubSegment(x.p, x.lo, x.lo + x.n, y, y + m, x.depth, x.maxLen);
    KeyOfOdd(x.p, y, m, x.step.splitters, x.depth, cur);
  }

  lemma KeyOfOdd(p: seq<Str>, y: nat, m: nat, keys: seq<Key>, depth: nat, cur: nat)
    requires y + m <= |p| && SortedKeys(keys) && cur < 2 * |keys| + 1 && cur % 2 == 1
    requires forall i :: y <= i < y + m ==> KeyBucket(keys, depth)(p[i]) == cur
    ensures AllHaveKey(p[y..y + m], depth, keys[cur / 2])
  {
    hide Bucket, KeyAt, SortedKeys;
    var r := p[y..y + m];
    forall i | 0 <= i < |r| ensures KeyAt(r[i], depth) == keys[cur / 2] {
      assert KeyBucket(keys, depth)(p[y + i]) == cur;
      BucketMeaning(keys, KeyAt(p[y + i], depth));
    }
  }

  /** Sorted strings of a bucket are strings of the bucket. */
  lemma SortedInBucket(p: seq<Str>, shd: seq<Str>, o: Output, o': Output, cur: nat, y: nat, m: nat, f: Str -> nat)
    requires LcpSorted(shd, o, o', y, m) && y + m <= |shd| && y + m <= |p| && shd[y..y + m] == p[y..y + m]
    requires forall i :: y <= i < y + m ==> f(p[i]) == cur
    ensures forall i :: y <= i < y + m && i < |o'.str| ==> f(o'.str[i]) == cur
  {
    hide Delivered, WroteOnly;
    var r, r' := p[y..y + m], o'.str[y..y + m];
    forall i | y <= i < y + m && i < |o'.str| ensures f(o'.str[i]) == cur {
      assert r'[i - y] == o'.str[i];
      SameElements(r, r', r'[i - y]);
      var j :| 0 <= j < |r| && r[j] == r'[i - y];
      assert r[j] == p[y + j];
    }
  }

  lemma PlacedMore(x: Flight, q: seq<Str>, q': seq<Str>, cur: nat, y: nat, m: nat)
    requires cur < |x.size| && Placed(x, q, cur) && OutsideKept(q, q', y, y + m)
    requires y == x.lo + Start(x.size, cur) && y + m == x.lo + Start(x.size, cur + 1)
    requires forall i :: y <= i < y + m && i < |q'| ==> KeyBucket(x.step.splitters, x.depth)(q'[i]) == cur
    ensures Placed(x, q', cur + 1)
  {
    var f := KeyBucket(x.step.splitters, x.depth);
    hide KeyBucket;
    forall c, p | 0 <= c < cur + 1 && x.lo + Start(x.size, c) <= p < x.lo + Start(x.size, c + 1) && p < |q'|
      ensures f(q'[p]) == c
    {
      if c < cur { BeforeBucket(x.size, c, cur); }
    }
  }

  lemma BeforeBucket(size: seq<nat>, c: nat, cur: nat)
    requires c < cur < |size|
    ensures Start(size, c + 1) <= Start(size, cur)
  {
    StartMono(size, c + 1, cur);
  }

  lemma BucketDone(x: Flight, shd: seq<Str>, shd': seq<Str>, o: Output, o': Output, cur: nat, y: nat, m: nat)
    requires InFlight(x) && Progress(x, shd, o, cur) && cur < |x.size| && y == x.lo + Start(x.size, cur) && m == x.size[cur]
    requires LcpSorted(shd, o, o', y, m) && OutsideKept(shd, shd', y, y + m)
    ensures Progress(x, shd', o', cur + 1)
  {
    hide *;
    FlightFacts(x);
    ProgressFacts(x, shd, o, cur);
    BucketStrings(x, cur, y, m);
    BucketUntouched(x, shd, o, cur, y, m);
    BucketRange(x.size, cur, x.n);
    SortedInBucket(x.p, shd, o, o', cur, y, m, KeyBucket(x.step.splitters, x.depth));
    SortedWrote(shd, o, o', y, m);
    PlacedMore(x, o.str, o'.str, cur, y, m);
    OneMorePart(x.p, shd, x.o0, o, o', x.lo, Start(x.size, cur), m, x.n, StartsFrom(x.lo, x.size, 0));
    StartIn(x.lo, x.size, 0, cur);
    assert StartsFrom(x.lo, x.size, 0) + {y} == StartsFrom(x.lo, x.size, 0);
    KeptTogether(x.p, shd, shd', x.lo, y, m);
    ProgressOf(x, shd', o', cur + 1);
  }

  lemma SortedWrote(shd: seq<Str>, o: Output, o': Output, y: nat, m: nat)
    requires LcpSorted(shd, o, o', y, m)
    ensures OutsideKept(o.str, o'.str, y, y + m)
  {
  }

  lemma KeptTogether(p: seq<Str>, shd: seq<Str>, shd': seq<Str>, lo: nat, y: nat, m: nat)
    requires OutsideKept(p, shd, lo, y) && OutsideKept(shd, shd', y, y + m) && lo <= y
    ensures OutsideKept(p, shd', lo, y + m)
  {
  }

  lemma ProgressOf(x: Flight, shd: seq<Str>, o: Output, cur: nat)
    requires cur <= |x.size| && Start(x.size, cur) <= x.n
    requires PartsDone(x.p, x.o0, o, x.lo, Start(x.size, cur), x.n, StartsFrom(x.lo, x.size, 0))
    requires OutsideKept(x.p, shd, x.lo, x.lo + Start(x.size, cur)) && Placed(x, o.str, cur)
    ensures Progress(x, shd, o, cur)
  {
  }

  lemma PlacedBuckets(x: Flight, q: seq<Str>)
    requires x.lo + x.n <= |q| && Placed(x, q, |x.size|) && Start(x.size, |x.size|) == x.n
    ensures InBuckets(q[x.lo..x.lo + x.n], x.size, KeyBucket(x.step.splitters, x.depth))
  {
    hide KeyBucket;
    var r := q[x.lo..x.lo + x.n];
    forall c, p | 0 <= c < |x.size| && Start(x.size, c) <= p < Start(x.size, c + 1) && p < |r|
      ensures KeyBucket(x.step.splitters, x.depth)(r[p]) == c
    {
      assert r[p] == q[x.lo + p];
    }
  }

  lemma AllPlaced(x: Flight, shd: seq<Str>, o: Output)
    requires InFlight(x) && Progress(x, shd, o, |x.size|)
    ensures InPlace(o.str, x.lo, x.n, x.size, x.step.splitters, x.depth)
    ensures Delivered(o, x.lo, x.n, StartsFrom(x.lo, x.size, 0))
    ensures SameStrings(x.p, o.str, x.lo, x.n) && WroteOnly(x.o0, o, x.lo, x.n) && OutsideKept(x.p, shd, x.lo, x.lo + x.n)
  {
    FlightFacts(x);
    hide InFlight, KeyBucket, Delivered, StartsFrom, InBuckets, Placed, CommonPrefix, Start, OutsideKept, SortedKeys;
    PlacedBuckets(x, o.str);
    PrefixSurvives(x.p[x.lo..x.lo + x.n], o.str[x.lo..x.lo + x.n], x.depth);
  }

  // ---- the algorithm -----------------------------------------------------------------------

  /** Steps 1 and 2: sample, build the classifier, classify and count. */
  method ClassifyAndCount(act: array<Str>, lo: nat, n: nat, depth: nat, cfg: Config)
    returns (keys: seq<Key>, splitterLcp: seq<nat>, bktcache: array<nat>, bktsize: array<nat>)
    requires cfg.Valid() && n > 0 && lo + n <= act.Length
    ensures fresh(bktcache) && fresh(bktsize) && bktcache.Length == n && bktsize.Length == 2 * |keys| + 1
    ensures Counts(bktcache[..n], bktsize[..]) && Paired(bktcache[..n], act[lo..lo + n], KeyBucket(keys, depth))
    ensures keys != [] && SortedKeys(keys) && IsLcpTable(splitterLcp, keys)
    ensures SampleSort.Sampled(keys, act[lo..lo + n], depth)
  {
    hide Bucket, KeyAt, InOrder, IsLcpTable, Embeds, Counts, SampleSort.Sampled, SampleSort.SortKeys, Paired, Classified;
    var numsplitters := Pow2(cfg.treebits) - 1;
    assert Pow2(cfg.treebits) == 2 * Pow2(cfg.treebits - 1);
    var samples := SampleSort.DrawSamples(act, lo, n, depth, SampleSort.OVERSAMPLE_FACTOR * numsplitters);
    SampleSort.SortedSampled(samples, act[lo..lo + n], depth, cfg.treebits);
    var classifier := new ClassifyTree(cfg.treebits);
    var lcps := classifier.Build(SampleSort.SortKeys(samples));
    splitterLcp := lcps[..];
    keys := classifier.splitter[..];
    bktcache := new nat[n];
    ClassifyAll(classifier, cfg.variant, act, lo, n, depth, bktcache);
    SampleSort.ClassifiedPaired(bktcache[..], act[lo..lo + n], keys, depth);
    bktsize := CountBuckets(bktcache, n, 2 * numsplitters + 1);
  }

  lemma Launched(x: Flight, q: seq<Str>)
    requires x.n > 0 && x.lo + x.n <= |x.p| && x.o0.Covers(x.lo + x.n) && |q| == x.n
    requires multiset(x.p[x.lo..x.lo + x.n]) == multiset(q)
    requires x.step.splitters != [] && IsLcpTable(x.step.splitterLcp, x.step.splitters) && Boundaries(x.step.bkt, x.size)
    requires |x.size| == 2 * |x.step.splitters| + 1 && SortedKeys(x.step.splitters)
    requires CommonPrefix(q, x.depth) && Bounded(q, x.maxLen) && SampleSort.Sampled(x.step.splitters, q, x.depth)
    requires InBuckets(x.p[x.lo..x.lo + x.n], x.size, KeyBucket(x.step.splitters, x.depth))
    ensures InFlight(x)
  {
    var r := x.p[x.lo..x.lo + x.n];
    hide CommonPrefix, Bounded, SampleSort.Sampled, InBuckets, SortedKeys, IsLcpTable, Boundaries, KeyBucket;
    PrefixSurvives(q, r, x.depth);
    BoundSurvives(q, r, x.maxLen);
    SampleSort.SampledSurvives(x.step.splitters, q, r, x.depth);
  }

  lemma Bkts(bkt: seq<nat>, size: seq<nat>)
    requires |bkt| == |size| + 1 && forall c :: 0 <= c <= |size| ==> bkt[c] == Start(size, c)
    ensures Boundaries(bkt, size)
  {
  }

  /** Steps 1 to 4: the strings are distributed into the shadow array. */
  method MakeStep(act: array<Str>, shd: array<Str>, out: array<Str>, lcp: array<nat>, chr: array<Byte>, lo: nat, n: nat,
                  depth: nat, cfg: Config, ghost maxLen: nat) returns (step: Step, ghost x: Flight)
    requires cfg.Valid() && n > 0 && act != shd && lo + n <= act.Length && lo + n <= shd.Length
    requires lo + n <= out.Length && lo + n <= lcp.Length && lo + n <= chr.Length
    requires CommonPrefix(act[lo..lo + n], depth) && Bounded(act[lo..lo + n], maxLen)
    modifies shd
    ensures Flies(x, lo, n, depth, maxLen, step)
    ensures x.p == shd[..] && x.o0 == OutputOf(out, lcp, chr)
    ensures SameStrings(old(act[..]), x.p, lo, n)
    ensures OutsideKept(old(shd[..]), shd[..], lo, lo + n)
    ensures WroteOnly(old(OutputOf(out, lcp, chr)), OutputOf(out, lcp, chr), lo, n)
  {
    hide InFlight, Bucket, KeyAt, IsLcpTable, Counts, Paired, InBuckets, SampleSort.Sampled, CommonPrefix, Bounded, SortedKeys, Boundaries, Start;
    ghost var q, act0 := act[lo..lo + n], act[..];
    var keys, splitterLcp, bktcache, bktsize := ClassifyAndCount(act, lo, n, depth, cfg);
    ghost var size := bktsize[..];
    var bkt := OutOfPlace.Distribute(act, shd, lo, n, bktcache, bktsize, KeyBucket(keys, depth));
    Bkts(bkt[..], size);
    step := Step(bkt[..], keys, splitterLcp);
    x := Flight(shd[..], OutputOf(out, lcp, chr), lo, n, depth, maxLen, size, step);
    assert x.p[lo..lo + n] == shd[lo..lo + n] && act0[lo..lo + n] == q;
    Launched(x, q);
  }

  ghost predicate Flies(x: Flight, lo: nat, n: nat, depth: nat, maxLen: nat, step: Step) {
    InFlight(x) && x.lo == lo && x.n == n && x.depth == depth && x.maxLen == maxLen && x.step == step
  }

  /** How much deeper the strings of an open bucket are sorted, read from the LCP table. */
  lemma FliesDeeper(x: Flight)
    requires InFlight(x)
    ensures |x.step.splitterLcp| == |x.step.splitters| + 1 && DONE > 0
    ensures forall b :: 0 <= b < |x.step.splitters| ==>
              (x.step.splitterLcp[b] >= DONE <==> x.step.splitters[b] % 256 == 0)
    ensures forall c :: 0 <= c < |x.size| && c % 2 == 0 ==>
              SampleSort.Deeper(x.step.splitters, c) == x.step.splitterLcp[c / 2] % DONE
  {
    FlightFacts(x);
    var keys, lcp := x.step.splitters, x.step.splitterLcp;
    hide InPlace, Boundaries, KeyBucket, InBuckets, Start;
    forall c | 0 <= c < |x.size| && c % 2 == 0 ensures SampleSort.Deeper(keys, c) == lcp[c / 2] % DONE {
      if c < 2 * |keys| { SampleSort.LcpEntry(lcp, keys, c); }
    }
  }

  lemma FliesFacts(x: Flight, lo: nat, n: nat, depth: nat, maxLen: nat, step: Step)
    requires Flies(x, lo, n, depth, maxLen, step)
    ensures InFlight(x) && x.lo == lo && x.n == n > 0 && x.depth == depth && x.maxLen == maxLen && x.step == step
    ensures |step.bkt| == |x.size| + 1 && |x.size| == 2 * |step.splitters| + 1
    ensures |step.splitterLcp| == |step.splitters| + 1 && DONE > 0
    ensures forall c :: 0 <= c <= |x.size| ==> step.bkt[c] == Start(x.size, c)
    ensures forall c :: 0 <= c < |x.size| ==> step.bkt[c + 1] == step.bkt[c] + x.size[c] <= n
    ensures forall b :: 0 <= b < |step.splitters| ==>
              (step.splitterLcp[b] >= DONE <==> step.splitters[b] % 256 == 0)
    ensures forall c :: 0 <= c < |x.size| && c % 2 == 0 ==>
              SampleSort.Deeper(step.splitters, c) == step.splitterLcp[c / 2] % DONE
  {
    FlightFacts(x);
    FliesDeeper(x);
    hide InPlace, IsLcpTable, InBuckets, Start;
    forall c | 0 <= c < |x.size| ensures step.bkt[c + 1] == step.bkt[c] + x.size[c] <= n { BucketRange(x.size, c, n); }
  }

  ghost function Left(maxLen: nat, depth: nat): nat {
    if depth <= maxLen then maxLen - depth else 0
  }

  lemma LeftLess(maxLen: nat, depth: nat, d: nat, m: nat, n: nat)
    requires d <= maxLen && depth <= d && (m < n || depth < d)
    ensures Left(maxLen, d) < Left(maxLen, depth) || (Left(maxLen, d) == Left(maxLen, depth) && m < n)
  {
  }

  lemma SortedOutside(act0: seq<Str>, o: Output, o': Output, lo: nat, n: nat)
    requires LcpSorted(act0, o, o', lo, n)
    ensures OutsideKept(o.str, o'.str, lo, lo + n)
  {
  }

  lemma WiderKept<T>(s0: seq<T>, s1: seq<T>, s2: seq<T>, x: nat, y: nat, x': nat, y': nat)
    requires OutsideKept(s0, s1, x, y) && OutsideKept(s1, s2, x', y') && x <= x' && y' <= y
    ensures OutsideKept(s0, s2, x, y)
  {
  }

  /** The strings act[lo..lo + n], sorted into the output, with LCPs; the shadow array is scratch space. */
  method SortRange(act: array<Str>, shd: array<Str>, out: array<Str>, lcp: array<nat>, chr: array<Byte>, cache: array<Key>,
                   lo: nat, n: nat, depth: nat, cfg: Config, ghost maxLen: nat)
    requires cfg.Valid() && act != shd && lo + n <= act.Length && lo + n <= shd.Length && n <= cache.Length
    requires lo + n <= out.Length && lo + n <= lcp.Length && lo + n <= chr.Length
    requires CommonPrefix(act[lo..lo + n], depth) && Bounded(act[lo..lo + n], maxLen)
    modifies act, shd, out, lcp, chr, cache
    ensures LcpSorted(old(act[..]), old(OutputOf(out, lcp, chr)), OutputOf(out, lcp, chr), lo, n)
    ensures OutsideKept(old(act[..]), act[..], lo, lo + n) && OutsideKept(old(shd[..]), shd[..], lo, lo + n)
    decreases Left(maxLen, depth), n, 3
  {
    hide LcpSorted, CommonPrefix, Bounded;
    if n < cfg.smallsort {
      ghost var act0, o := act[..], OutputOf(out, lcp, chr);
      MkqsSort.SortMkqsCache(act, out, lcp, chr, cache, lo, n, depth, cfg.insertion, maxLen);
      SortedOutside(act0, o, OutputOf(out, lcp, chr), lo, n);
    } else {
      StepSort(act, shd, out, lcp, chr, cache, lo, n, depth, cfg, maxLen);
    }
  }

  method StepSort(act: array<Str>, shd: array<Str>, out: array<Str>, lcp: array<nat>, chr: array<Byte>, cache: array<Key>,
                  lo: nat, n: nat, depth: nat, cfg: Config, ghost maxLen: nat)
    requires cfg.Valid() && act != shd && lo + n <= act.Length && lo + n <= shd.Length && 0 < n <= cache.Length
    requires lo + n <= out.Length && lo + n <= lcp.Length && lo + n <= chr.Length
    requires CommonPrefix(act[lo..lo + n], depth) && Bounded(act[lo..lo + n], maxLen)
    modifies act, shd, out, lcp, chr, cache
    ensures LcpSorted(old(act[..]), old(OutputOf(out, lcp, chr)), OutputOf(out, lcp, chr), lo, n)
    ensures OutsideKept(old(act[..]), act[..], lo, lo + n) && OutsideKept(old(shd[..]), shd[..], lo, lo + n)
    decreases Left(maxLen, depth), n, 2
  {
    hide *;
    ghost var act0, shd0, ob := act[..], shd[..], OutputOf(out, lcp, chr);
    var step;
    ghost var x;
    step, x := MakeStep(act, shd, out, lcp, chr, lo, n, depth, cfg, maxLen);
    FliesFacts(x, lo, n, depth, maxLen, step);
    FlightStart(x);
    SameKept(act[..], lo, lo + n);
    var i := 0;
    ghost var act1 := act[..];
    while i < 2 * |step.splitters| + 1
      invariant i <= |x.size| && Progress(x, shd[..], OutputOf(out, lcp, chr), i)
      invariant OutsideKept(act1, act[..], lo, lo + n)
      decreases |x.size| - i
    {
      SortBucket(act, shd, out, lcp, chr, cache, lo, n, depth, cfg, i, step, maxLen, x, act1);
      i := i + 1;
    }
    FinishStep(shd, out, lcp, chr, lo, n, depth, step, maxLen, x, act0, shd0, ob);
  }

  lemma SameKept<T>(s: seq<T>, x: nat, y: nat)
    ensures OutsideKept(s, s, x, y)
  {
  }

  /** Bucket i: nothing to do, sorted equal strings, or a deeper sort with the two arrays exchanged. */
  method SortBucket(act: array<Str>, shd: array<Str>, out: array<Str>, lcp: array<nat>, chr: array<Byte>, cache: array<Key>,
                    lo: nat, n: nat, depth: nat, cfg: Config, i: nat, step: Step, ghost maxLen: nat, ghost x: Flight,
                    ghost act0: seq<Str>)
    requires cfg.Valid() && act != shd && lo + n <= act.Length && lo + n <= shd.Length && n <= cache.Length
    requires lo + n <= out.Length && lo + n <= lcp.Length && lo + n <= chr.Length
    requires Flies(x, lo, n, depth, maxLen, step) && i < |x.size|
    requires Progress(x, shd[..], OutputOf(out, lcp, chr), i) && OutsideKept(act0, act[..], lo, lo + n)
    modifies act, shd, out, lcp, chr, cache
    ensures Progress(x, shd[..], OutputOf(out, lcp, chr), i + 1) && OutsideKept(act0, act[..], lo, lo + n)
    decreases Left(maxLen, depth), n, 1
  {
    hide *;
    FliesFacts(x, lo, n, depth, maxLen, step);
    var b, m := step.bkt[i], step.bkt[i + 1] - step.bkt[i];
    ghost var a1, s1, o1 := act[..], shd[..], OutputOf(out, lcp, chr);
    BucketUntouched(x, s1, o1, i, lo + b, m);
    if m == 0 {
      MkqsSort.EmptySorted(s1, o1, lo + b);
      SameKept(s1, lo + b, lo + b);
      BucketDone(x, s1, s1, o1, o1, i, lo + b, m);
    } else if i % 2 == 1 && step.splitterLcp[i / 2] >= DONE {
      DoneBucket(act, shd, out, lcp, chr, lo, n, depth, i, step, b, m, maxLen, x);
      WiderKept(act0, a1, act[..], lo, lo + n, lo + b, lo + b + m);
    } else {
      OpenIs(step.splitters, i);
      DeeperBucket(act, shd, out, lcp, chr, cache, lo, n, depth, cfg, i, step, b, m, maxLen, x);
      WiderKept(act0, a1, act[..], lo, lo + n, lo + b, lo + b + m);
    }
  }

  lemma OpenIs(keys: seq<Key>, c: nat)
    ensures SampleSort.Open(keys, c) <==> (c % 2 == 1 && c / 2 < |keys| ==> keys[c / 2] % 256 != 0)
  {
  }

  method DoneBucket(act: array<Str>, shd: array<Str>, out: array<Str>, lcp: array<nat>, chr: array<Byte>, lo: nat, n: nat,
                    depth: nat, i: nat, step: Step, b: nat, m: nat, ghost maxLen: nat, ghost x: Flight)
    requires act != shd && lo + n <= act.Length && lo + n <= shd.Length
    requires lo + n <= out.Length && lo + n <= lcp.Length && lo + n <= chr.Length
    requires Flies(x, lo, n, depth, maxLen, step) && i < |x.size| && Progress(x, shd[..], OutputOf(out, lcp, chr), i)
    requires b == Start(x.size, i) && m == x.size[i] && i % 2 == 1 && i / 2 < |step.splitters| && step.splitters[i / 2] % 256 == 0
    modifies out, lcp, chr
    ensures Progress(x, shd[..], OutputOf(out, lcp, chr), i + 1) && OutsideKept(old(act[..]), act[..], lo + b, lo + b + m)
  {
    hide InFlight, Progress, LcpSorted, AllHaveKey, CommonPrefix, LcpKeyDepth, Start, KeyAt;
    ghost var s1, o1 := shd[..], OutputOf(out, lcp, chr);
    BucketUntouched(x, s1, o1, i, lo + b, m);
    EqualBucketKey(x, s1, o1, i, lo + b, m);
    MkqsSort.FillEqual(shd, out, lcp, chr, lo + b, m, depth, LcpKeyDepth(step.splitters[i / 2]), step.splitters[i / 2]);
    BucketDone(x, s1, shd[..], o1, OutputOf(out, lcp, chr), i, lo + b, m);
    SortedOutside(s1, o1, OutputOf(out, lcp, chr), lo + b, m);
  }

  method DeeperBucket(act: array<Str>, shd: array<Str>, out: array<Str>, lcp: array<nat>, chr: array<Byte>, cache: array<Key>,
                      lo: nat, n: nat, depth: nat, cfg: Config, i: nat, step: Step, b: nat, m: nat,
                      ghost maxLen: nat, ghost x: Flight)
    requires cfg.Valid() && act != shd && lo + n <= act.Length && lo + n <= shd.Length && n <= cache.Length
    requires lo + n <= out.Length && lo + n <= lcp.Length && lo + n <= chr.Length
    requires Flies(x, lo, n, depth, maxLen, step) && i < |x.size| && Progress(x, shd[..], OutputOf(out, lcp, chr), i)
    requires b == Start(x.size, i) && 0 < m == x.size[i] && i / 2 < |step.splitterLcp| && SampleSort.Open(step.splitters, i)
    modifies act, shd, out, lcp, chr, cache
    ensures Progress(x, shd[..], OutputOf(out, lcp, chr), i + 1) && OutsideKept(old(act[..]), act[..], lo + b, lo + b + m)
    decreases Left(maxLen, depth), n, 0
  {
    hide *;
    ghost var s1, o1 := shd[..], OutputOf(out, lcp, chr);
    FliesFacts(x, lo, n, depth, maxLen, step);
    DeeperIsLong(step.splitters, i);
    var d := depth + if i % 2 == 0 then step.splitterLcp[i / 2] % DONE else KEY_BYTES;
    BucketUntouched(x, s1, o1, i, lo + b, m);
    BucketReady(x, s1, o1, i, lo + b, m, d);
    LeftLess(maxLen, depth, d, m, n);
    SortRange(shd, act, out, lcp, chr, cache, lo + b, m, d, cfg, maxLen);
    BucketDone(x, s1, shd[..], o1, OutputOf(out, lcp, chr), i, lo + b, m);
  }

  /** calculate_lcp after all buckets are sorted. */
  method FinishStep(shd: array<Str>, out: array<Str>, lcp: array<nat>, chr: array<Byte>, lo: nat, n: nat, depth: nat, step: Step,
                    ghost maxLen: nat, ghost x: Flight, ghost act0: seq<Str>, ghost shd0: seq<Str>, ghost ob: Output)
    requires Flies(x, lo, n, depth, maxLen, step) && Progress(x, shd[..], OutputOf(out, lcp, chr), |x.size|)
    requires SameStrings(act0, x.p, lo, n) && OutsideKept(shd0, x.p, lo, lo + n) && WroteOnly(ob, x.o0, lo, n)
    modifies lcp, chr
    ensures LcpSorted(act0, ob, OutputOf(out, lcp, chr), lo, n)
    ensures OutsideKept(shd0, shd[..], lo, lo + n)
  {
    hide InFlight, Progress, InPlace, Delivered, WroteOnly, SameStrings, LcpSorted, StartsFrom, Start, IsLcpTable;
    ghost var o := OutputOf(out, lcp, chr);
    AllPlaced(x, shd[..], o);
    FlightBoundaries(x);
    SampleSortLcp(out, lcp, chr, lo, n, depth, step.bkt, step.splitters, x.size);
    StepSorted(act0, ob, x, o, OutputOf(out, lcp, chr));
  }

  lemma FlightBoundaries(x: Flight)
    requires InFlight(x)
    ensures Boundaries(x.step.bkt, x.size) && x.n > 0
  {
  }

  lemma StepSorted(act0: seq<Str>, ob: Output, x: Flight, o: Output, o': Output)
    requires SameStrings(act0, x.p, x.lo, x.n) && WroteOnly(ob, x.o0, x.lo, x.n)
    requires SameStrings(x.p, o.str, x.lo, x.n) && WroteOnly(x.o0, o, x.lo, x.n)
    requires o'.str == o.str && WroteOnly(o, o', x.lo, x.n) && Delivered(o', x.lo, x.n, {})
    ensures LcpSorted(act0, ob, o', x.lo, x.n)
  {
    hide Delivered;
    WroteOnlyTrans(ob, x.o0, o, x.lo, x.n);
    WroteOnlyTrans(ob, o, o', x.lo, x.n);
  }
}
