/** sample_sort_generic: the sequential super scalar string sample sort, end to end. */
module SampleSort {
  import opened Bits
  import opened Strings
  import opened Keys
  import opened SplitterTree
  import opened TreeBuilder
  import opened Classifier
  import opened Classify
  import opened Permute
  import opened Buckets
  import RadixSort

  const OVERSAMPLE_FACTOR := 2

  /** Tuning of one sorter: classifier, size of the tree, and where the base case begins. */
  datatype Config = Config(variant: Variant, treebits: nat, smallsort: nat, insertion: nat) {
    ghost predicate Valid() {
      && 1 <= treebits <= MAX_TREEBITS && smallsort >= 1
      && (variant.Interleave? ==> variant.rollout > 0)
    }
  }

  // ---- sampling ---------------------------------------------------------------

  /** Every splitter is the key of a string that is being sorted. */
  ghost predicate Sampled(keys: seq<Key>, q: seq<Str>, depth: nat) {
    forall k :: k in keys ==> exists p :: 0 <= p < |q| && KeyAt(q[p], depth) == k
  }

  method DrawSamples(a: array<Str>, lo: nat, n: nat, depth: nat, samplesize: nat) returns (samples: seq<Key>)
    requires lo + n <= a.Length && n > 0
    ensures |samples| == samplesize && Sampled(samples, a[lo..lo + n], depth)
  {
    samples := [];
    for i := 0 to samplesize
      invariant |samples| == i && Sampled(samples, a[lo..lo + n], depth)
    {
      var r: nat :| r < n;
      assert a[lo..lo + n][r] == a[lo + r];
      samples := samples + [KeyAt(a[lo + r], depth)];
    }
  }

  function InsertKey(s: seq<Key>, k: Key): seq<Key> {
    if s == [] || s[|s| - 1] <= k then s + [k] else InsertKey(s[..|s| - 1], k) + [s[|s| - 1]]
  }

  lemma {:induction false} InsertKeySorted(s: seq<Key>, k: Key)
    requires SortedKeys(s)
    ensures SortedKeys(InsertKey(s, k)) && multiset(InsertKey(s, k)) == multiset(s) + multiset{k}
  {
    if s == [] || s[|s| - 1] <= k {
      SortedAppend(s, k);
    } else {
      var n := |s| - 1;
      var r := InsertKey(s[..n], k);
      InsertKeySorted(s[..n], k);
      assert s == s[..n] + [s[n]];
      assert multiset(s) == multiset(s[..n]) + multiset{s[n]};
      forall i | 0 <= i < |r| ensures r[i] <= s[n] {
        assert r[i] in multiset(s[..n]) + multiset{k};
      }
      SortedAppend(r, s[n]);
    }
  }

  lemma SortedAppend(s: seq<Key>, k: Key)
    requires SortedKeys(s) && (s != [] ==> s[|s| - 1] <= k)
    ensures SortedKeys(s + [k]) && multiset(s + [k]) == multiset(s) + multiset{k}
  {
  }

  /** The library sort, by its specification. */
  function SortKeys(s: seq<Key>): (r: seq<Key>)
    ensures SortedKeys(r) && multiset(r) == multiset(s)
  {
    if s == [] then [] else
      var n := |s| - 1;
      InsertKeySorted(SortKeys(s[..n]), s[n]);
      assert s == s[..n] + [s[n]];
      InsertKey(SortKeys(s[..n]), s[n])
  }

  lemma SortedSampled(samples: seq<Key>, q: seq<Str>, depth: nat, treebits: nat)
    requires samples != [] && treebits >= 1 && Sampled(samples, q, depth)
    ensures Sampled(InOrder(SortKeys(samples), 0, |SortKeys(samples)|, treebits), q, depth)
    ensures |SortKeys(samples)| == |samples|
  {
    var s := SortKeys(samples);
    assert |multiset(s)| == |multiset(samples)|;
    InOrderSorted(s, 0, |s|, treebits);
    assert Within(s, 0, |s|, InOrder(s, 0, |s|, treebits));
    forall k | k in InOrder(s, 0, |s|, treebits) ensures k in samples {
      assert k in multiset(s);
      assert k in multiset(samples);
    }
  }

  // ---- what the buckets are -----------------------------------------------------

  lemma KeyBucketOrdered(q: seq<Str>, keys: seq<Key>, depth: nat)
    requires CommonPrefix(q, depth) && SortedKeys(keys)
    ensures OrderedBy(q, KeyBucket(keys, depth))
  {
    hide Bucket, KeyAt, Leq, Lcp;
    forall i, j | 0 <= i < |q| && 0 <= j < |q| && KeyBucket(keys, depth)(q[i]) < KeyBucket(keys, depth)(q[j])
      ensures Leq(q[i], q[j])
    {
      BucketOrder(keys, KeyAt(q[i], depth), KeyAt(q[j], depth));
      assert SamePrefix(q[i], q[j], depth);
      KeysDiffer(q[i], q[j], depth);
    }
  }

  /** The strings of the bucket are not known to be equal. */
  ghost predicate Open(keys: seq<Key>, c: nat) {
    c % 2 == 1 && c / 2 < |keys| ==> keys[c / 2] % 256 != 0
  }

  /** How much deeper the strings of bucket c are known to agree. */
  ghost function Deeper(keys: seq<Key>, c: nat): nat {
    if c % 2 == 1 then KEY_BYTES
    else if 0 < c / 2 < |keys| then LcpKeyType(keys[c / 2 - 1], keys[c / 2])
    else 0
  }

  /** Strings between two splitters share the splitters' common prefix; strings equal to a
      splitter without terminator share all its characters. */
  lemma BucketDeeper(all: seq<Str>, keys: seq<Key>, depth: nat, c: nat, s: Str, t: Str)
    requires CommonPrefix(all, depth) && SortedKeys(keys) && Sampled(keys, all, depth)
    requires s in all && t in all && c < 2 * |keys| + 1
    requires Bucket(keys, KeyAt(s, depth)) == c && Bucket(keys, KeyAt(t, depth)) == c
    requires Open(keys, c)
    ensures SamePrefix(s, t, depth + Deeper(keys, c))
  {
    hide Bucket, KeyAt, LcpKeyType, Lcp;
    BucketMeaning(keys, KeyAt(s, depth));
    BucketMeaning(keys, KeyAt(t, depth));
    assert SamePrefix(s, t, depth);
    if c % 2 == 1 {
      KeysEqualLong(s, t, depth);
    } else if 0 < c / 2 < |keys| {
      var lo, hi := keys[c / 2 - 1], keys[c / 2];
      assert lo in keys && hi in keys;
      var x :| 0 <= x < |all| && KeyAt(all[x], depth) == lo;
      var y :| 0 <= y < |all| && KeyAt(all[y], depth) == hi;
      assert SamePrefix(all[x], s, depth) && SamePrefix(all[y], s, depth);
      KeysBetween(s, s, t, depth, lo, hi);
    }
  }

  lemma BucketDone(all: seq<Str>, keys: seq<Key>, depth: nat, c: nat, s: Str, t: Str)
    requires CommonPrefix(all, depth) && SortedKeys(keys)
    requires s in all && t in all && c < 2 * |keys| + 1
    requires Bucket(keys, KeyAt(s, depth)) == c && Bucket(keys, KeyAt(t, depth)) == c
    requires c % 2 == 1 && keys[c / 2] % 256 == 0
    ensures s == t
  {
    hide Bucket, KeyAt;
    BucketMeaning(keys, KeyAt(s, depth));
    BucketMeaning(keys, KeyAt(t, depth));
    assert SamePrefix(s, t, depth);
    KeysEqualShort(s, t, depth);
  }

  /** A splitter's own string stands in an equal bucket, so no other bucket takes all strings. */
  lemma BucketSmaller(q: seq<Str>, size: seq<nat>, keys: seq<Key>, depth: nat, c: nat)
    requires keys != [] && SortedKeys(keys) && Sampled(keys, q, depth)
    requires InBuckets(q, size, KeyBucket(keys, depth)) && c < |size| && c % 2 == 0
    ensures size[c] < |q|
  {
    hide KeyAt;
    var k := keys[0];
    assert k in keys;
    var p :| 0 <= p < |q| && KeyAt(q[p], depth) == k;
    assert KeyBucket(keys, depth)(q[p]) % 2 == 1;
    StartMono(size, c + 1, |size|);
    assert !(Start(size, c) <= p < Start(size, c + 1));
  }

  // ---- one level ----------------------------------------------------------------

  /** Everything the recursion needs to know about the level above. */
  ghost predicate Level(before: seq<Str>, now: seq<Str>, lo: nat, n: nat, size: seq<nat>, keys: seq<Key>,
                        depth: nat, maxLen: nat, cur: nat) {
    && lo + n <= |before| == |now| && n > 0
    && keys != [] && SortedKeys(keys) && |size| == 2 * |keys| + 1
    && CommonPrefix(before[lo..lo + n], depth) && Bounded(before[lo..lo + n], maxLen)
    && Sampled(keys, before[lo..lo + n], depth)
    && Recursing(before, now, lo, n, size, KeyBucket(keys, depth), cur)
  }

  lemma SampledSurvives(keys: seq<Key>, q: seq<Str>, r: seq<Str>, depth: nat)
    requires Sampled(keys, q, depth) && multiset(q) == multiset(r)
    ensures Sampled(keys, r, depth)
  {
    hide KeyAt;
    forall k | k in keys ensures exists p :: 0 <= p < |r| && KeyAt(r[p], depth) == k {
      var p :| 0 <= p < |q| && KeyAt(q[p], depth) == k;
      SameElements(r, q, q[p]);
      var j :| 0 <= j < |r| && r[j] == q[p];
      assert KeyAt(r[j], depth) == k;
    }
  }

  /** What holds of the strings above holds of their rearrangement. */
  lemma LevelNow(before: seq<Str>, now: seq<Str>, lo: nat, n: nat, size: seq<nat>, keys: seq<Key>,
                 depth: nat, maxLen: nat, cur: nat)
    requires Level(before, now, lo, n, size, keys, depth, maxLen, cur)
    ensures var q, f := now[lo..lo + n], KeyBucket(keys, depth);
            && |q| == n && CommonPrefix(q, depth) && Bounded(q, maxLen) && Sampled(keys, q, depth) && InBuckets(q, size, f)
    ensures lo + n <= |now| && keys != [] && SortedKeys(keys) && |size| == 2 * |keys| + 1
    ensures Recursing(before, now, lo, n, size, KeyBucket(keys, depth), cur)
  {
    hide Bucket, KeyAt, InBuckets, BucketsSorted, SortedKeys, Sampled, CommonPrefix, Bounded, Start;
    var q, q0 := now[lo..lo + n], before[lo..lo + n];
    PrefixSurvives(q0, q, depth);
    BoundSurvives(q0, q, maxLen);
    SampledSurvives(keys, q0, q, depth);
  }

  /** The preconditions of sorting one bucket. */
  lemma BucketReady(before: seq<Str>, now: seq<Str>, lo: nat, n: nat, size: seq<nat>, keys: seq<Key>,
                    depth: nat, maxLen: nat, cur: nat, x: nat, m: nat, d: nat)
    requires Level(before, now, lo, n, size, keys, depth, maxLen, cur) && cur < |size| && size[cur] > 0
    requires Open(keys, cur)
    requires x == lo + Start(size, cur) && m == size[cur] && d == depth + Deeper(keys, cur)
    ensures x + m <= lo + n <= |now| && CommonPrefix(now[x..x + m], d) && Bounded(now[x..x + m], maxLen)
    ensures d <= maxLen && (if cur % 2 == 0 then m < n else depth < d)
  {
    assert cur % 2 == 1 ==> Deeper(keys, cur) == KEY_BYTES;
    hide InBuckets, Recursing, Deeper, SortedKeys, Sampled, CommonPrefix, Bounded, Start;
    var f, q := KeyBucket(keys, depth), now[lo..lo + n];
    hide KeyBucket, Level, Open;
    LevelNow(before, now, lo, n, size, keys, depth, maxLen, cur);
    BucketStrings(before, now, lo, n, size, f, cur, cur);
    SegmentReady(now, lo, n, x, m, keys, depth, cur, maxLen);
    if cur % 2 == 0 { LevelSmaller(before, now, lo, n, size, keys, depth, maxLen, cur); }
  }

  lemma LevelSmaller(before: seq<Str>, now: seq<Str>, lo: nat, n: nat, size: seq<nat>, keys: seq<Key>,
                     depth: nat, maxLen: nat, cur: nat)
    requires Level(before, now, lo, n, size, keys, depth, maxLen, cur) && cur < |size| && cur % 2 == 0
    ensures size[cur] < n
  {
    hide InBuckets, Level, Recursing, SortedKeys, Sampled, KeyBucket;
    LevelNow(before, now, lo, n, size, keys, depth, maxLen, cur);
    BucketSmaller(now[lo..lo + n], size, keys, depth, cur);
  }

  lemma SegmentReady(now: seq<Str>, lo: nat, n: nat, x: nat, m: nat, keys: seq<Key>, depth: nat, c: nat, maxLen: nat)
    requires lo <= x && x + m <= lo + n <= |now| && m > 0
    requires CommonPrefix(now[lo..lo + n], depth) && Bounded(now[lo..lo + n], maxLen)
    requires SortedKeys(keys) && Sampled(keys, now[lo..lo + n], depth) && c < 2 * |keys| + 1 && Open(keys, c)
    requires forall p :: x <= p < x + m ==> KeyBucket(keys, depth)(now[p]) == c
    ensures CommonPrefix(now[x..x + m], depth + Deeper(keys, c)) && Bounded(now[x..x + m], maxLen)
    ensures depth + Deeper(keys, c) <= maxLen
  {
    hide CommonPrefix, Bounded, SortedKeys, Sampled, Open, Deeper, KeyBucket;
    SubSegment(now, lo, lo + n, x, x + m, depth, maxLen);
    BucketElements(now, lo, n, x, m, KeyBucket(keys, depth), c);
    SegmentDeeper(now[lo..lo + n], now[x..x + m], keys, depth, c, maxLen);
  }

  lemma BucketElements(now: seq<Str>, lo: nat, n: nat, x: nat, m: nat, f: Str -> nat, c: nat)
    requires lo <= x && x + m <= lo + n <= |now|
    requires forall p :: x <= p < x + m ==> f(now[p]) == c
    ensures var r, q := now[x..x + m], now[lo..lo + n];
            forall i :: 0 <= i < |r| ==> r[i] in q && f(r[i]) == c
  {
    var r := now[x..x + m];
    forall i | 0 <= i < m ensures r[i] in now[lo..lo + n] && f(r[i]) == c {
      assert now[lo..lo + n][x - lo + i] == now[x + i] == r[i];
    }
  }

  lemma SegmentDeeper(q: seq<Str>, r: seq<Str>, keys: seq<Key>, depth: nat, c: nat, maxLen: nat)
    requires CommonPrefix(q, depth) && SortedKeys(keys) && Sampled(keys, q, depth) && c < 2 * |keys| + 1
    requires r != [] && Bounded(r, maxLen)
    requires forall i :: 0 <= i < |r| ==> r[i] in q && KeyBucket(keys, depth)(r[i]) == c
    requires Open(keys, c)
    ensures CommonPrefix(r, depth + Deeper(keys, c)) && depth + Deeper(keys, c) <= maxLen
  {
    hide Bucket, KeyAt, Deeper, SortedKeys, Sampled;
    forall i, j | 0 <= i < |r| && 0 <= j < |r| ensures SamePrefix(r[i], r[j], depth + Deeper(keys, c)) {
      assert KeyBucket(keys, depth)(r[i]) == c && KeyBucket(keys, depth)(r[j]) == c;
      BucketDeeper(q, keys, depth, c, r[i], r[j]);
    }
    assert SamePrefix(r[0], r[0], depth + Deeper(keys, c));
  }

  lemma LevelDone(before: seq<Str>, now: seq<Str>, lo: nat, n: nat, size: seq<nat>, keys: seq<Key>,
                  depth: nat, maxLen: nat, cur: nat)
    requires Level(before, now, lo, n, size, keys, depth, maxLen, cur) && cur < |size|
    requires cur % 2 == 1 && keys[cur / 2] % 256 == 0
    ensures Level(before, now, lo, n, size, keys, depth, maxLen, cur + 1)
  {
    hide Bucket, KeyAt, BucketsSorted, Rearranged, Leq, Start;
    var f, q, q0 := KeyBucket(keys, depth), now[lo..lo + n], before[lo..lo + n];
    BucketStrings(before, now, lo, n, size, f, cur, cur);
    PrefixSurvives(q0, q, depth);
    forall i, j | Start(size, cur) <= i < j < Start(size, cur + 1) ensures Leq(q[i], q[j]) {
      assert q[i] == now[lo + i] && q[j] == now[lo + j];
      assert f(now[lo + i]) == cur && f(now[lo + j]) == cur;
      BucketDone(q, keys, depth, cur, q[i], q[j]);
      LeqTotal(q[i], q[j]);
    }
    Skipped(before, now, lo, n, size, f, cur);
  }

  lemma LevelFinished(before: seq<Str>, now: seq<Str>, lo: nat, n: nat, size: seq<nat>, keys: seq<Key>,
                      depth: nat, maxLen: nat)
    requires Level(before, now, lo, n, size, keys, depth, maxLen, |size|)
    ensures SortedResult(before, now, lo, n)
  {
    hide Bucket, KeyAt, Leq;
    var q, q0 := now[lo..lo + n], before[lo..lo + n];
    BucketStrings(before, now, lo, n, size, KeyBucket(keys, depth), |size|, 0);
    PrefixSurvives(q0, q, depth);
    KeyBucketOrdered(q, keys, depth);
    Finished(before, now, lo, n, size, KeyBucket(keys, depth));
  }

  ghost function Left(maxLen: nat, depth: nat): nat {
    if depth <= maxLen then maxLen - depth else 0
  }

  // ---- the algorithm -----------------------------------------------------------

  /** Sampling, building, classifying, counting and permuting: one distribution step. */
  method Distribute(a: array<Str>, lo: nat, n: nat, depth: nat, cfg: Config, ghost maxLen: nat)
    returns (bktsize: array<nat>, splitterLcp: array<nat>, numsplitters: nat, ghost keys: seq<Key>)
    requires cfg.Valid() && lo + n <= a.Length && n > 0
    requires CommonPrefix(a[lo..lo + n], depth) && Bounded(a[lo..lo + n], maxLen)
    modifies a
    ensures fresh(bktsize) && fresh(splitterLcp) && bktsize != splitterLcp
    ensures |keys| == numsplitters > 0 && bktsize.Length == 2 * numsplitters + 1
    ensures IsLcpTable(splitterLcp[..], keys)
    ensures Level(old(a[..]), a[..], lo, n, bktsize[..], keys, depth, maxLen, 0)
  {
    hide InBuckets, Bucket, KeyAt, CommonPrefix, Bounded, InOrder, IsLcpTable, Embeds, Counts, IsLast, Start, SortedKeys;
    ghost var before := a[..];
    numsplitters := Pow2(cfg.treebits) - 1;
    assert Pow2(cfg.treebits) == 2 * Pow2(cfg.treebits - 1);
    var samples := DrawSamples(a, lo, n, depth, OVERSAMPLE_FACTOR * numsplitters);
    SortedSampled(samples, a[lo..lo + n], depth, cfg.treebits);
    var sorted := SortKeys(samples);
    var classifier := new ClassifyTree(cfg.treebits);
    splitterLcp := classifier.Build(sorted);
    keys := classifier.keys;
    var bktcache := new nat[n];
    ClassifyAll(classifier, cfg.variant, a, lo, n, depth, bktcache);
    assert classifier.numsplitters == numsplitters && |keys| == numsplitters && SortedKeys(keys);
    ghost var lcp := splitterLcp[..];
    ClassifiedPaired(bktcache[..], a[lo..lo + n], keys, depth);
    bktsize := Arrange(a, lo, n, bktcache, 2 * numsplitters + 1, KeyBucket(keys, depth));
    assert splitterLcp[..] == lcp;
  }

  lemma ClassifiedPaired(c: seq<nat>, q: seq<Str>, keys: seq<Key>, depth: nat)
    requires |c| == |q| && SortedKeys(keys) && Classified(c, q, |q|, keys, depth)
    ensures Paired(c[..|q|], q, KeyBucket(keys, depth))
    ensures forall p :: 0 <= p < |q| ==> c[p] < 2 * |keys| + 1
  {
    hide Bucket, KeyAt;
    forall p | 0 <= p < |q| ensures c[p] < 2 * |keys| + 1 {
      BucketMeaning(keys, KeyAt(q[p], depth));
    }
  }

  /** Count, sum up, permute. */
  method Arrange(a: array<Str>, lo: nat, n: nat, bktcache: array<nat>, bktnum: nat, ghost f: Str -> nat)
    returns (bktsize: array<nat>)
    requires lo + n <= a.Length && n <= bktcache.Length && bktnum > 0
    requires Paired(bktcache[..n], a[lo..lo + n], f) && forall p :: 0 <= p < n ==> bktcache[p] < bktnum
    modifies a, bktcache
    ensures fresh(bktsize) && bktsize.Length == bktnum
    ensures Recursing(old(a[..]), a[..], lo, n, bktsize[..], f, 0)
  {
    hide Paired, InBuckets, Counts, Start;
    ghost var before := a[..];
    bktsize := CountBuckets(bktcache, n, bktnum);
    var bktindex, last;
    ghost var top := 0;
    bktindex, last, top := PrefixSum(bktsize);
    PermuteInPlace(a, lo, n, bktcache, bktsize, bktindex, last, f, top);
    StartRecursing(before, a[..], lo, n, bktsize[..], f);
  }

  /** The strings a[lo..lo + n], which agree on depth characters, are sorted in place. */
  method SampleSort(a: array<Str>, lo: nat, n: nat, depth: nat, cfg: Config, ghost maxLen: nat)
    requires cfg.Valid() && lo + n <= a.Length
    requires CommonPrefix(a[lo..lo + n], depth) && Bounded(a[lo..lo + n], maxLen)
    modifies a
    ensures SortedResult(old(a[..]), a[..], lo, n)
    decreases Left(maxLen, depth), n, 4
  {
    if n < cfg.smallsort {
      RadixSort.MsdCI(a, lo, n, depth, cfg.insertion, maxLen);
      return;
    }
    ghost var before := a[..];
    var bktsize, splitterLcp, numsplitters;
    ghost var keys: seq<Key>;
    bktsize, splitterLcp, numsplitters, keys := Distribute(a, lo, n, depth, cfg, maxLen);
    RecurseBuckets(a, lo, n, depth, cfg, bktsize, splitterLcp, numsplitters, keys, before, maxLen);
  }

  method RecurseBuckets(a: array<Str>, lo: nat, n: nat, depth: nat, cfg: Config, bktsize: array<nat>, splitterLcp: array<nat>,
                        numsplitters: nat, ghost keys: seq<Key>, ghost before: seq<Str>, ghost maxLen: nat)
    requires cfg.Valid() && |keys| == numsplitters && bktsize.Length == 2 * numsplitters + 1
    requires IsLcpTable(splitterLcp[..], keys) && |before| == a.Length
    requires Level(before, a[..], lo, n, bktsize[..], keys, depth, maxLen, 0)
    modifies a
    ensures SortedResult(before, a[..], lo, n)
    decreases Left(maxLen, depth), n, 3
  {
    hide Level, IsLcpTable, SortedResult, Start, KeyBucket, Left, Config.Valid;
    ghost var size := bktsize[..];
    FirstStart(size);
    LcpTableSize(splitterLcp[..], keys);
    var i, bsum := 0, 0;
    while i < 2 * numsplitters
      invariant i % 2 == 0 && i <= 2 * numsplitters && bsum == Start(size, i)
      invariant Level(before, a[..], lo, n, size, keys, depth, maxLen, i)
    {
      assert bktsize[i] == size[i] && bktsize[i + 1] == size[i + 1];
      bsum := TwoBuckets(a, lo, n, bsum, bktsize[i], bktsize[i + 1], splitterLcp[i / 2], depth, cfg, i, size, keys,
                         splitterLcp[..], before, maxLen);
      i := i + 2;
    }
    SortBucket(a, lo, n, bsum, bktsize[i], 0, depth, depth, cfg, i, size, keys, before, maxLen);
    LevelFinished(before, a[..], lo, n, size, keys, depth, maxLen);
  }

  /** The buckets in front of and at one splitter. */
  method TwoBuckets(a: array<Str>, lo: nat, n: nat, bsum: nat, less: nat, equal: nat, lcpByte: nat, depth: nat, cfg: Config,
                    ghost i: nat, ghost size: seq<nat>, ghost keys: seq<Key>, ghost lcp: seq<nat>,
                    ghost before: seq<Str>, ghost maxLen: nat) returns (bsum': nat)
    requires cfg.Valid() && |before| == a.Length && i % 2 == 0 && i < 2 * |keys| && |size| == 2 * |keys| + 1
    requires Level(before, a[..], lo, n, size, keys, depth, maxLen, i)
    requires bsum == Start(size, i) && less == size[i] && equal == size[i + 1]
    requires IsLcpTable(lcp, keys) && lcpByte == lcp[i / 2]
    modifies a
    ensures Level(before, a[..], lo, n, size, keys, depth, maxLen, i + 2) && bsum' == Start(size, i + 2)
    decreases Left(maxLen, depth), n, 2
  {
    hide Level, IsLcpTable, Start, Deeper;
    LcpEntry(lcp, keys, i);
    NextStart(size, i);
    NextStart(size, i + 1);
    // i is even: the less-than bucket
    SortBucket(a, lo, n, bsum, less, 1, depth + lcpByte % DONE, depth, cfg, i, size, keys, before, maxLen);
    // i + 1 is odd: the equal bucket
    EqualBucket(a, lo, n, bsum + less, equal, lcpByte, depth, cfg, i + 1, size, keys, before, maxLen);
    bsum' := bsum + less + equal;
  }

  /** Strings equal to a splitter are sorted already if the splitter contains the terminator. */
  method EqualBucket(a: array<Str>, lo: nat, n: nat, bsum: nat, m: nat, lcpByte: nat, depth: nat, cfg: Config,
                     ghost cur: nat, ghost size: seq<nat>, ghost keys: seq<Key>, ghost before: seq<Str>, ghost maxLen: nat)
    requires cfg.Valid() && |before| == a.Length && cur % 2 == 1 && cur / 2 < |keys|
    requires Level(before, a[..], lo, n, size, keys, depth, maxLen, cur)
    requires cur < |size| && bsum == Start(size, cur) && m == size[cur]
    requires lcpByte >= DONE <==> keys[cur / 2] % 256 == 0
    modifies a
    ensures Level(before, a[..], lo, n, size, keys, depth, maxLen, cur + 1)
    decreases Left(maxLen, depth), n, 1
  {
    assert Deeper(keys, cur) == KEY_BYTES;
    hide Level, Start;
    if lcpByte >= DONE {
      LevelDone(before, a[..], lo, n, size, keys, depth, maxLen, cur);
    } else {
      SortBucket(a, lo, n, bsum, m, 1, depth + KEY_BYTES, depth, cfg, cur, size, keys, before, maxLen);
    }
  }

  lemma FirstStart(size: seq<nat>)
    ensures Start(size, 0) == 0
  {
  }

  lemma LcpTableSize(lcp: seq<nat>, keys: seq<Key>)
    requires IsLcpTable(lcp, keys)
    ensures |lcp| == |keys| + 1 && Deeper(keys, 2 * |keys|) == 0 && Open(keys, 2 * |keys|)
  {
  }

  lemma NextStart(size: seq<nat>, i: nat)
    requires i < |size|
    ensures Start(size, i + 1) == Start(size, i) + size[i]
  {
  }

  /** The byte of the splitter tells the depth below both of its buckets. */
  lemma LcpEntry(lcp: seq<nat>, keys: seq<Key>, i: nat)
    requires IsLcpTable(lcp, keys) && i % 2 == 0 && i < 2 * |keys|
    ensures lcp[i / 2] % DONE == Deeper(keys, i)
    ensures lcp[i / 2] >= DONE <==> keys[(i + 1) / 2] % 256 == 0
    ensures Deeper(keys, i + 1) == KEY_BYTES && Deeper(keys, 2 * |keys|) == 0 && (i + 1) / 2 == i / 2
  {
  }

  /** One bucket: strings of a deeper common prefix, sorted if there are more than min of them. */
  method SortBucket(a: array<Str>, lo: nat, n: nat, bsum: nat, m: nat, min: nat, d: nat, ghost depth: nat, cfg: Config,
                    ghost cur: nat, ghost size: seq<nat>, ghost keys: seq<Key>, ghost before: seq<Str>, ghost maxLen: nat)
    requires cfg.Valid() && |before| == a.Length && min <= 1
    requires Level(before, a[..], lo, n, size, keys, depth, maxLen, cur)
    requires cur < |size| && bsum == Start(size, cur) && m == size[cur] && d == depth + Deeper(keys, cur)
    requires Open(keys, cur)
    modifies a
    ensures Level(before, a[..], lo, n, size, keys, depth, maxLen, cur + 1)
    decreases Left(maxLen, depth), n, 0
  {
    hide Level, SortedResult, Start, CommonPrefix, Bounded, Deeper;
    ghost var now := a[..];
    if m > min {
      BucketReady(before, now, lo, n, size, keys, depth, maxLen, cur, lo + bsum, m, d);
      SampleSort(a, lo + bsum, m, d, cfg, maxLen);
      LevelSorted(before, now, a[..], lo, n, size, keys, depth, maxLen, cur);
    } else {
      LevelSkipped(before, now, lo, n, size, keys, depth, maxLen, cur);
    }
  }

  lemma LevelSorted(before: seq<Str>, now: seq<Str>, next: seq<Str>, lo: nat, n: nat, size: seq<nat>, keys: seq<Key>,
                    depth: nat, maxLen: nat, cur: nat)
    requires Level(before, now, lo, n, size, keys, depth, maxLen, cur) && cur < |size|
    requires SortedResult(now, next, lo + Start(size, cur), size[cur])
    ensures Level(before, next, lo, n, size, keys, depth, maxLen, cur + 1)
  {
    assert |now| == |next|;
    hide Recursing, SortedResult, CommonPrefix, Bounded, Sampled, SortedKeys;
    Recursed(before, now, next, lo, n, size, KeyBucket(keys, depth), cur);
  }

  lemma LevelSkipped(before: seq<Str>, now: seq<Str>, lo: nat, n: nat, size: seq<nat>, keys: seq<Key>,
                     depth: nat, maxLen: nat, cur: nat)
    requires Level(before, now, lo, n, size, keys, depth, maxLen, cur) && cur < |size| && size[cur] <= 1
    ensures Level(before, now, lo, n, size, keys, depth, maxLen, cur + 1)
  {
    hide Recursing, CommonPrefix, Bounded, Sampled, SortedKeys;
    Skipped(before, now, lo, n, size, KeyBucket(keys, depth), cur);
  }
}
