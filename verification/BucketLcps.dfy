/** sample_sort_lcp: once all buckets of a step are sorted, the LCPs across the bucket boundaries. */
module BucketLcps {
  import opened Strings
  import opened Keys
  import opened SplitterTree
  import opened Classify
  import opened Permute
  import opened Buckets
  import opened LcpOutput

  /** The starts of buckets b and later, and the end of the range. */
  ghost function StartsFrom(lo: nat, size: seq<nat>, b: nat): set<nat>
    requires b <= |size|
    decreases |size| - b
  {
    if b == |size| then {lo + Start(size, b)} else {lo + Start(size, b)} + StartsFrom(lo, size, b + 1)
  }

  lemma {:induction false} StartIn(lo: nat, size: seq<nat>, b: nat, c: nat)
    requires b <= c <= |size|
    ensures lo + Start(size, c) in StartsFrom(lo, size, b)
    decreases c - b
  {
    if b < c { StartIn(lo, size, b + 1, c); }
  }

  /** The sorted buckets q[lo..lo + n] of one step. */
  ghost predicate InPlace(q: seq<Str>, lo: nat, n: nat, size: seq<nat>, keys: seq<Key>, depth: nat) {
    && lo + n <= |q| && |size| == 2 * |keys| + 1 && SortedKeys(keys) && CommonPrefix(q[lo..lo + n], depth)
    && InBuckets(q[lo..lo + n], size, KeyBucket(keys, depth))
  }

  /** Bucket number of the string at position p of bucket c. */
  lemma BucketAt(q: seq<Str>, lo: nat, n: nat, size: seq<nat>, keys: seq<Key>, depth: nat, c: nat, p: nat)
    requires InPlace(q, lo, n, size, keys, depth) && c < |size| && Start(size, c) <= p < Start(size, c + 1)
    ensures p < n && lo + p < |q| && Bucket(keys, KeyAt(q[lo + p], depth)) == c
    ensures c % 2 == 1 ==> keys[c / 2] == KeyAt(q[lo + p], depth)
  {
    hide Bucket, KeyAt;
    StartMono(size, c + 1, |size|);
    var r := q[lo..lo + n];
    assert r[p] == q[lo + p];
    assert KeyBucket(keys, depth)(r[p]) == c;
    BucketMeaning(keys, KeyAt(r[p], depth));
  }

  /** The last string before a bucket has a smaller key than the first string in it. */
  lemma KeysAscend(q: seq<Str>, lo: nat, n: nat, size: seq<nat>, keys: seq<Key>, depth: nat, c: nat)
    requires InPlace(q, lo, n, size, keys, depth) && c < |size| && 0 < Start(size, c) < Start(size, c + 1)
    ensures lo + Start(size, c) < |q|
    ensures KeyAt(q[lo + Start(size, c) - 1], depth) < KeyAt(q[lo + Start(size, c)], depth)
  {
    var p := Start(size, c);
    var d := FindBucket(size, c, p - 1);
    hide Bucket, KeyAt, InPlace;
    BucketAt(q, lo, n, size, keys, depth, c, p);
    BucketAt(q, lo, n, size, keys, depth, d, p - 1);
    SortedOf(q, lo, n, size, keys, depth);
    BucketOrder(keys, KeyAt(q[lo + p - 1], depth), KeyAt(q[lo + p], depth));
  }

  lemma SortedOf(q: seq<Str>, lo: nat, n: nat, size: seq<nat>, keys: seq<Key>, depth: nat)
    requires InPlace(q, lo, n, size, keys, depth)
    ensures SortedKeys(keys) && lo + n <= |q| && |size| == 2 * |keys| + 1 && CommonPrefix(q[lo..lo + n], depth)
    ensures Start(size, |size|) == n
  {
  }

  lemma OpenLess(o: Output, lo: nat, n: nat, open: set<nat>, open': set<nat>)
    requires Delivered(o, lo, n, open) && forall k :: k in open ==> k in open' || k <= lo || k >= lo + n
    ensures Delivered(o, lo, n, open')
  {
    hide ExactAt;
  }

  /** An empty bucket has no boundary of its own. */
  lemma EmptyBucket(lo: nat, size: seq<nat>, b: nat)
    requires b < |size| && Start(size, b) == Start(size, b + 1)
    ensures StartsFrom(lo, size, b) == StartsFrom(lo, size, b + 1)
  {
    StartIn(lo, size, b + 1, b + 1);
  }

  ghost predicate Boundaries(bkt: seq<nat>, size: seq<nat>) {
    |bkt| == |size| + 1 && forall c :: 0 <= c <= |size| ==> bkt[c] == Start(size, c)
  }

  /** The key at the end of bucket b: the splitter itself for an equal bucket. */
  method EndKey(out: array<Str>, lo: nat, n: nat, depth: nat, bkt: seq<nat>, splitters: seq<Key>, b: nat, ghost size: seq<nat>)
    returns (key: Key)
    requires InPlace(out[..], lo, n, size, splitters, depth) && Boundaries(bkt, size)
    requires b < |size| && bkt[b] != bkt[b + 1]
    ensures 0 < bkt[b + 1] && lo + bkt[b + 1] <= out.Length && key == KeyAt(out[lo + bkt[b + 1] - 1], depth)
  {
    hide KeyAt;
    StartMono(size, b, b + 1);
    BucketAt(out[..], lo, n, size, splitters, depth, b, bkt[b + 1] - 1);
    if b % 2 == 1 { key := splitters[b / 2]; } else { key := KeyAt(out[lo + bkt[b + 1] - 1], depth); }
  }

  /** The key at the start of bucket b. */
  method StartKey(out: array<Str>, lo: nat, n: nat, depth: nat, bkt: seq<nat>, splitters: seq<Key>, b: nat, ghost size: seq<nat>)
    returns (key: Key)
    requires InPlace(out[..], lo, n, size, splitters, depth) && Boundaries(bkt, size)
    requires b < |size| && bkt[b] != bkt[b + 1]
    ensures lo + bkt[b] < out.Length && bkt[b] < n && key == KeyAt(out[lo + bkt[b]], depth)
  {
    hide KeyAt;
    StartMono(size, b, b + 1);
    BucketAt(out[..], lo, n, size, splitters, depth, b, bkt[b]);
    if b % 2 == 1 { key := splitters[b / 2]; } else { key := KeyAt(out[lo + bkt[b]], depth); }
  }

  /** Everything up to bucket b is exact; prevkey is the key in front of it. */
  ghost predicate UpTo(o: Output, lo: nat, n: nat, depth: nat, size: seq<nat>, b: nat, prevkey: Key) {
    && b <= |size| && Delivered(o, lo, n, StartsFrom(lo, size, b))
    && 0 < Start(size, b) && KeyIs(o.str, lo + Start(size, b) - 1, depth, prevkey)
  }

  /** Find the first bucket that is not empty. */
  method FirstNonEmpty(out: array<Str>, lcp: array<nat>, chr: array<Byte>, lo: nat, n: nat, depth: nat,
                       bkt: seq<nat>, splitters: seq<Key>, ghost size: seq<nat>)
    returns (b: nat, prevkey: Key)
    requires InPlace(out[..], lo, n, size, splitters, depth) && Boundaries(bkt, size) && n > 0
    requires Delivered(OutputOf(out, lcp, chr), lo, n, StartsFrom(lo, size, 0))
    ensures UpTo(OutputOf(out, lcp, chr), lo, n, depth, size, b, prevkey)
  {
    SortedOf(out[..], lo, n, size, splitters, depth);
    hide InPlace, Delivered, KeyAt;
    b := 0;
    assert Start(size, 0) == 0 && bkt[|size|] == n;
    while bkt[b] == bkt[b + 1]
      invariant b < |size| && bkt[b] == 0 && Delivered(OutputOf(out, lcp, chr), lo, n, StartsFrom(lo, size, b))
      decreases |size| - b
    {
      EmptyBucket(lo, size, b);
      b := b + 1;
    }
    prevkey := EndKey(out, lo, n, depth, bkt, splitters, b, size);
    assert StartsFrom(lo, size, b) == {lo} + StartsFrom(lo, size, b + 1);
    OpenLess(OutputOf(out, lcp, chr), lo, n, StartsFrom(lo, size, b), StartsFrom(lo, size, b + 1));
    b := b + 1;
  }

  /** The boundary in front of bucket b. */
  method SetBucket(out: array<Str>, lcp: array<nat>, chr: array<Byte>, lo: nat, n: nat, depth: nat,
                   bkt: seq<nat>, splitters: seq<Key>, b: nat, prevkey: Key, ghost size: seq<nat>)
    returns (prevkey': Key)
    requires InPlace(out[..], lo, n, size, splitters, depth) && Boundaries(bkt, size)
    requires b < |size| && bkt[b] != bkt[b + 1]
    requires UpTo(OutputOf(out, lcp, chr), lo, n, depth, size, b, prevkey)
    modifies lcp, chr
    ensures out[..] == old(out[..]) && WroteOnly(old(OutputOf(out, lcp, chr)), OutputOf(out, lcp, chr), lo, n)
    ensures UpTo(OutputOf(out, lcp, chr), lo, n, depth, size, b + 1, prevkey')
  {
    hide InPlace, Delivered, KeyAt, LcpKeyType, GetCharAtDepth, WroteOnly, Bucket;
    ghost var q := out[..];
    SortedOf(q, lo, n, size, splitters, depth);
    StartMono(size, b, b + 1);
    assert Start(size, b + 1) > Start(size, b);
    KeysAscend(q, lo, n, size, splitters, depth, b);
    var thiskey := StartKey(out, lo, n, depth, bkt, splitters, b, size);
    LcpOfDifferentKeys(prevkey, thiskey);
    var rlcp := LcpKeyType(prevkey, thiskey);
    ghost var open := StartsFrom(lo, size, b);
    SetKeyBoundary(out, lcp, chr, lo + bkt[b], depth, rlcp, GetCharAtDepth(thiskey, rlcp), prevkey, thiskey, lo, n, open);
    prevkey' := EndKey(out, lo, n, depth, bkt, splitters, b, size);
    OpenLess(OutputOf(out, lcp, chr), lo, n, open - {lo + bkt[b]}, StartsFrom(lo, size, b + 1));
  }

  method SampleSortLcp(out: array<Str>, lcp: array<nat>, chr: array<Byte>, lo: nat, n: nat, depth: nat,
                       bkt: seq<nat>, splitters: seq<Key>, ghost size: seq<nat>)
    requires InPlace(out[..], lo, n, size, splitters, depth) && Boundaries(bkt, size) && n > 0
    requires Delivered(OutputOf(out, lcp, chr), lo, n, StartsFrom(lo, size, 0))
    modifies lcp, chr
    ensures out[..] == old(out[..]) && WroteOnly(old(OutputOf(out, lcp, chr)), OutputOf(out, lcp, chr), lo, n)
    ensures Delivered(OutputOf(out, lcp, chr), lo, n, {})
  {
    hide InPlace, Delivered, WroteOnly, KeyIs;
    ghost var o0 := OutputOf(out, lcp, chr);
    SortedOf(out[..], lo, n, size, splitters, depth);
    WroteNothing(o0, lo, n);
    var b, prevkey := FirstNonEmpty(out, lcp, chr, lo, n, depth, bkt, splitters, size);
    while b < 2 * |splitters| + 1
      invariant b <= |size| && out[..] == o0.str && WroteOnly(o0, OutputOf(out, lcp, chr), lo, n)
      invariant UpTo(OutputOf(out, lcp, chr), lo, n, depth, size, b, prevkey)
      decreases |size| - b
    {
      if bkt[b] != bkt[b + 1] {
        ghost var o := OutputOf(out, lcp, chr);
        prevkey := SetBucket(out, lcp, chr, lo, n, depth, bkt, splitters, b, prevkey, size);
        WroteOnlyTrans(o0, o, OutputOf(out, lcp, chr), lo, n);
      } else {
        EmptyBucket(lo, size, b);
      }
      b := b + 1;
    }
    SortedOf(out[..], lo, n, size, splitters, depth);
    OpenLess(OutputOf(out, lcp, chr), lo, n, StartsFrom(lo, size, b), {});
  }
}
