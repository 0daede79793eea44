/** Three members of the repository that do not do what their callers would need, and exactly when
    they still do: the preorder builder without done marks, the splitter lookup that is off by one,
    and the order check that compares a character with itself. */
module Departures {
  import opened Bits
  import opened Strings
  import opened Keys
  import opened SplitterTree
  import opened TreeBuilder
  import opened Classifier
  import opened Classify
  import opened Permute
  import opened Tasks
  import SampleSort

  // ---- TreeBuilderPreorder ------------------------------------------------------------------

  /** The i-th splitter: equidistant in the sample. */
  function Equidistant(samples: seq<Key>, numsplitters: nat, i: nat): (p: nat)
    requires 0 < numsplitters <= |samples| && i < numsplitters
    ensures p < |samples|
  {
    var factor := |samples| / numsplitters;
    EquidistantBound(|samples|, numsplitters, factor, i);
    factor / 2 + i * factor
  }

  lemma EquidistantBound(n: nat, numsplitters: nat, factor: nat, i: nat)
    requires 0 < numsplitters <= n && i < numsplitters && factor == n / numsplitters
    ensures factor > 0 && factor / 2 + i * factor < n
  {
    StepsFit(n, numsplitters);
    MulOrder(i + 1, numsplitters, factor);
    NextSplitter(factor, i);
  }

  lemma StepsFit(n: nat, d: nat)
    requires 0 < d <= n
    ensures n / d > 0 && d * (n / d) <= n
  {
  }

  lemma MulOrder(a: nat, b: nat, c: nat)
    requires a <= b
    ensures a * c <= b * c
  {
  }

  lemma Quotient(n: nat, d: nat)
    requires d > 0
    ensures (n / d) * d <= n < (n / d + 1) * d
  {
  }

  lemma HalfStep(n: nat, d: nat, factor: nat)
    requires factor * d <= n
    ensures 2 * d * (factor / 2) <= n
  {
    MulOrder(2 * (factor / 2), factor, d);
    assert 2 * d * (factor / 2) == 2 * (factor / 2) * d;
  }

  lemma LastStep(n: nat, d: nat, factor: nat)
    requires 0 < d && factor * d <= n < (factor + 1) * d
    ensures 2 * d * (n - 1 - (factor / 2 + (d - 1) * factor) - d) <= n
  {
    var x := n - 1 - (factor / 2 + (d - 1) * factor) - d;
    assert (factor + 1) * d == factor * d + d && (d - 1) * factor == factor * d - factor;
    assert x <= factor / 2;
    HalfStep(n, d, factor);
    if x < factor / 2 { Scaled(2 * d, x, factor / 2); }
  }

  lemma Scaled(c: nat, a: int, b: int)
    requires a <= b
    ensures c * a <= c * b
  {
  }

  lemma EquidistantOrder(samples: seq<Key>, numsplitters: nat, i: nat, j: nat)
    requires 0 < numsplitters <= |samples| && i <= j < numsplitters
    ensures Equidistant(samples, numsplitters, i) <= Equidistant(samples, numsplitters, j)
  {
    MulOrder(i, j, |samples| / numsplitters);
  }

  /** The places are evenly spread: neighbours are as far apart as so many equal steps allow, the first one
      stands in the middle of its step, and behind the last one lie half a step and what the division left over. */
  lemma EquidistantSpread(samples: seq<Key>, numsplitters: nat, i: nat)
    requires 0 < numsplitters <= |samples| && i < numsplitters
    ensures 2 * numsplitters * Equidistant(samples, numsplitters, 0) <= |samples|
    ensures i + 1 < numsplitters ==>
              var d := Equidistant(samples, numsplitters, i + 1) - Equidistant(samples, numsplitters, i);
              d * numsplitters <= |samples| < (d + 1) * numsplitters
    ensures i + 1 == numsplitters ==>
              2 * numsplitters * (|samples| - 1 - Equidistant(samples, numsplitters, i) - numsplitters) <= |samples|
  {
    var n, factor := |samples|, |samples| / numsplitters;
    Quotient(n, numsplitters);
    NextSplitter(factor, i);
    assert Equidistant(samples, numsplitters, i) == factor / 2 + i * factor;
    HalfStep(n, numsplitters, factor);
    if i + 1 == numsplitters { LastStep(n, numsplitters, factor); }
  }

  ghost predicate PreorderTable(lcp: seq<nat>, keys: seq<Key>, m: nat) {
    && m <= |keys| < |lcp| && lcp[0] == 0
    && forall i :: 1 <= i < m ==> lcp[i] == LcpKeyType(keys[i - 1], keys[i])
  }

  lemma LcpKeyTypeSmall(a: Key, b: Key)
    ensures LcpKeyType(a, b) <= KEY_BYTES < DONE
  {
  }

  /** The table has the predecessor LCPs, but the marks only if there is nothing to mark. */
  lemma MarksMissing(lcp: seq<nat>, keys: seq<Key>)
    requires keys != [] && |lcp| == |keys| + 1 && PreorderTable(lcp, keys, |keys|) && lcp[|keys|] == 0
    ensures IsLcpTable(lcp, keys) <==> forall i :: 0 <= i < |keys| ==> keys[i] % 256 != 0
  {
    forall i | 0 <= i < |keys| ensures lcp[i] < DONE {
      if i > 0 {
        LcpKeyTypeSmall(keys[i - 1], keys[i]);
      }
    }
  }

  /** TreeBuilderPreorder: equidistant samples as splitters; its bytes are the table that the other
      builders make exactly when none of these samples contains the terminator. */
  method BuildPreorder(samples: seq<Key>, numsplitters: nat) returns (splitter: array<Key>, splitterLcp: array<nat>)
    requires 0 < numsplitters <= |samples| && SortedKeys(samples)
    ensures splitter.Length == numsplitters && splitterLcp.Length == numsplitters + 1
    ensures SortedKeys(splitter[..])
    ensures forall i :: 0 <= i < numsplitters ==> splitter[i] in samples
    ensures forall i :: 0 <= i < numsplitters ==> splitter[i] == samples[Equidistant(samples, numsplitters, i)]
    ensures PreorderTable(splitterLcp[..], splitter[..], numsplitters) && splitterLcp[numsplitters] == 0
    ensures IsLcpTable(splitterLcp[..], splitter[..]) <==>
            forall i :: 0 <= i < numsplitters ==> samples[Equidistant(samples, numsplitters, i)] % 256 != 0
  {
    hide LcpKeyType, SortedKeys;
    var factor := |samples| / numsplitters;
    splitter := new Key[numsplitters];
    splitterLcp := new nat[numsplitters + 1];
    splitterLcp[0] := 0;
    var j := factor / 2;
    for i := 0 to numsplitters
      invariant j == factor / 2 + i * factor
      invariant splitterLcp[0] == 0
      invariant forall k :: 0 <= k < i ==> splitter[k] == samples[Equidistant(samples, numsplitters, k)]
      invariant forall k :: 1 <= k < i ==> splitterLcp[k] == LcpKeyType(splitter[k - 1], splitter[k])
    {
      EquidistantBound(|samples|, numsplitters, factor, i);
      splitter[i] := samples[j];
      if i != 0 {
        splitterLcp[i] := HighZeroBits(Xor(splitter[i - 1], splitter[i]), 64) / 8;
        LcpKeyTypeIs(splitter[i - 1], splitter[i]);
      }
      NextSplitter(factor, i);
      j := j + factor;
    }
    splitterLcp[numsplitters] := 0;
    PickedSorted(samples, numsplitters, splitter[..]);
    MarksMissing(splitterLcp[..], splitter[..]);
  }

  lemma LcpKeyTypeIs(a: Key, b: Key)
    ensures LcpKeyType(a, b) == HighZeroBits(Xor(a, b), 64) / 8
  {
  }

  lemma NextSplitter(factor: nat, i: nat)
    ensures (i + 1) * factor == i * factor + factor
  {
  }

  lemma PickedSorted(samples: seq<Key>, numsplitters: nat, keys: seq<Key>)
    requires 0 < numsplitters <= |samples| && SortedKeys(samples) && |keys| == numsplitters
    requires forall k :: 0 <= k < numsplitters ==> keys[k] == samples[Equidistant(samples, numsplitters, k)]
    ensures SortedKeys(keys)
  {
    hide Equidistant;
    forall i, j | 0 <= i < j < |keys| ensures keys[i] <= keys[j] {
      EquidistantOrder(samples, numsplitters, i, j);
    }
  }

  /** The depth that sample sort passes on for an equal bucket without mark lies inside the strings
      exactly when the splitter does not contain the terminator. */
  lemma UnmarkedDepth(s: Str, t: Str, depth: nat)
    requires SamePrefix(s, t, depth) && KeyAt(s, depth) == KeyAt(t, depth)
    ensures SamePrefix(s, t, depth + KEY_BYTES) <==> KeyAt(s, depth) % 256 != 0
  {
    KeyDepthIsChars(s, depth);
    if KeyAt(s, depth) % 256 != 0 { KeysEqualLong(s, t, depth); }
  }

  /** sample_sort_generic descends into bucket c: less and greater buckets of two or more strings, the
      last one of any, equal buckets of two or more strings unless they are marked. */
  ghost predicate Descends(size: seq<nat>, lcp: seq<nat>, c: nat) {
    && c < |size| && c / 2 < |lcp|
    && (if c + 1 == |size| then size[c] > 0 else size[c] > 1) && (c % 2 == 1 ==> lcp[c / 2] < DONE)
  }

  function DepthPassed(lcp: seq<nat>, c: nat): nat
    requires c / 2 < |lcp|
  {
    if c % 2 == 1 then KEY_BYTES else lcp[c / 2] % DONE
  }

  /** The strings of the bucket agree on the depth passed on, which is what every sorter is promised. */
  ghost predicate CallOk(q: seq<Str>, size: seq<nat>, lcp: seq<nat>, depth: nat, c: nat)
    requires c < |size| && c / 2 < |lcp|
  {
    Start(size, c) + size[c] <= |q| && CommonPrefix(q[Start(size, c)..Start(size, c) + size[c]], depth + DepthPassed(lcp, c))
  }

  ghost predicate CallsOk(q: seq<Str>, size: seq<nat>, lcp: seq<nat>, depth: nat) {
    forall c :: 0 <= c < |size| && Descends(size, lcp, c) ==> CallOk(q, size, lcp, depth, c)
  }

  /** The strings in their buckets, as the sorter finds them before it descends, with the preorder table. */
  ghost predicate BeforeCalls(q: seq<Str>, size: seq<nat>, keys: seq<Key>, lcp: seq<nat>, depth: nat) {
    && CommonPrefix(q, depth) && SortedKeys(keys) && keys != [] && SampleSort.Sampled(keys, q, depth)
    && |size| == 2 * |keys| + 1 && InBuckets(q, size, KeyBucket(keys, depth))
    && |lcp| == |keys| + 1 && PreorderTable(lcp, keys, |keys|) && lcp[|keys|] == 0
  }

  lemma BucketStrings(q: seq<Str>, size: seq<nat>, keys: seq<Key>, lcp: seq<nat>, depth: nat, c: nat)
    requires BeforeCalls(q, size, keys, lcp, depth) && c < |size|
    ensures Start(size, c) + size[c] <= |q|
    ensures forall i :: Start(size, c) <= i < Start(size, c) + size[c] ==> KeyBucket(keys, depth)(q[i]) == c
  {
    StartMono(size, c + 1, |size|);
    hide KeyBucket, CommonPrefix, SortedKeys, SampleSort.Sampled, PreorderTable;
    assert Start(size, c + 1) == Start(size, c) + size[c];
  }

  lemma PassedIsDeeper(keys: seq<Key>, lcp: seq<nat>, c: nat)
    requires keys != [] && |lcp| == |keys| + 1 && PreorderTable(lcp, keys, |keys|) && lcp[|keys|] == 0 && c < 2 * |keys| + 1
    ensures lcp[c / 2] < DONE && DepthPassed(lcp, c) == SampleSort.Deeper(keys, c)
  {
    if 0 < c / 2 < |keys| { LcpKeyTypeSmall(keys[c / 2 - 1], keys[c / 2]); }
  }

  /** A bucket whose strings have not ended. */
  lemma OpenCall(q: seq<Str>, size: seq<nat>, keys: seq<Key>, lcp: seq<nat>, depth: nat, c: nat)
    requires BeforeCalls(q, size, keys, lcp, depth) && c < |size| && SampleSort.Open(keys, c)
    ensures c / 2 < |lcp| && CallOk(q, size, lcp, depth, c)
  {
    BucketStrings(q, size, keys, lcp, depth, c);
    PassedIsDeeper(keys, lcp, c);
    hide KeyBucket, CommonPrefix, SortedKeys, SampleSort.Sampled, SampleSort.Deeper, SampleSort.Open, InBuckets, PreorderTable, DepthPassed;
    OpenBucket(q, keys, depth, c, Start(size, c), size[c]);
  }

  /** The equal bucket of a splitter with the terminator. */
  lemma EndedCall(q: seq<Str>, size: seq<nat>, keys: seq<Key>, lcp: seq<nat>, depth: nat, i: nat)
    requires BeforeCalls(q, size, keys, lcp, depth) && i < |keys| && keys[i] % 256 == 0 && size[2 * i + 1] > 0
    ensures !CallOk(q, size, lcp, depth, 2 * i + 1)
  {
    var c := 2 * i + 1;
    var x := Start(size, c);
    BucketStrings(q, size, keys, lcp, depth, c);
    var s := q[x];
    assert KeyBucket(keys, depth)(s) == c && SamePrefix(s, s, depth);
    BucketMeaning(keys, KeyAt(s, depth));
    UnmarkedDepth(s, s, depth);
    hide KeyBucket, KeyAt, SortedKeys, SampleSort.Sampled, InBuckets, PreorderTable;
    var r := q[x..x + size[c]];
    assert r[0] == s;
  }

  /** With the preorder table, every call that sample_sort_generic makes keeps its precondition if and only
      if no splitter with the terminator has two or more strings in its equal bucket. */
  lemma PreorderCalls(q: seq<Str>, size: seq<nat>, keys: seq<Key>, lcp: seq<nat>, depth: nat)
    requires BeforeCalls(q, size, keys, lcp, depth)
    ensures CallsOk(q, size, lcp, depth) <==> forall i :: 0 <= i < |keys| && keys[i] % 256 == 0 ==> size[2 * i + 1] <= 1
  {
    hide CallOk, KeyBucket, SortedKeys, SampleSort.Sampled, InBuckets, CommonPrefix;
    if CallsOk(q, size, lcp, depth) {
      forall i | 0 <= i < |keys| && keys[i] % 256 == 0 ensures size[2 * i + 1] <= 1 {
        PassedIsDeeper(keys, lcp, 2 * i + 1);
        assert size[2 * i + 1] > 1 ==> Descends(size, lcp, 2 * i + 1);
        if size[2 * i + 1] > 1 { EndedCall(q, size, keys, lcp, depth, i); }
      }
    }
    if forall i :: 0 <= i < |keys| && keys[i] % 256 == 0 ==> size[2 * i + 1] <= 1 {
      forall c | 0 <= c < |size| && Descends(size, lcp, c) ensures CallOk(q, size, lcp, depth, c) {
        assert c % 2 == 1 ==> c == 2 * (c / 2) + 1;
        OpenCall(q, size, keys, lcp, depth, c);
      }
    }
  }

  function Copies<A>(x: A, n: nat): (r: seq<A>)
    ensures |r| == n && forall i :: 0 <= i < n ==> r[i] == x
  {
    seq(n, _ => x)
  }

  /** All strings stand in bucket 1. */
  function SecondBucket(n: nat, m: nat): (size: seq<nat>)
    requires m > 0
    ensures |size| == 2 * m + 1 && forall c :: 0 <= c < 2 * m + 1 ==> size[c] == if c == 1 then n else 0
  {
    Copies<nat>(0, 2 * m + 1)[1 := n]
  }

  lemma {:induction false} SecondStart(n: nat, m: nat, c: nat)
    requires m > 0 && c <= 2 * m + 1
    ensures Start(SecondBucket(n, m), c) == if c <= 1 then 0 else n
  {
    if c > 0 { SecondStart(n, m, c - 1); }
  }

  /** The table of the preorder builder for one key over and over. */
  function CopiesTable(key: Key, m: nat): (lcp: seq<nat>)
    requires m > 0
    ensures |lcp| == m + 1
  {
    Copies<nat>(LcpKeyType(key, key), m + 1)[0 := 0][m := 0]
  }

  lemma CopiesInBucket(s: Str, n: nat, m: nat, depth: nat)
    requires m > 0 && depth <= |s|
    ensures InBuckets(Copies(s, n), SecondBucket(n, m), KeyBucket(Copies(KeyAt(s, depth), m), depth))
  {
    hide KeyAt, Start, SecondBucket;
    var q, size, key := Copies(s, n), SecondBucket(n, m), KeyAt(s, depth);
    var keys := Copies(key, m);
    BelowIs(keys, key, 0);
    assert keys[0] == key;
    SecondStart(n, m, 2 * m + 1);
    forall c, p | 0 <= c < |size| && Start(size, c) <= p < Start(size, c + 1) && p < |q| ensures KeyBucket(keys, depth)(q[p]) == c {
      SecondStart(n, m, c);
      SecondStart(n, m, c + 1);
    }
  }

  /** All splitters are the same key, so all strings are in the equal bucket of the first. */
  lemma CopiesPlaced(s: Str, n: nat, m: nat, depth: nat)
    requires n > 0 && m > 0 && depth <= |s|
    ensures BeforeCalls(Copies(s, n), SecondBucket(n, m), Copies(KeyAt(s, depth), m), CopiesTable(KeyAt(s, depth), m), depth)
  {
    hide KeyAt, LcpKeyType, InBuckets, KeyBucket, SecondBucket;
    CopiesInBucket(s, n, m, depth);
    assert Copies(s, n)[0] == s;
  }

  /** Two or more copies of one string, a tree of any size, at any depth from which the rest of the string
      fits into a key: the sorter descends into their bucket behind their end. */
  lemma FailingArray(s: Str, n: nat, m: nat, depth: nat)
    requires n >= 2 && m > 0 && depth <= |s| < depth + KEY_BYTES
    ensures var q, size, keys, lcp := Copies(s, n), SecondBucket(n, m), Copies(KeyAt(s, depth), m), CopiesTable(KeyAt(s, depth), m);
            && BeforeCalls(q, size, keys, lcp, depth) && Descends(size, lcp, 1) && !CallOk(q, size, lcp, depth, 1)
            && !CallsOk(q, size, lcp, depth)
  {
    var q, size, keys, lcp := Copies(s, n), SecondBucket(n, m), Copies(KeyAt(s, depth), m), CopiesTable(KeyAt(s, depth), m);
    hide KeyAt, CallOk, BeforeCalls, LcpKeyType;
    KeyDepthIsChars(s, depth);
    CopiesPlaced(s, n, m, depth);
    EndedCall(q, size, keys, lcp, depth, 0);
  }

  // ---- get_splitter without the correction by one ------------------------------------------------

  /** The lookup keeps the assertion of the function it calls and finds the splitter asked for. */
  ghost predicate LookupOk(tree: seq<Key>, bits: nat, keys: seq<Key>, i: nat, w: nat)
    requires bits <= w && i < |keys|
  {
    0 < i < Pow2(bits) && PreToLevelorder(i, bits, w) < |tree| && tree[PreToLevelorder(i, bits, w)] == keys[i]
  }

  /** It finds the splitter before, so it is right exactly where a splitter repeats; for the first splitter
      it calls the index function with zero, which that function excludes. */
  lemma SplitterBefore(tree: seq<Key>, bits: nat, keys: seq<Key>, i: nat, w: nat)
    requires bits <= w && Embeds(tree, 1, bits, keys, 0) && i < |keys| == Pow2(bits) - 1
    ensures LookupOk(tree, bits, keys, i, w) <==> 0 < i && keys[i - 1] == keys[i]
  {
    hide Embeds, PreToLevelorder;
    if i > 0 { SplitterByIndex(tree, bits, keys, i - 1, w); }
  }

  /** Three different splitters: asked for the second one, the lookup returns the first. */
  lemma WrongSplitter()
    ensures Embeds([0, 512, 256, 768], 1, 2, [256, 512, 768], 0)
    ensures PreToLevelorder(1, 2, 32) == 2 && [0, 512, 256, 768][2] != [256, 512, 768][1]
  {
    var tree: seq<Key>, keys: seq<Key> := [0, 512, 256, 768], [256, 512, 768];
    assert Pow2(0) == 1 && Pow2(1) == 2 && Pow2(2) == 4;
    assert Embeds(tree, 2, 1, keys, 0) && Embeds(tree, 3, 1, keys, 2);
    SmallLookup();
  }

  lemma SmallLookup()
    ensures PreToLevelorder(1, 2, 32) == 2
  {
    PreToLevelorderSum(1, 2, 32);
    assert LowZeroBits(1, 32) == 0;
    assert Shr(1, 1) == 0;
    assert Pow2(1) == 2;
  }

  // ---- check_order ---------------------------------------------------------------------------------

  /** is_leq, given the characters at the two iterators. */
  predicate IsLeq(c: Byte, d: Byte) {
    c == 0 || (c != 0 && d != 0 && c <= d)
  }

  /** check_order for two strings: both arguments of the comparison are the second string's iterator. */
  predicate CheckPair(s: Str, t: Str) {
    var l := Lcp(s, t);
    IsLeq(At(t, l), At(t, l))
  }

  /** With each string's own iterator the comparison would have been the order of the strings. */
  lemma OwnIterators(s: Str, t: Str)
    ensures IsLeq(At(s, Lcp(s, t)), At(t, Lcp(s, t))) <==> Leq(s, t)
  {
  }

  /** As it stands the check accepts every pair, in order or not. */
  lemma AcceptsEverything(s: Str, t: Str)
    ensures CheckPair(s, t)
    ensures CheckPair([2], [1]) && !Leq([2], [1])
  {
    LeqAt([2], [1], 0);
  }

  method CheckOrder(strings: seq<Str>) returns (ok: bool)
    requires strings != []
    ensures ok
  {
    for pi := 1 to |strings| {
      AcceptsEverything(strings[pi - 1], strings[pi]);
      if !CheckPair(strings[pi - 1], strings[pi]) { return false; }
    }
    return true;
  }
}
