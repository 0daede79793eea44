/** The builder of the recursive variant: where a run of equal samples is long enough, it hangs a further
    tree below their splitter, built from the next eight characters of the same samples. */
module SubtreeBuilder {
  import opened Bits
  import opened Strings
  import opened Keys
  import opened SplitterTree
  import opened TreeBuilder
  import opened Classifier

  const MAX_TREES := 255

  /** A sampled key with the number of its string. */
  datatype Sample = Sample(key: Key, idx: nat)

  /** A tree as its builder leaves it, with the depth of its keys: nodes in level order, LCP bytes, attached trees. */
  datatype TreeData = TreeData(depth: nat, nodes: seq<Key>, lcp: seq<nat>, sub: seq<nat>)

  /** What it stands for: its splitters in order, the depth of its keys, a string with the prefix that all
      its strings have, and the splitter it is attached to. */
  datatype Origin = Origin(keys: seq<Key>, depth: nat, rep: Str, parent: nat, at: nat)

  function KeysOf(s: seq<Sample>): (k: seq<Key>)
    ensures |k| == |s| && forall i :: 0 <= i < |s| ==> k[i] == s[i].key
  {
    seq(|s|, i requires 0 <= i < |s| => s[i].key)
  }

  // ---- selecting splitters from part of the samples -------------------------------------------------

  /** The same samples from lo on and from lo' on, hi - lo of them, but at least one. */
  ghost predicate SameRange(s: seq<Key>, lo: nat, hi: nat, s': seq<Key>, lo': nat) {
    && lo <= hi <= |s| && lo < |s| && lo' + (hi - lo) <= |s'| && lo' < |s'|
    && forall j :: (lo <= j < hi || j == lo) ==> s[j] == s'[lo' + (j - lo)]
  }

  lemma {:induction false} LowerMoved(s: seq<Key>, lo: nat, hi: nat, s': seq<Key>, lo': nat, m: nat, key: Key)
    requires SameRange(s, lo, hi, s', lo') && lo <= m <= hi
    ensures LowerEnd(s', lo', lo' + (m - lo), key) == lo' + (LowerEnd(s, lo, m, key) - lo)
    decreases m
  {
    if lo < m {
      assert s'[lo' + (m - 1 - lo)] == s[m - 1];
      LowerMoved(s, lo, hi, s', lo', m - 1, key);
    }
  }

  lemma {:induction false} UpperMoved(s: seq<Key>, lo: nat, hi: nat, s': seq<Key>, lo': nat, m: nat, key: Key)
    requires SameRange(s, lo, hi, s', lo') && lo <= m <= hi
    ensures UpperEnd(s', lo' + (m - lo), lo' + (hi - lo), key) == lo' + (UpperEnd(s, m, hi, key) - lo)
    decreases hi - m
  {
    if m + 1 < hi {
      assert s'[lo' + (m - lo)] == s[m];
      UpperMoved(s, lo, hi, s', lo', m + 1, key);
    }
  }

  /** Which splitters are selected depends only on the samples of the range. */
  lemma {:induction false} InOrderMoved(s: seq<Key>, lo: nat, hi: nat, s': seq<Key>, lo': nat, h: nat)
    requires SameRange(s, lo, hi, s', lo') && h >= 1
    ensures InOrder(s', lo', lo' + (hi - lo), h) == InOrder(s, lo, hi, h)
    decreases h
  {
    hide InOrder, LowerEnd, UpperEnd, Pow2;
    var hi' := lo' + (hi - lo);
    InOrderNode(s, lo, hi, h);
    InOrderNode(s', lo', hi', h);
    var mid := Mid(lo, hi);
    assert Mid(lo', hi') == lo' + (mid - lo) && s'[lo' + (mid - lo)] == s[mid];
    if h > 1 {
      LowerMoved(s, lo, hi, s', lo', mid, s[mid]);
      UpperMoved(s, lo, hi, s', lo', mid, s[mid]);
      var midlo, midhi := LowerEnd(s, lo, mid, s[mid]), UpperEnd(s, mid, hi, s[mid]);
      InOrderMoved(s, lo, midlo, s', lo', h - 1);
      assert SameRange(s, midhi, hi, s', lo' + (midhi - lo));
      InOrderMoved(s, midhi, hi, s', lo' + (midhi - lo), h - 1);
    }
  }

  // ---- what the trees are ------------------------------------------------------------------------------

  /** Every splitter is the key of a string that has the common prefix. */
  ghost predicate FromStrings(q: seq<Str>, depth: nat, rep: Str, keys: seq<Key>) {
    forall k :: k in keys ==> exists p :: 0 <= p < |q| && SamePrefix(q[p], rep, depth) && KeyAt(q[p], depth) == k
  }

  ghost predicate TreeGood(q: seq<Str>, bits: nat, d: TreeData, o: Origin) {
    && d.depth == o.depth && |d.nodes| == Pow2(bits) && |o.keys| == |d.sub| == |d.lcp| == Pow2(bits) - 1 && SortedKeys(o.keys)
    && Embeds(d.nodes, 1, bits, o.keys, 0) && IsLcpTable(d.lcp + [0], o.keys) && FromStrings(q, o.depth, o.rep, o.keys)
  }

  /** Tree u is attached to splitter i of tree t, whose key is given. */
  ghost predicate Attached(os: seq<Origin>, t: nat, key: Key, i: nat, u: nat) {
    && t < u < |os| && key % 256 != 0 && os[u].depth == os[t].depth + KEY_BYTES && os[u].parent == t && os[u].at == i
    && SamePrefix(os[u].rep, os[t].rep, os[t].depth) && KeyAt(os[u].rep, os[t].depth) == key
  }

  ghost predicate SubsGood(os: seq<Origin>, t: nat, sub: seq<nat>, keys: seq<Key>) {
    |sub| == |keys| && forall i :: 0 <= i < |sub| ==> sub[i] == 0 || Attached(os, t, keys[i], i, sub[i])
  }

  /** The trees from number x on are finished. */
  ghost predicate ListGood(q: seq<Str>, bits: nat, list: seq<TreeData>, os: seq<Origin>, x: nat) {
    && |list| == |os| <= MAX_TREES
    && forall t :: x <= t < |list| ==> TreeGood(q, bits, list[t], os[t]) && SubsGood(os, t, list[t].sub, os[t].keys)
  }

  ghost predicate Extends(list: seq<TreeData>, os: seq<Origin>, list': seq<TreeData>, os': seq<Origin>) {
    list <= list' && os <= os' && |list| == |os| && |list'| == |os'| <= MAX_TREES
  }

  lemma AttachedLater(os: seq<Origin>, os': seq<Origin>, t: nat, key: Key, i: nat, u: nat)
    requires Attached(os, t, key, i, u) && os <= os'
    ensures Attached(os', t, key, i, u)
  {
    hide KeyAt;
    assert os'[t] == os[t] && os'[u] == os[u];
  }

  lemma ListJoin(q: seq<Str>, bits: nat, list: seq<TreeData>, os: seq<Origin>, list': seq<TreeData>, os': seq<Origin>, x: nat)
    requires ListGood(q, bits, list, os, x) && Extends(list, os, list', os') && ListGood(q, bits, list', os', |list|)
    ensures ListGood(q, bits, list', os', x)
  {
    hide TreeGood, Attached;
    forall t | x <= t < |list'| ensures TreeGood(q, bits, list'[t], os'[t]) && SubsGood(os', t, list'[t].sub, os'[t].keys) {
      if t < |list| {
        assert list'[t] == list[t] && os'[t] == os[t];
        assert TreeGood(q, bits, list[t], os[t]) && SubsGood(os, t, list[t].sub, os[t].keys);
        SubsLater(os, os', t, list[t].sub, os[t].keys);
      }
    }
  }

  lemma SubsLater(os: seq<Origin>, os': seq<Origin>, t: nat, sub: seq<nat>, keys: seq<Key>)
    requires SubsGood(os, t, sub, keys) && os <= os'
    ensures SubsGood(os', t, sub, keys)
  {
    hide Attached;
    forall i | 0 <= i < |sub| && sub[i] != 0 ensures Attached(os', t, keys[i], i, sub[i]) {
      AttachedLater(os, os', t, keys[i], i, sub[i]);
    }
  }

  // ---- samples --------------------------------------------------------------------------------------------

  ghost predicate SampleOk(q: seq<Str>, depth: nat, rep: Str, s: Sample) {
    s.idx < |q| && SamePrefix(q[s.idx], rep, depth) && s.key == KeyAt(q[s.idx], depth)
  }

  ghost predicate SamplesOk(q: seq<Str>, depth: nat, rep: Str, s: seq<Sample>, lo: nat, hi: nat) {
    lo <= hi <= |s| && lo < |s| && forall i :: (lo <= i < hi || i == lo) ==> SampleOk(q, depth, rep, s[i])
  }

  ghost predicate SamplesKept(s: seq<Sample>, s': seq<Sample>, lo: nat, hi: nat) {
    |s'| == |s| && forall i :: 0 <= i < |s| && !(lo <= i < hi) ==> s'[i] == s[i]
  }

  function InsertSample(s: seq<Sample>, x: Sample): (r: seq<Sample>)
    ensures |r| == |s| + 1
  {
    if s == [] || s[|s| - 1].key <= x.key then s + [x] else InsertSample(s[..|s| - 1], x) + [s[|s| - 1]]
  }

  ghost predicate SamplesSorted(s: seq<Sample>) {
    forall i, j :: 0 <= i < j < |s| ==> s[i].key <= s[j].key
  }

  lemma {:induction false} InsertSampleSorted(s: seq<Sample>, x: Sample)
    requires SamplesSorted(s)
    ensures SamplesSorted(InsertSample(s, x)) && forall y :: y in InsertSample(s, x) ==> y in s || y == x
  {
    if s != [] && s[|s| - 1].key > x.key {
      var n := |s| - 1;
      var r := InsertSample(s[..n], x);
      InsertSampleSorted(s[..n], x);
      forall i | 0 <= i < |r| ensures r[i].key <= s[n].key { assert r[i] in r; }
    }
  }

  /** The library sort, by its specification. */
  function SortSamples(s: seq<Sample>): (r: seq<Sample>)
    ensures |r| == |s| && SamplesSorted(r) && forall y :: y in r ==> y in s
  {
    if s == [] then [] else
      InsertSampleSorted(SortSamples(s[..|s| - 1]), s[|s| - 1]);
      InsertSample(SortSamples(s[..|s| - 1]), s[|s| - 1])
  }

  /** A sample of a run without terminator, eight characters further on. */
  lemma DeeperSample(q: seq<Str>, depth: nat, rep: Str, s: Sample, r: Sample)
    requires SampleOk(q, depth, rep, s) && SampleOk(q, depth, rep, r) && s.key == r.key && s.key % 256 != 0
    ensures SampleOk(q, depth + KEY_BYTES, q[r.idx], Sample(KeyAt(q[s.idx], depth + KEY_BYTES), s.idx))
  {
    hide KeyAt;
    KeysEqualLong(q[s.idx], q[r.idx], depth);
  }

  /** The library sort on a stretch of the samples. */
  method SortRun(samples: array<Sample>, x: nat, y: nat)
    requires x <= y <= samples.Length
    modifies samples
    ensures SamplesKept(old(samples[..]), samples[..], x, y)
    ensures samples[x..y] == SortSamples(old(samples[x..y]))
  {
    hide SamplesSorted, SortSamples;
    ghost var s0 := samples[..];
    var sorted := SortSamples(samples[x..y]);
    for i := x to y
      invariant SamplesKept(s0, samples[..], x, y)
      invariant forall k :: x <= k < i ==> samples[k] == sorted[k - x]
    {
      samples[i] := sorted[i - x];
    }
  }

  lemma InRange(q: seq<Str>, depth: nat, rep: Str, s: Sample)
    requires SampleOk(q, depth, rep, s)
    ensures s.idx < |q|
  {
  }

  // ---- the builder ---------------------------------------------------------------------------------------------

  /** The new tree's number is that of its place in the list. */
  ghost predicate ListReady(list: seq<TreeData>, os: seq<Origin>, self: nat, depth: nat, rep: Str) {
    self < |list| == |os| <= MAX_TREES && os[self].depth == depth && os[self].rep == rep
  }

  /** Splitters x to y have their trees. */
  ghost predicate Hung(os: seq<Origin>, t: nat, keys: seq<Key>, sub: seq<nat>, x: nat, y: nat) {
    y <= |sub| && y <= |keys| && forall i :: x <= i < y ==> sub[i] == 0 || Attached(os, t, keys[i], i, sub[i])
  }

  /** What was there before place p still is. */
  ghost predicate FrontKept(keys: seq<Key>, sub: seq<nat>, keys': seq<Key>, sub': seq<nat>, p: nat) {
    && |keys'| == |keys| && |sub'| == |sub| && p <= |keys| && p <= |sub|
    && forall i :: 0 <= i < p ==> keys'[i] == keys[i] && sub'[i] == sub[i]
  }

  lemma HungLater(os: seq<Origin>, os': seq<Origin>, t: nat, keys: seq<Key>, sub: seq<nat>, keys': seq<Key>, sub': seq<nat>, x: nat, y: nat)
    requires Hung(os, t, keys, sub, x, y) && os <= os' && FrontKept(keys, sub, keys', sub', y)
    ensures Hung(os', t, keys', sub', x, y)
  {
    hide Attached;
    forall i | x <= i < y && sub'[i] != 0 ensures Attached(os', t, keys'[i], i, sub'[i]) {
      AttachedLater(os, os', t, keys[i], i, sub[i]);
    }
  }

  /** The list has grown by finished trees. */
  ghost predicate Grown(q: seq<Str>, bits: nat, list: seq<TreeData>, os: seq<Origin>, list': seq<TreeData>, os': seq<Origin>) {
    Extends(list, os, list', os') && ListGood(q, bits, list', os', |list|)
  }

  lemma NotGrown(q: seq<Str>, bits: nat, list: seq<TreeData>, os: seq<Origin>)
    requires |list| == |os| <= MAX_TREES
    ensures Grown(q, bits, list, os, list, os)
  {
  }

  lemma GrownTwice(q: seq<Str>, bits: nat, l0: seq<TreeData>, o0: seq<Origin>, l1: seq<TreeData>, o1: seq<Origin>, l2: seq<TreeData>, o2: seq<Origin>)
    requires Grown(q, bits, l0, o0, l1, o1) && Grown(q, bits, l1, o1, l2, o2)
    ensures Grown(q, bits, l0, o0, l2, o2)
  {
    hide ListGood;
    ListJoin(q, bits, l1, o1, l2, o2, |l0|);
  }

  lemma ReadyLater(q: seq<Str>, bits: nat, list: seq<TreeData>, os: seq<Origin>, list': seq<TreeData>, os': seq<Origin>, self: nat, depth: nat, rep: Str)
    requires ListReady(list, os, self, depth, rep) && Grown(q, bits, list, os, list', os')
    ensures ListReady(list', os', self, depth, rep) && |list| <= |list'| && os <= os'
  {
    hide ListGood;
    assert os'[self] == os[self];
  }

  // ---- splitting the samples of a node ----------------------------------------------------------------------------

  /** Where the samples of a node and of its children lie. */
  ghost predicate RunOf(s: seq<Sample>, lo: nat, mid: nat, hi: nat, midlo: nat, midhi: nat) {
    && lo <= midlo <= mid <= midhi <= hi <= |s| && mid == Mid(lo, hi) && mid < |s| && (midhi == mid || midhi < hi)
    && midlo == LowerEnd(KeysOf(s), lo, mid, s[mid].key) && midhi == UpperEnd(KeysOf(s), mid, hi, s[mid].key)
    && forall i :: midlo <= i < midhi ==> s[i].key == s[mid].key
  }

  lemma LeftSamples(q: seq<Str>, depth: nat, rep: Str, s: seq<Sample>, lo: nat, mid: nat, hi: nat, midlo: nat, midhi: nat)
    requires SamplesOk(q, depth, rep, s, lo, hi) && RunOf(s, lo, mid, hi, midlo, midhi)
    ensures SamplesOk(q, depth, rep, s, lo, midlo)
  {
    hide SampleOk;
  }

  /** What the left child's builder has left of the run. */
  lemma RunSamples(q: seq<Str>, depth: nat, rep: Str, s: seq<Sample>, s1: seq<Sample>, lo: nat, mid: nat, hi: nat, midlo: nat, midhi: nat)
    requires SamplesOk(q, depth, rep, s, lo, hi) && RunOf(s, lo, mid, hi, midlo, midhi) && SamplesKept(s, s1, lo, midlo)
    ensures forall i :: midlo <= i < midhi ==> SampleOk(q, depth, rep, s1[i]) && s1[i].key == s[mid].key
  {
    hide SampleOk;
  }

  /** What is left for the right child. */
  lemma RightSamples(q: seq<Str>, depth: nat, rep: Str, s: seq<Sample>, s2: seq<Sample>, lo: nat, mid: nat, hi: nat, midlo: nat, midhi: nat, h: nat)
    requires SamplesOk(q, depth, rep, s, lo, hi) && RunOf(s, lo, mid, hi, midlo, midhi) && h >= 1 && SamplesKept(s, s2, lo, midhi)
    ensures SamplesOk(q, depth, rep, s2, midhi, hi)
    ensures InOrder(KeysOf(s2), midhi, hi, h) == InOrder(KeysOf(s), midhi, hi, h)
  {
    hide SampleOk, InOrder;
    assert SameRange(KeysOf(s), midhi, hi, KeysOf(s2), midhi);
    InOrderMoved(KeysOf(s), midhi, hi, KeysOf(s2), midhi, h);
  }

  lemma KeptJoin(s: seq<Sample>, s1: seq<Sample>, s2: seq<Sample>, x: nat, y: nat, z: nat)
    requires x <= y <= z && SamplesKept(s, s1, x, y) && SamplesKept(s1, s2, y, z)
    ensures SamplesKept(s, s2, x, z)
  {
  }

  lemma LeafKept(s: seq<Sample>, s': seq<Sample>, lo: nat, midlo: nat, midhi: nat, hi: nat)
    requires lo <= midlo <= midhi <= hi && SamplesKept(s, s', midlo, midhi)
    ensures SamplesKept(s, s', lo, hi)
  {
  }

  lemma LeafSamples(q: seq<Str>, depth: nat, rep: Str, s: seq<Sample>, lo: nat, mid: nat, hi: nat, midlo: nat, midhi: nat)
    requires SamplesOk(q, depth, rep, s, lo, hi) && RunOf(s, lo, mid, hi, midlo, midhi)
    ensures forall i :: midlo <= i < midhi ==> SampleOk(q, depth, rep, s[i]) && s[i].key == s[mid].key
  {
    hide SampleOk;
  }

  lemma RunBounds(s: seq<Sample>, lo: nat, mid: nat, hi: nat, midlo: nat, midhi: nat)
    requires RunOf(s, lo, mid, hi, midlo, midhi)
    ensures lo <= midlo <= mid <= midhi <= hi <= |s| && mid < |s|
    ensures midlo == LowerEnd(KeysOf(s), lo, mid, s[mid].key) && midhi == UpperEnd(KeysOf(s), mid, hi, s[mid].key)
  {
  }

  lemma SamplesThere(q: seq<Str>, depth: nat, rep: Str, s: seq<Sample>, lo: nat, hi: nat)
    requires SamplesOk(q, depth, rep, s, lo, hi)
    ensures lo <= hi <= |s| && lo < |s|
  {
  }

  lemma HungJoin(o1: seq<Origin>, o2: seq<Origin>, t: nat, k0: seq<Key>, u0: seq<nat>, k1: seq<Key>, u1: seq<nat>,
                 k2: seq<Key>, u2: seq<nat>, p: nat, m: nat, e: nat)
    requires o1 <= o2 && p <= m < e && FrontKept(k0, u0, k1, u1, p) && Hung(o1, t, k1, u1, p, m)
    requires FrontKept(k1, u1, k2, u2, m) && Hung(o2, t, k2, u2, m, e)
    ensures FrontKept(k0, u0, k2, u2, p) && Hung(o2, t, k2, u2, p, e)
  {
    hide Attached;
    HungLater(o1, o2, t, k1, u1, k2, u2, p, m);
  }

  /** The tree built from a run is attached to the run's splitter. */
  lemma NowAttached(q: seq<Str>, bits: nat, list: seq<TreeData>, os: seq<Origin>, list': seq<TreeData>, os': seq<Origin>,
                    self: nat, depth: nat, rep: Str, r: Sample, i: nat)
    requires ListReady(list, os, self, depth, rep) && Grown(q, bits, list, os, list', os') && |list| < |list'|
    requires SampleOk(q, depth, rep, r) && r.key % 256 != 0
    requires |list| < |os'| && os'[|list|] == Origin(os'[|list|].keys, depth + KEY_BYTES, q[r.idx], self, i)
    ensures Attached(os', self, r.key, i, |list|)
  {
    hide ListGood, KeyAt;
    assert os'[self] == os[self];
  }

  lemma TreeSize(bits: nat)
    requires bits >= 2
    ensures Pow2(bits) >= 4
  {
    Pow2Mono(2, bits);
    assert Pow2(0) == 1 && Pow2(1) == 2 && Pow2(2) == 4;
  }

  // ---- a finished tree ----------------------------------------------------------------------------------------------

  /** The tree's splitters, selected from the samples of its run. */
  ghost function Selected(s: seq<Sample>, bits: nat): (keys: seq<Key>)
    requires s != [] && bits >= 1
  {
    InOrder(KeysOf(s), 0, |s|, bits)
  }

  lemma SelectedGood(q: seq<Str>, depth: nat, rep: Str, s: seq<Sample>, bits: nat)
    requires s != [] && bits >= 1 && SamplesSorted(s) && forall x :: x in s ==> SampleOk(q, depth, rep, x)
    ensures SortedKeys(Selected(s, bits)) && FromStrings(q, depth, rep, Selected(s, bits)) && |Selected(s, bits)| == Pow2(bits) - 1
  {
    hide KeyAt, InOrder, SamePrefix;
    var keys := Selected(s, bits);
    InOrderSorted(KeysOf(s), 0, |s|, bits);
    assert Within(KeysOf(s), 0, |s|, keys);
    forall k | k in keys ensures exists p :: 0 <= p < |q| && SamePrefix(q[p], rep, depth) && KeyAt(q[p], depth) == k {
      assert k in KeysOf(s);
      var i :| 0 <= i < |s| && KeysOf(s)[i] == k;
      assert s[i] in s && SampleOk(q, depth, rep, s[i]);
    }
  }

  lemma SelectedHere(s: seq<Sample>, lo: nat, hi: nat, bits: nat)
    requires lo < hi <= |s| && bits >= 1
    ensures InOrder(KeysOf(s), lo, hi, bits) == Selected(s[lo..hi], bits)
  {
    hide InOrder;
    assert SameRange(KeysOf(s), lo, hi, KeysOf(s[lo..hi]), 0);
    InOrderMoved(KeysOf(s), lo, hi, KeysOf(s[lo..hi]), 0, bits);
  }

  /** What the recursion has written, with the first byte put right, is the tree. */
  lemma TreeFinished(q: seq<Str>, bits: nat, o0: TreeArrays, o1: TreeArrays, lcp: seq<nat>, sub: seq<nat>, o: Origin)
    requires bits >= 2 && |o0.splitter| == |o.keys| == |sub| == Pow2(bits) - 1 && |o1.lcp| == |o1.tree| == Pow2(bits)
    requires Built(o0, o1, 0, bits, 1, o.keys, 0) && SortedKeys(o.keys) && FromStrings(q, o.depth, o.rep, o.keys)
    requires lcp == o1.lcp[0 := if o1.lcp[0] >= DONE then DONE else 0]
    ensures TreeGood(q, bits, TreeData(o.depth, o1.tree, lcp[..|o.keys|], sub), o) && o1.splitter == o.keys
  {
    hide Built, Embeds, SortedKeys, FromStrings, LcpOf, IsLcpTable;
    TreeSize(bits);
    var n := |o.keys|;
    BuiltAll(o0, o1, bits, o.keys);
    assert lcp[..n] + [0] == lcp[n := 0];
    LcpTableOf(o1.lcp, lcp[n := 0], o.keys);
  }

  /** Finished, the tree takes its place in the list. */
  lemma TreeListed(q: seq<Str>, bits: nat, list: seq<TreeData>, os: seq<Origin>, o: Origin, list2: seq<TreeData>, os2: seq<Origin>, d: TreeData, d0: TreeData)
    requires |list| == |os| < MAX_TREES && Grown(q, bits, list + [d0], os + [o], list2, os2)
    requires TreeGood(q, bits, d, o) && Hung(os2, |os|, o.keys, d.sub, 0, |d.sub|)
    ensures |list| < |list2| == |os2| && Grown(q, bits, list, os, list2[|list| := d], os2) && os2[|list|] == o
  {
    hide Attached;
    var list' := list2[|list| := d];
    assert list2[..|list| + 1] == list + [d0] && os2[..|os| + 1] == os + [o];
    assert list'[..|list|] == list && os2[..|os|] == os && os2[|os|] == (os + [o])[|os|];
    forall t | |list| <= t < |list'| ensures TreeGood(q, bits, list'[t], os2[t]) && SubsGood(os2, t, list'[t].sub, os2[t].keys) {
      if t > |list| { assert TreeGood(q, bits, list2[t], os2[t]) && SubsGood(os2, t, list2[t].sub, os2[t].keys); }
    }
  }

  class Builder {
    const numsplitters: nat
    ghost const bits: nat
    ghost const self: nat
    ghost const rep: Str
    const q: seq<Str>
    const depth: nat
    const samples: array<Sample>
    const tree: array<Key>
    const lcp: array<nat>
    const sub: array<nat>
    /** The splitters in order are not stored. */
    ghost var splitter: seq<Key>
    /** m_lcp_iter and m_subtree_iter stand at the same place. */
    var pos: nat

    ghost predicate Shape()
      reads this`splitter
    {
      && bits >= 2 && numsplitters == Pow2(bits) - 1
      && tree.Length == lcp.Length == numsplitters + 1 && sub.Length == |splitter| == numsplitters
      && lcp != sub
    }

    ghost function Out(): TreeArrays
      reads this`splitter, tree, lcp
    {
      TreeArrays(tree[..], splitter, lcp[..])
    }

    /** No tree has been attached to splitters still to come. */
    ghost predicate RestFree()
      reads this`pos, sub
    {
      forall i :: pos <= i < sub.Length ==> sub[i] == 0
    }

    constructor (ghost bits: nat, numsplitters: nat, ghost self: nat, ghost rep: Str, q: seq<Str>, depth: nat, samples: array<Sample>)
      requires bits >= 2 && numsplitters == Pow2(bits) - 1
      ensures Shape() && RestFree() && pos == 0 && fresh(tree) && fresh(lcp) && fresh(sub)
      ensures this.bits == bits && this.numsplitters == numsplitters && this.self == self && this.rep == rep
      ensures this.q == q && this.depth == depth && this.samples == samples
    {
      this.bits, this.numsplitters, this.self, this.rep := bits, numsplitters, self, rep;
      this.q, this.depth, this.samples := q, depth, samples;
      this.tree := new Key[numsplitters + 1];
      this.lcp := new nat[numsplitters + 1];
      this.sub := new nat[numsplitters](_ => 0);
      this.splitter := seq(numsplitters, _ => 0);
      this.pos := 0;
    }

    method FindRun(lo: nat, mid: nat, hi: nat) returns (midlo: nat, midhi: nat)
      requires lo <= hi <= samples.Length && mid == Mid(lo, hi) && mid < samples.Length
      ensures RunOf(samples[..], lo, mid, hi, midlo, midhi)
    {
      ghost var s := KeysOf(samples[..]);
      var mykey := samples[mid].key;
      midlo := mid;
      while lo < midlo && samples[midlo - 1].key == mykey
        invariant lo <= midlo <= mid
        invariant LowerEnd(s, lo, midlo, mykey) == LowerEnd(s, lo, mid, mykey)
        invariant forall i :: midlo <= i < mid ==> samples[i].key == mykey
      {
        midlo := midlo - 1;
      }
      midhi := mid;
      while midhi + 1 < hi && samples[midhi].key == mykey
        invariant mid <= midhi <= hi
        invariant UpperEnd(s, midhi, hi, mykey) == UpperEnd(s, mid, hi, mykey)
        invariant forall i :: mid <= i < midhi ==> samples[i].key == mykey
      {
        midhi := midhi + 1;
      }
    }

    method SetNode(idx: nat, key: Key)
      requires Shape() && idx < tree.Length
      modifies tree
      ensures Out() == NodeSet(old(Out()), idx, key)
    {
      tree[idx] := key;
    }

    /** keynode, but for the position: the splitter's byte. */
    method Emit(prev: Key, mykey: Key)
      requires Shape() && pos < numsplitters
      modifies this`splitter, lcp
      ensures Shape() && Out() == Emitted(old(Out()), pos, prev, mykey)
    {
      splitter := splitter[pos := mykey];
      lcp[pos] := LcpByte(prev, mykey);
    }

    /** The samples of a run get the keys of their next eight characters. */
    method Reload(midlo: nat, midhi: nat, ghost r: Sample)
      requires midlo <= midhi <= samples.Length && SampleOk(q, depth, rep, r) && r.key % 256 != 0
      requires forall i :: midlo <= i < midhi ==> SampleOk(q, depth, rep, samples[i]) && samples[i].key == r.key
      modifies samples
      ensures SamplesKept(old(samples[..]), samples[..], midlo, midhi)
      ensures forall i :: midlo <= i < midhi ==> SampleOk(q, depth + KEY_BYTES, q[r.idx], samples[i])
    {
      hide SampleOk;
      ghost var s0 := samples[..];
      InRange(q, depth, rep, r);
      for i := midlo to midhi
        invariant SamplesKept(s0, samples[..], midlo, midhi)
        invariant forall k :: i <= k < midhi ==> samples[k] == s0[k]
        invariant forall k :: midlo <= k < i ==> SampleOk(q, depth + KEY_BYTES, q[r.idx], samples[k])
      {
        assert samples[i] == s0[i];
        DeeperSample(q, depth, rep, s0[i], r);
        InRange(q, depth, rep, s0[i]);
        samples[i] := Sample(KeyAt(q[samples[i].idx], depth + KEY_BYTES), samples[i].idx);
      }
    }

    method Deepen(midlo: nat, midhi: nat, ghost r: Sample)
      requires midlo <= midhi <= samples.Length && SampleOk(q, depth, rep, r) && r.key % 256 != 0
      requires forall i :: midlo <= i < midhi ==> SampleOk(q, depth, rep, samples[i]) && samples[i].key == r.key
      modifies samples
      ensures SamplesKept(old(samples[..]), samples[..], midlo, midhi)
      ensures forall i :: midlo <= i < midhi ==> SampleOk(q, depth + KEY_BYTES, q[r.idx], samples[i])
      ensures SamplesSorted(samples[midlo..midhi])
    {
      hide SampleOk;
      InRange(q, depth, rep, r);
      Reload(midlo, midhi, r);
      ghost var s1 := samples[midlo..midhi];
      SortRun(samples, midlo, midhi);
      forall i | midlo <= i < midhi ensures SampleOk(q, depth + KEY_BYTES, q[r.idx], samples[i]) {
        assert samples[i] == samples[midlo..midhi][i - midlo] && samples[midlo..midhi][i - midlo] in s1;
      }
    }

    /** keynode: the splitter's byte, and the tree of its run if that is long enough. */
    method KeyNode(prev: Key, mykey: Key, midlo: nat, midhi: nat, list: seq<TreeData>, ghost os: seq<Origin>)
      returns (list': seq<TreeData>, ghost os': seq<Origin>)
      requires Shape() && RestFree() && pos < numsplitters && ListReady(list, os, self, depth, rep)
      requires midlo <= midhi <= samples.Length
      requires forall i :: midlo <= i < midhi ==> SampleOk(q, depth, rep, samples[i]) && samples[i].key == mykey
      modifies this`pos, this`splitter, lcp, sub, samples
      ensures Shape() && RestFree() && pos == old(pos) + 1 && Out() == Emitted(old(Out()), old(pos), prev, mykey)
      ensures SamplesKept(old(samples[..]), samples[..], midlo, midhi) && Grown(q, bits, list, os, list', os')
      ensures FrontKept(old(splitter), old(sub[..]), splitter, sub[..], old(pos))
      ensures Hung(os', self, splitter, sub[..], old(pos), pos)
      decreases MAX_TREES - |list|, 0, 3
    {
      hide SampleOk, Grown, Attached;
      Emit(prev, mykey);
      list', os' := list, os;
      NotGrown(q, bits, list, os);
      if midhi - midlo >= numsplitters / 2 && mykey % 256 != 0 && |list| < MAX_TREES {
        TreeSize(bits);
        ghost var r := samples[midlo];
        InRange(q, depth, rep, r);
        Deepen(midlo, midhi, r);
        sub[pos] := |list|;
        list', os' := BuildTree(numsplitters, q, depth + KEY_BYTES, samples, midlo, midhi, list, os, bits, q[r.idx], self, pos);
        NowAttached(q, bits, list, os, list', os', self, depth, rep, r, pos);
      }
      pos := pos + 1;
    }

    /** The left children of a node and its own splitter. */
    method LeftHalf(lo: nat, mid: nat, hi: nat, midlo: nat, midhi: nat, treeidx: nat, recPrev: Key, ghost h: nat,
                    list: seq<TreeData>, ghost os: seq<Origin>)
      returns (list': seq<TreeData>, ghost os': seq<Origin>, ghost o1: TreeArrays)
      requires Shape() && RestFree() && ListReady(list, os, self, depth, rep)
      requires SamplesOk(q, depth, rep, samples[..], lo, hi) && RunOf(samples[..], lo, mid, hi, midlo, midhi)
      requires 2 <= h <= bits && Pow2(bits - h) <= treeidx < Pow2(bits - h + 1) && pos + Pow2(h) - 1 <= numsplitters
      modifies this`pos, this`splitter, tree, lcp, sub, samples
      ensures Shape() && RestFree() && pos == old(pos) + Pow2(h - 1)
      ensures var left := InOrder(KeysOf(old(samples[..])), lo, midlo, h - 1);
              && Built(old(Out()), o1, old(pos), h - 1, 2 * treeidx, left, recPrev)
              && pos - 1 < |o1.splitter| && pos - 1 < |o1.lcp| && Out() == Emitted(o1, pos - 1, left[|left| - 1], old(samples[mid].key))
      ensures SamplesKept(old(samples[..]), samples[..], lo, midhi) && Grown(q, bits, list, os, list', os')
      ensures FrontKept(old(splitter), old(sub[..]), splitter, sub[..], old(pos))
      ensures Hung(os', self, splitter, sub[..], old(pos), pos)
      decreases MAX_TREES - |list|, h, 0
    {
      hide Built, InOrder, LowerEnd, UpperEnd, SampleOk, SamplesKept, SamplesOk, Grown, Hung, FrontKept, Attached, RunOf;
      ChildLevel(treeidx, bits, h);
      RunBounds(samples[..], lo, mid, hi, midlo, midhi);
      var mykey := samples[mid].key;
      ghost var p, s := pos, samples[..];
      ghost var keys0, sub0 := splitter, sub[..];
      LeftSamples(q, depth, rep, s, lo, mid, hi, midlo, midhi);
      var prevkey, list1;
      ghost var os1;
      prevkey, list1, os1 := Recurse(lo, midlo, 2 * treeidx, recPrev, h - 1, list, os);
      o1 := Out();
      ghost var s1, m := samples[..], pos;
      ghost var keys1, sub1 := splitter, sub[..];
      RunSamples(q, depth, rep, s, s1, lo, mid, hi, midlo, midhi);
      ReadyLater(q, bits, list, os, list1, os1, self, depth, rep);
      list', os' := KeyNode(prevkey, mykey, midlo, midhi, list1, os1);
      ReadyLater(q, bits, list1, os1, list', os', self, depth, rep);
      KeptJoin(s, s1, samples[..], lo, midlo, midhi);
      GrownTwice(q, bits, list, os, list1, os1, list', os');
      HungJoin(os1, os', self, keys0, sub0, keys1, sub1, splitter, sub[..], p, m, pos);
    }

    /** A node with children: the left ones, the node's splitter, the right ones. */
    method Inner(lo: nat, mid: nat, hi: nat, midlo: nat, midhi: nat, treeidx: nat, recPrev: Key, ghost h: nat,
                 list: seq<TreeData>, ghost os: seq<Origin>)
      returns (last: Key, list': seq<TreeData>, ghost os': seq<Origin>)
      requires Shape() && RestFree() && ListReady(list, os, self, depth, rep)
      requires SamplesOk(q, depth, rep, samples[..], lo, hi) && RunOf(samples[..], lo, mid, hi, midlo, midhi)
      requires 2 <= h <= bits && Pow2(bits - h) <= treeidx < Pow2(bits - h + 1) && pos + Pow2(h) - 1 <= numsplitters
      modifies this`pos, this`splitter, tree, lcp, sub, samples
      ensures Shape() && RestFree() && pos == old(pos) + Pow2(h) - 1
      ensures var s := KeysOf(old(samples[..]));
              var left, right := InOrder(s, lo, midlo, h - 1), InOrder(s, midhi, hi, h - 1);
              last == right[|right| - 1] && Built(old(Out()), Out(), old(pos), h, treeidx, left + [old(samples[mid].key)] + right, recPrev)
      ensures SamplesKept(old(samples[..]), samples[..], lo, hi) && Grown(q, bits, list, os, list', os')
      ensures FrontKept(old(splitter), old(sub[..]), splitter, sub[..], old(pos))
      ensures Hung(os', self, splitter, sub[..], old(pos), pos)
      decreases MAX_TREES - |list|, h, 1
    {
      hide Built, InOrder, LowerEnd, UpperEnd, Emitted, NodeSet, SampleOk, SamplesKept, SamplesOk, Grown, Hung, FrontKept, Attached, RunOf;
      ChildLevel(treeidx, bits, h);
      RunBounds(samples[..], lo, mid, hi, midlo, midhi);
      var mykey := samples[mid].key;
      ghost var o, p, s := Out(), pos, samples[..];
      ghost var keys0, sub0 := splitter, sub[..];
      ghost var left, right := InOrder(KeysOf(s), lo, midlo, h - 1), InOrder(KeysOf(s), midhi, hi, h - 1);
      SetNode(treeidx, mykey);
      var list2;
      ghost var os2, o1;
      list2, os2, o1 := LeftHalf(lo, mid, hi, midlo, midhi, treeidx, recPrev, h, list, os);
      ghost var s2, m := samples[..], pos;
      ghost var keys2, sub2 := splitter, sub[..];
      RightSamples(q, depth, rep, s, s2, lo, mid, hi, midlo, midhi, h - 1);
      ReadyLater(q, bits, list, os, list2, os2, self, depth, rep);
      last, list', os' := Recurse(midhi, hi, 2 * treeidx + 1, mykey, h - 1, list2, os2);
      ReadyLater(q, bits, list2, os2, list', os', self, depth, rep);
      BuiltNode(o, o1, Out(), p, h - 1, treeidx, left, mykey, right, recPrev);
      KeptJoin(s, s2, samples[..], lo, midhi, hi);
      GrownTwice(q, bits, list, os, list2, os2, list', os');
      HungJoin(os2, os', self, keys0, sub0, keys2, sub2, splitter, sub[..], p, m, pos);
    }

    method Recurse(lo: nat, hi: nat, treeidx: nat, recPrev: Key, ghost h: nat, list: seq<TreeData>, ghost os: seq<Origin>)
      returns (last: Key, list': seq<TreeData>, ghost os': seq<Origin>)
      requires Shape() && RestFree() && ListReady(list, os, self, depth, rep)
      requires SamplesOk(q, depth, rep, samples[..], lo, hi)
      requires 1 <= h <= bits && Pow2(bits - h) <= treeidx < Pow2(bits - h + 1) && pos + Pow2(h) - 1 <= numsplitters
      modifies this`pos, this`splitter, tree, lcp, sub, samples
      ensures Shape() && RestFree() && pos == old(pos) + Pow2(h) - 1
      ensures var keys := InOrder(KeysOf(old(samples[..])), lo, hi, h);
              last == keys[|keys| - 1] && Built(old(Out()), Out(), old(pos), h, treeidx, keys, recPrev)
      ensures SamplesKept(old(samples[..]), samples[..], lo, hi) && Grown(q, bits, list, os, list', os')
      ensures FrontKept(old(splitter), old(sub[..]), splitter, sub[..], old(pos))
      ensures Hung(os', self, splitter, sub[..], old(pos), pos)
      decreases MAX_TREES - |list|, h, 2
    {
      hide Built, InOrder, LowerEnd, UpperEnd, Emitted, NodeSet, SampleOk, SamplesKept, SamplesOk, Grown, Hung, FrontKept, Attached, RunOf;
      ChildLevel(treeidx, bits, h);
      SamplesThere(q, depth, rep, samples[..], lo, hi);
      var mid := Mid(lo, hi);
      ghost var o, p, s := Out(), pos, samples[..];
      InOrderNode(KeysOf(s), lo, hi, h);
      var midlo, midhi := FindRun(lo, mid, hi);
      RunBounds(s, lo, mid, hi, midlo, midhi);
      if 2 * treeidx < numsplitters {
        last, list', os' := Inner(lo, mid, hi, midlo, midhi, treeidx, recPrev, h, list, os);
      } else {
        last := samples[mid].key;
        SetNode(treeidx, last);
        LeafSamples(q, depth, rep, s, lo, mid, hi, midlo, midhi);
        list', os' := KeyNode(recPrev, last, midlo, midhi, list, os);
        BuiltLeaf(o, p, treeidx, last, recPrev);
        LeafKept(s, samples[..], lo, midlo, midhi, hi);
      }
    }
  }

  /** A new tree, appended to the list, and all trees attached below it. */
  method BuildTree(numsplitters: nat, q: seq<Str>, depth: nat, samples: array<Sample>, lo: nat, hi: nat, list: seq<TreeData>,
                   ghost os: seq<Origin>, ghost bits: nat, ghost rep: Str, ghost parent: nat, ghost at: nat)
    returns (list': seq<TreeData>, ghost os': seq<Origin>)
    requires bits >= 2 && numsplitters == Pow2(bits) - 1 && lo < hi <= samples.Length && |list| == |os| < MAX_TREES
    requires SamplesSorted(samples[lo..hi]) && forall i :: lo <= i < hi ==> SampleOk(q, depth, rep, samples[i])
    modifies samples
    ensures SamplesKept(old(samples[..]), samples[..], lo, hi)
    ensures Grown(q, bits, list, os, list', os') && |list| < |list'| == |os'|
    ensures os'[|list|] == Origin(os'[|list|].keys, depth, rep, parent, at)
    decreases MAX_TREES - |list|, 0, 2
  {
    hide SampleOk, Grown, Built, InOrder, Selected, SortedKeys, FromStrings, TreeGood, SamplesKept, SamplesSorted, FrontKept;
    ghost var run := samples[lo..hi];
    assert forall x :: x in run ==> SampleOk(q, depth, rep, x);
    SelectedGood(q, depth, rep, run, bits);
    SelectedHere(samples[..], lo, hi, bits);
    assert samples[..][lo..hi] == run;
    ghost var o := Origin(Selected(run, bits), depth, rep, parent, at);
    var d0 := TreeData(depth, [], [], []);
    var builder := new Builder(bits, numsplitters, |list|, rep, q, depth, samples);
    ghost var o0 := builder.Out();
    var last, list2;
    ghost var os2;
    last, list2, os2 := builder.Recurse(lo, hi, 1, 0, bits, list + [d0], os + [o]);
    ghost var o1 := builder.Out();
    builder.lcp[0] := if builder.lcp[0] >= DONE then DONE else 0;
    var d := TreeData(depth, builder.tree[..], builder.lcp[..numsplitters], builder.sub[..]);
    TreeFinished(q, bits, o0, o1, builder.lcp[..], builder.sub[..], o);
    TreeListed(q, bits, list, os, o, list2, os2, d, d0);
    list', os' := list2[|list| := d], os2;
  }
}
