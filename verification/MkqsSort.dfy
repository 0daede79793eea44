/** Multikey quicksort with LCP output, down to insertion sort on cached keys. */
module MkqsSort {
  import opened Strings
  import opened Keys
  import opened SplitterTree
  import opened Permute
  import opened Buckets
  import opened LcpOutput
  import opened LcpInsertionSort
  import opened FatPartition
  import opened Mkqs

  // ---- insertion sort on the cached keys ------------------------------------------

  /** k[..pi + 1] is sorted, with the exception of position pj, which is below everything behind it. */
  ghost predicate InsertingKey(k: seq<Key>, pi: nat, pj: nat) {
    && pj <= pi < |k|
    && (forall i, j :: 0 <= i < j <= pi && i != pj && j != pj ==> k[i] <= k[j])
    && (forall j :: pj < j <= pi ==> k[pj] <= k[j])
  }

  ghost predicate SortedUpTo(k: seq<Key>, n: nat) {
    n <= |k| && forall i, j :: 0 <= i < j < n ==> k[i] <= k[j]
  }

  lemma InsertKeyStart(k: seq<Key>, pi: nat)
    requires SortedUpTo(k, pi) && pi < |k|
    ensures InsertingKey(k, pi, pi)
  {
  }

  lemma InsertKeyShift(k: seq<Key>, pi: nat, pj: nat)
    requires InsertingKey(k, pi, pj) && pj > 0 && k[pj - 1] > k[pj]
    ensures InsertingKey(Swap(k, pj - 1, pj), pi, pj - 1)
  {
  }

  lemma InsertKeyDone(k: seq<Key>, pi: nat, pj: nat)
    requires InsertingKey(k, pi, pj) && (pj > 0 ==> k[pj - 1] <= k[pj])
    ensures SortedUpTo(k, pi + 1)
  {
  }

  /** Position i was read out; counted back in as x, the sequence is h. */
  ghost predicate Hole<T>(m: seq<T>, h: seq<T>, i: nat, x: T) {
    i < |m| && h == m[i := x]
  }

  lemma HoleShift<T>(m: seq<T>, h: seq<T>, i: nat, x: T)
    requires Hole(m, h, i, x) && i > 0
    ensures Hole(m[i := m[i - 1]], Swap(h, i - 1, i), i - 1, x)
  {
  }

  ghost predicate Shifting(m: seq<Str>, mk: seq<Key>, h: seq<Str>, k: seq<Key>, pi: nat, pj: nat, x: Str, key: Key, depth: nat) {
    && Hole(m, h, pj, x) && Hole(mk, k, pj, key) && InsertingKey(k, pi, pj) && KeysOf(h, k, depth)
  }

  lemma ShiftStep(m: seq<Str>, mk: seq<Key>, h: seq<Str>, k: seq<Key>, pi: nat, pj: nat, x: Str, key: Key, depth: nat)
    requires Shifting(m, mk, h, k, pi, pj, x, key, depth) && pj > 0 && mk[pj - 1] > key
    ensures Shifting(m[pj := m[pj - 1]], mk[pj := mk[pj - 1]], Swap(h, pj - 1, pj), Swap(k, pj - 1, pj), pi, pj - 1, x, key, depth)
    ensures multiset(Swap(h, pj - 1, pj)) == multiset(h)
  {
    hide KeyAt;
    HoleShift(m, h, pj, x);
    HoleShift(mk, k, pj, key);
    InsertKeyShift(k, pi, pj);
    KeysOfSwap(h, k, depth, pj - 1, pj);
  }

  lemma ShiftEnd(m: seq<Str>, mk: seq<Key>, h: seq<Str>, k: seq<Key>, pi: nat, pj: nat, x: Str, key: Key, depth: nat)
    requires Shifting(m, mk, h, k, pi, pj, x, key, depth) && (pj > 0 ==> mk[pj - 1] <= key)
    ensures pj < |m| == |mk| && m[pj := x] == h && mk[pj := key] == k && SortedUpTo(k, pi + 1) && KeysOf(h, k, depth)
  {
    InsertKeyDone(k, pi, pj);
  }

  lemma ShiftingSize(m: seq<Str>, mk: seq<Key>, h: seq<Str>, k: seq<Key>, pi: nat, pj: nat, x: Str, key: Key, depth: nat)
    requires Shifting(m, mk, h, k, pi, pj, x, key, depth)
    ensures |h| == |m| && |k| == |mk|
  {
  }

  /** Move one string and its key up by one place. */
  method ShiftKey(out: array<Str>, cache: array<Key>, lo: nat, co: nat, n: nat, ghost pi: nat, pj: nat,
                  ghost x: Str, ghost key: Key, ghost depth: nat, ghost h: seq<Str>, ghost k: seq<Key>)
    returns (ghost h': seq<Str>, ghost k': seq<Key>)
    requires lo + n <= out.Length && co + n <= cache.Length && 0 < pj < n
    requires Shifting(out[lo..lo + n], cache[co..co + n], h, k, pi, pj, x, key, depth) && cache[co + pj - 1] > key
    modifies out, cache
    ensures Shifting(out[lo..lo + n], cache[co..co + n], h', k', pi, pj - 1, x, key, depth) && multiset(h') == multiset(h)
    ensures OutsideKept(old(out[..]), out[..], lo, lo + n) && OutsideKept(old(cache[..]), cache[..], co, co + n)
  {
    hide KeyAt, Swap, Shifting;
    ghost var m, mk := out[lo..lo + n], cache[co..co + n];
    assert mk[pj - 1] == cache[co + pj - 1];
    ShiftStep(m, mk, h, k, pi, pj, x, key, depth);
    ShiftingSize(m, mk, h, k, pi, pj, x, key, depth);
    h', k' := Swap(h, pj - 1, pj), Swap(k, pj - 1, pj);
    out[lo + pj] := out[lo + pj - 1];
    cache[co + pj] := cache[co + pj - 1];
    assert out[lo..lo + n] == m[pj := m[pj - 1]];
    assert cache[co..co + n] == mk[pj := mk[pj - 1]];
  }

  method InsertByKey(out: array<Str>, cache: array<Key>, lo: nat, co: nat, n: nat, pi: nat, ghost depth: nat)
    requires lo + n <= out.Length && co + n <= cache.Length && pi < n
    requires SortedUpTo(cache[co..co + n], pi) && KeysOf(out[lo..lo + n], cache[co..co + n], depth)
    modifies out, cache
    ensures SortedUpTo(cache[co..co + n], pi + 1) && KeysOf(out[lo..lo + n], cache[co..co + n], depth)
    ensures multiset(out[lo..lo + n]) == multiset(old(out[lo..lo + n]))
    ensures OutsideKept(old(out[..]), out[..], lo, lo + n) && OutsideKept(old(cache[..]), cache[..], co, co + n)
  {
    var tmps, tmpc := out[lo + pi], cache[co + pi];
    var pj: nat := pi;
    ghost var h, k := out[lo..lo + n], cache[co..co + n];
    InsertKeyStart(k, pi);
    assert Shifting(h, k, h, k, pi, pj, tmps, tmpc, depth);
    hide KeyAt, SortedUpTo, InsertingKey, Swap, Shifting, KeysOf;
    while pj > 0
      invariant pj <= pi && multiset(h) == multiset(old(out[lo..lo + n]))
      invariant Shifting(out[lo..lo + n], cache[co..co + n], h, k, pi, pj, tmps, tmpc, depth)
      invariant OutsideKept(old(out[..]), out[..], lo, lo + n) && OutsideKept(old(cache[..]), cache[..], co, co + n)
    {
      if cache[co + pj - 1] <= tmpc { break; }
      h, k := ShiftKey(out, cache, lo, co, n, pi, pj, tmps, tmpc, depth, h, k);
      pj := pj - 1;
    }
    ghost var m, mk := out[lo..lo + n], cache[co..co + n];
    assert pj > 0 ==> mk[pj - 1] == cache[co + pj - 1];
    ShiftEnd(m, mk, h, k, pi, pj, tmps, tmpc, depth);
    out[lo + pj] := tmps;
    cache[co + pj] := tmpc;
    assert out[lo..lo + n] == m[pj := tmps];
    assert cache[co..co + n] == mk[pj := tmpc];
  }

  /** insertion_sort_cache_block: strings and keys sorted by key. */
  method InsertionSortCacheBlock(out: array<Str>, cache: array<Key>, lo: nat, co: nat, n: nat, ghost depth: nat)
    requires lo + n <= out.Length && co + n <= cache.Length
    requires KeysOf(out[lo..lo + n], cache[co..co + n], depth)
    modifies out, cache
    ensures SortedUpTo(cache[co..co + n], n) && KeysOf(out[lo..lo + n], cache[co..co + n], depth)
    ensures multiset(out[lo..lo + n]) == multiset(old(out[lo..lo + n]))
    ensures OutsideKept(old(out[..]), out[..], lo, lo + n) && OutsideKept(old(cache[..]), cache[..], co, co + n)
  {
    hide KeyAt, KeysOf;
    var pi := 1;
    while pi < n
      invariant 1 <= pi && SortedUpTo(cache[co..co + n], if pi <= n then pi else n)
      invariant KeysOf(out[lo..lo + n], cache[co..co + n], depth)
      invariant multiset(out[lo..lo + n]) == multiset(old(out[lo..lo + n]))
      invariant OutsideKept(old(out[..]), out[..], lo, lo + n) && OutsideKept(old(cache[..]), cache[..], co, co + n)
    {
      InsertByKey(out, cache, lo, co, n, pi, depth);
      pi := pi + 1;
    }
  }

  // ---- groups of equal keys ----------------------------------------------------------

  /** The strings are sorted by key; the groups in front of start are completely sorted,
      with their LCPs and those of the borders between them. */
  ghost predicate Groups(q: seq<Str>, o0: Output, o: Output, lo: nat, n: nat, start: nat, k: seq<Key>, depth: nat) {
    && PartsDone(q, o0, o, lo, start, n, {}) && SortedUpTo(k, n) && lo + n <= |o.str| == |q| && o.Covers(lo + n)
    && KeysOf(o.str[lo..lo + n], k, depth) && CommonPrefix(o.str[lo..lo + n], depth)
    && o.str[lo + start..lo + n] == q[lo + start..lo + n]
  }

  ghost predicate IsGroup(k: seq<Key>, start: nat, size: nat, key: Key) {
    && size > 0 && start + size <= |k| && (forall p :: start <= p < start + size ==> k[p] == key)
    && (start > 0 ==> k[start - 1] < key)
  }

  /** The border entry in front of the group, written before the group is sorted. */
  ghost predicate BorderSet(o: Output, lo: nat, start: nat, k: seq<Key>, depth: nat)
    requires start < |k|
  {
    start > 0 ==>
      var rlcp := LcpKeyType(k[start - 1], k[start]);
      && rlcp < KEY_BYTES && o.Covers(lo + start + 1)
      && o.lcp[lo + start] == depth + rlcp && o.chr[lo + start] == GetCharAtDepth(k[start], rlcp)
  }

  lemma BorderWritten(q: seq<Str>, o0: Output, o: Output, o': Output, lo: nat, n: nat, start: nat, k: seq<Key>, depth: nat,
                      v: nat, c: Byte)
    requires Groups(q, o0, o, lo, n, start, k, depth) && 0 < start < n
    requires o' == o.(lcp := o.lcp[lo + start := v], chr := o.chr[lo + start := c])
    ensures Groups(q, o0, o', lo, n, start, k, depth)
  {
    hide KeysOf, CommonPrefix, SortedUpTo, Leq, Lcp, At;
    forall i | lo < i < lo + start ensures ExactAt(o', i) {
      assert ExactAt(o, i);
    }
  }

  lemma GroupPrefix(o: Output, lo: nat, n: nat, start: nat, size: nat, k: seq<Key>, depth: nat, key: Key)
    requires lo + n <= |o.str| && KeysOf(o.str[lo..lo + n], k, depth) && CommonPrefix(o.str[lo..lo + n], depth)
    requires IsGroup(k, start, size, key)
    ensures CommonPrefix(o.str[lo + start..lo + start + size], depth)
    ensures AllHaveKey(o.str[lo + start..lo + start + size], depth, key)
  {
    hide KeyAt;
    var q, r := o.str[lo..lo + n], o.str[lo + start..lo + start + size];
    assert forall i :: 0 <= i < size ==> r[i] == q[start + i];
    forall i | 0 <= i < |r| ensures KeyAt(r[i], depth) == key {
      assert k[start + i] == KeyAt(q[start + i], depth);
    }
  }

  /** Sorting one group leaves every position with its key. */
  lemma GroupKeysKept(q: seq<Str>, q': seq<Str>, lo: nat, n: nat, start: nat, size: nat, k: seq<Key>, depth: nat, key: Key)
    requires lo + n <= |q| && KeysOf(q[lo..lo + n], k, depth) && CommonPrefix(q[lo..lo + n], depth)
    requires IsGroup(k, start, size, key) && AllHaveKey(q[lo + start..lo + start + size], depth, key)
    requires SameStrings(q, q', lo + start, size) && OutsideKept(q, q', lo + start, lo + start + size)
    ensures KeysOf(q'[lo..lo + n], k, depth) && CommonPrefix(q'[lo..lo + n], depth)
  {
    hide KeyAt;
    PartSameWhole(q, q', lo, n, lo + start, size);
    PrefixSurvives(q[lo..lo + n], q'[lo..lo + n], depth);
    var r, r' := q[lo + start..lo + start + size], q'[lo + start..lo + start + size];
    forall p | 0 <= p < n ensures k[p] == KeyAt(q'[lo + p], depth) {
      if start <= p < start + size {
        assert r'[p - start] == q'[lo + p];
        SameElements(r, r', r'[p - start]);
      } else {
        assert q[lo..lo + n][p] == q[lo + p] == q'[lo + p];
      }
    }
  }

  lemma BorderExact(o: Output, lo: nat, n: nat, start: nat, k: seq<Key>, depth: nat)
    requires o.Covers(lo + n) && KeysOf(o.str[lo..lo + n], k, depth) && CommonPrefix(o.str[lo..lo + n], depth)
    requires 0 < start < n && k[start - 1] < k[start] && BorderSet(o, lo, start, k, depth)
    ensures ExactAt(o, lo + start)
  {
    hide KeyAt, Leq, Lcp, LcpKeyType, GetCharAtDepth;
    var q := o.str[lo..lo + n];
    assert q[start - 1] == o.str[lo + start - 1] && q[start] == o.str[lo + start];
    assert SamePrefix(q[start - 1], q[start], depth);
    Boundary(q[start - 1], q[start], depth);
  }

  lemma BorderClosed(q: seq<Str>, o0: Output, o: Output, lo: nat, a: nat, n: nat, k: nat)
    requires PartsDone(q, o0, o, lo, a, n, {} + {k}) && (lo < k < lo + a ==> ExactAt(o, k))
    ensures PartsDone(q, o0, o, lo, a, n, {})
  {
    hide ExactAt, WroteOnly, SameStrings;
  }

  lemma BorderSurvives(o: Output, o': Output, lo: nat, start: nat, size: nat, k: seq<Key>, depth: nat)
    requires start < |k| && BorderSet(o, lo, start, k, depth) && WroteOnly(o, o', lo + start, size)
    ensures BorderSet(o', lo, start, k, depth)
  {
  }

  lemma GroupDone(q: seq<Str>, o0: Output, o: Output, o': Output, lo: nat, n: nat, start: nat, size: nat,
                  k: seq<Key>, depth: nat, key: Key)
    requires Groups(q, o0, o, lo, n, start, k, depth) && IsGroup(k, start, size, key) && start + size <= n
    requires LcpSorted(o.str, o, o', lo + start, size) && BorderSet(o, lo, start, k, depth)
    ensures Groups(q, o0, o', lo, n, start + size, k, depth)
  {
    hide KeysOf, CommonPrefix, PartsDone, Delivered, BorderSet, IsGroup, SortedUpTo, AllHaveKey, ExactAt;
    GroupPrefix(o, lo, n, start, size, k, depth, key);
    GroupKeysKept(o.str, o'.str, lo, n, start, size, k, depth, key);
    SliceOf(o.str, q, lo + start, lo + start + size, lo + n);
    OneMorePart(q, o.str, o0, o, o', lo, start, size, n, {});
    GroupKeys(k, start, size, key);
    BorderSurvives(o, o', lo, start, size, k, depth);
    if start > 0 { BorderExact(o', lo, n, start, k, depth); }
    BorderClosed(q, o0, o', lo, start + size, n, lo + start);
    SliceKept(o.str, o'.str, lo + start + size, lo + n, lo + start, lo + start + size);
    SliceOf(o.str, q, lo + start, lo + start + size, lo + n);
  }

  lemma GroupKeys(k: seq<Key>, start: nat, size: nat, key: Key)
    requires IsGroup(k, start, size, key)
    ensures size > 0 && start < |k| && k[start] == key && (start > 0 ==> k[start - 1] < k[start])
  {
  }

  lemma SliceOf(q: seq<Str>, r: seq<Str>, x: nat, y: nat, z: nat)
    requires x <= y <= z <= |q| == |r| && q[x..z] == r[x..z]
    ensures q[x..y] == r[x..y] && q[y..z] == r[y..z]
  {
    assert q[x..y] == q[x..z][..y - x] && r[x..y] == r[x..z][..y - x];
    assert q[y..z] == q[x..z][y - x..] && r[y..z] == r[x..z][y - x..];
  }

  lemma SliceKept(q: seq<Str>, q': seq<Str>, x: nat, y: nat, a: nat, b: nat)
    requires OutsideKept(q, q', a, b) && x <= y <= |q| && (y <= a || b <= x)
    ensures q'[x..y] == q[x..y]
  {
  }

  lemma SingleSorted(o: Output, lo: nat, n: nat)
    requires n <= 1 && o.Covers(lo + n)
    ensures LcpSorted(o.str, o, o, lo, n)
  {
  }

  lemma FilledSorted(o: Output, o': Output, lo: nat, n: nat)
    requires o'.str == o.str && WroteOnly(o, o', lo, n) && Delivered(o', lo, n, {})
    ensures LcpSorted(o.str, o, o', lo, n)
  {
  }

  /** Sort the strings of one key: deeper if the key is full, not at all if it holds the terminator. */
  method SortEqual(out: array<Str>, lcp: array<nat>, chr: array<Byte>, lo: nat, n: nat, depth: nat, key: Key)
    requires lo + n <= out.Length && lo + n <= lcp.Length && lo + n <= chr.Length
    requires CommonPrefix(out[lo..lo + n], depth) && AllHaveKey(out[lo..lo + n], depth, key)
    modifies out, lcp, chr
    ensures LcpSorted(old(out[..]), old(OutputOf(out, lcp, chr)), OutputOf(out, lcp, chr), lo, n)
  {
    ghost var o := OutputOf(out, lcp, chr);
    hide KeyAt, LcpSorted, LcpKeyDepth, WroteOnly, Delivered, CommonPrefix, AllHaveKey;
    if n > 1 {
      EqualKeys(out[lo..lo + n], depth, key);
      if key % 256 != 0 {
        LcpInssort(out, lcp, chr, lo, n, depth + KEY_BYTES);
      } else {
        assert forall p :: lo <= p < lo + n ==> out[p] == out[lo..lo + n][p - lo];
        FillLcp(out, lcp, chr, lo, n, depth + LcpKeyDepth(key));
        FilledSorted(o, OutputOf(out, lcp, chr), lo, n);
      }
    } else {
      SingleSorted(o, lo, n);
    }
  }

  lemma GroupsFacts(q: seq<Str>, o0: Output, o: Output, lo: nat, n: nat, start: nat, k: seq<Key>, depth: nat)
    requires Groups(q, o0, o, lo, n, start, k, depth)
    ensures lo + n <= |o.str| && lo + n <= |o.lcp| && lo + n <= |o.chr|
    ensures KeysOf(o.str[lo..lo + n], k, depth) && CommonPrefix(o.str[lo..lo + n], depth)
  {
  }

  lemma BorderNow(o: Output, lo: nat, start: nat, k: seq<Key>, depth: nat)
    requires start < |k|
    requires start > 0 ==>
               && lo + start < |o.str| && lo + start < |o.lcp| && lo + start < |o.chr| && k[start - 1] != k[start]
               && o.lcp[lo + start] == depth + LcpKeyType(k[start - 1], k[start])
               && LcpKeyType(k[start - 1], k[start]) < KEY_BYTES
               && o.chr[lo + start] == GetCharAtDepth(k[start], LcpKeyType(k[start - 1], k[start]))
    ensures BorderSet(o, lo, start, k, depth)
  {
  }

  /** Border entry, then the group itself. */
  method SortGroup(out: array<Str>, lcp: array<nat>, chr: array<Byte>, lo: nat, n: nat, start: nat, size: nat,
                   prevkey: Key, key: Key, depth: nat, ghost q: seq<Str>, ghost o0: Output, ghost k: seq<Key>)
    requires Groups(q, o0, OutputOf(out, lcp, chr), lo, n, start, k, depth)
    requires IsGroup(k, start, size, key) && start + size <= n && |k| == n
    requires start > 0 ==> prevkey == k[start - 1]
    modifies out, lcp, chr
    ensures Groups(q, o0, OutputOf(out, lcp, chr), lo, n, start + size, k, depth)
  {
    hide KeyAt, Groups, KeysOf, IsGroup, LcpSorted, CommonPrefix, AllHaveKey, BorderSet, LcpKeyType, GetCharAtDepth;
    ghost var o := OutputOf(out, lcp, chr);
    GroupsFacts(q, o0, o, lo, n, start, k, depth);
    GroupKeys(k, start, size, key);
    if start != 0 {
      LcpOfDifferentKeys(prevkey, key);
      var rlcp := LcpKeyType(prevkey, key);
      lcp[lo + start] := depth + rlcp;
      chr[lo + start] := GetCharAtDepth(key, rlcp);
      BorderWritten(q, o0, o, OutputOf(out, lcp, chr), lo, n, start, k, depth, depth + rlcp, GetCharAtDepth(key, rlcp));
    }
    ghost var o1 := OutputOf(out, lcp, chr);
    BorderNow(o1, lo, start, k, depth);
    GroupPrefix(o, lo, n, start, size, k, depth, key);
    assert out[lo + start..lo + start + size] == o.str[lo + start..lo + start + size];
    SortEqual(out, lcp, chr, lo + start, size, depth, key);
    GroupDone(q, o0, o1, OutputOf(out, lcp, chr), lo, n, start, size, k, depth, key);
  }

  /** Entries start..i + 1 carry the key of start. */
  lemma GroupGrows(k: seq<Key>, start: nat, i: nat)
    requires start <= i && i + 1 < |k| && IsGroup(k, start, i + 1 - start, k[start]) && k[i] == k[i + 1]
    ensures IsGroup(k, start, i + 2 - start, k[start])
  {
  }

  lemma GroupEnds(k: seq<Key>, start: nat, i: nat)
    requires start <= i && i + 1 < |k| && IsGroup(k, start, i + 1 - start, k[start]) && k[i] != k[i + 1]
    requires SortedUpTo(k, |k|)
    ensures IsGroup(k, i + 1, 1, k[i + 1])
  {
  }

  /** The loop over the sorted keys. */
  method SortGroups(out: array<Str>, lcp: array<nat>, chr: array<Byte>, cache: array<Key>, lo: nat, co: nat, n: nat,
                    depth: nat, ghost q: seq<Str>, ghost o0: Output)
    requires co + n <= cache.Length && n > 1
    requires Groups(q, o0, OutputOf(out, lcp, chr), lo, n, 0, cache[co..co + n], depth)
    modifies out, lcp, chr
    ensures Groups(q, o0, OutputOf(out, lcp, chr), lo, n, n, cache[co..co + n], depth)
  {
    hide *;
    FirstGroup(q, o0, OutputOf(out, lcp, chr), lo, n, cache[co..co + n], depth);
    var start: nat, bktsize: nat := 0, 1;
    for i := 0 to n - 1
      invariant start + bktsize == i + 1 && start <= i
      invariant InGroup(q, o0, OutputOf(out, lcp, chr), lo, n, start, bktsize, cache[co..co + n], depth)
    {
      start, bktsize := NextKey(out, lcp, chr, cache, lo, co, n, i, start, bktsize, depth, q, o0);
    }
    LastGroup(q, o0, OutputOf(out, lcp, chr), lo, n, start, bktsize, cache[co..co + n], depth);
    FinishGroup(out, lcp, chr, cache, lo, co, n, start, bktsize, depth, q, o0);
  }

  /** The groups before start are sorted, and the next size strings share their key. */
  ghost predicate InGroup(q: seq<Str>, o0: Output, o: Output, lo: nat, n: nat, start: nat, size: nat, k: seq<Key>, depth: nat) {
    && Groups(q, o0, o, lo, n, start, k, depth) && start < |k| == n && IsGroup(k, start, size, k[start])
  }

  lemma FirstGroup(q: seq<Str>, o0: Output, o: Output, lo: nat, n: nat, k: seq<Key>, depth: nat)
    requires Groups(q, o0, o, lo, n, 0, k, depth) && n == |k| > 0
    ensures InGroup(q, o0, o, lo, n, 0, 1, k, depth)
  {
  }

  lemma LastGroup(q: seq<Str>, o0: Output, o: Output, lo: nat, n: nat, start: nat, size: nat, k: seq<Key>, depth: nat)
    requires InGroup(q, o0, o, lo, n, start, size, k, depth)
    ensures Groups(q, o0, o, lo, n, start, k, depth) && start < |k| == n && IsGroup(k, start, size, k[start]) && SortedUpTo(k, n)
  {
  }

  lemma GroupAgain(q: seq<Str>, o0: Output, o: Output, lo: nat, n: nat, start: nat, size: nat, k: seq<Key>, depth: nat)
    requires Groups(q, o0, o, lo, n, start, k, depth) && start < |k| == n && IsGroup(k, start, size, k[start])
    ensures InGroup(q, o0, o, lo, n, start, size, k, depth)
  {
  }

  /** Compare neighbouring keys: the group grows, or it is complete. */
  method NextKey(out: array<Str>, lcp: array<nat>, chr: array<Byte>, cache: array<Key>, lo: nat, co: nat, n: nat,
                 i: nat, start: nat, bktsize: nat, depth: nat, ghost q: seq<Str>, ghost o0: Output)
    returns (start': nat, bktsize': nat)
    requires co + n <= cache.Length && i + 1 < n && start + bktsize == i + 1 && start <= i
    requires InGroup(q, o0, OutputOf(out, lcp, chr), lo, n, start, bktsize, cache[co..co + n], depth)
    modifies out, lcp, chr
    ensures start' + bktsize' == i + 2 && start' <= i + 1
    ensures InGroup(q, o0, OutputOf(out, lcp, chr), lo, n, start', bktsize', cache[co..co + n], depth)
  {
    hide *;
    ghost var k := cache[co..co + n];
    LastGroup(q, o0, OutputOf(out, lcp, chr), lo, n, start, bktsize, k, depth);
    assert k[i] == cache[co + i] && k[i + 1] == cache[co + i + 1];
    if cache[co + i] == cache[co + i + 1] {
      GroupGrows(k, start, i);
      start', bktsize' := start, bktsize + 1;
    } else {
      GroupEnds(k, start, i);
      FinishGroup(out, lcp, chr, cache, lo, co, n, start, bktsize, depth, q, o0);
      start', bktsize' := i + 1, 1;
    }
    GroupAgain(q, o0, OutputOf(out, lcp, chr), lo, n, start', bktsize', k, depth);
  }

  method FinishGroup(out: array<Str>, lcp: array<nat>, chr: array<Byte>, cache: array<Key>, lo: nat, co: nat, n: nat,
                     start: nat, size: nat, depth: nat, ghost q: seq<Str>, ghost o0: Output)
    requires co + n <= cache.Length && start < n && start + size <= n
    requires Groups(q, o0, OutputOf(out, lcp, chr), lo, n, start, cache[co..co + n], depth)
    requires IsGroup(cache[co..co + n], start, size, cache[co..co + n][start])
    modifies out, lcp, chr
    ensures Groups(q, o0, OutputOf(out, lcp, chr), lo, n, start + size, cache[co..co + n], depth)
  {
    hide *;
    ghost var k := cache[co..co + n];
    assert k[start] == cache[co + start];
    var prevkey: Key := 0;
    if start > 0 {
      prevkey := cache[co + start - 1];
      assert k[start - 1] == prevkey;
    }
    SortGroup(out, lcp, chr, lo, n, start, size, prevkey, cache[co + start], depth, q, o0, k);
  }

  lemma GroupsStart(q: seq<Str>, o: Output, lo: nat, n: nat, k: seq<Key>, depth: nat)
    requires o.Covers(lo + n) && q == o.str && SortedUpTo(k, n)
    requires KeysOf(o.str[lo..lo + n], k, depth) && CommonPrefix(o.str[lo..lo + n], depth)
    ensures Groups(q, o, o, lo, n, 0, k, depth)
  {
    NoPartsDone(q, o, lo, n);
  }

  lemma GroupsEnd(act0: seq<Str>, q: seq<Str>, ob: Output, o0: Output, o: Output, lo: nat, n: nat, k: seq<Key>, depth: nat)
    requires Groups(q, o0, o, lo, n, n, k, depth) && SameStrings(act0, q, lo, n) && WroteOnly(ob, o0, lo, n)
    ensures LcpSorted(act0, ob, o, lo, n)
  {
    hide KeysOf, CommonPrefix, SortedUpTo, ExactAt;
    AllPartsDone(act0, q, o0, o, lo, n, {});
    WroteOnlyTrans(ob, o0, o, lo, n);
  }

  lemma SortedAfterCopy(act0: seq<Str>, ob: Output, oc: Output, o: Output, lo: nat, n: nat)
    requires lo + n <= |act0| && lo + n <= |oc.str| && oc.str[lo..lo + n] == act0[lo..lo + n]
    requires WroteOnly(ob, oc, lo, n) && LcpSorted(oc.str, oc, o, lo, n)
    ensures LcpSorted(act0, ob, o, lo, n)
  {
    hide Delivered;
    WroteOnlyTrans(ob, oc, o, lo, n);
  }

  lemma EmptySorted(act0: seq<Str>, o: Output, lo: nat)
    requires lo <= |act0| && o.Covers(lo)
    ensures LcpSorted(act0, o, o, lo, 0)
  {
    assert o.str[lo..lo + 0] == act0[lo..lo + 0];
  }

  /** The two branches below copy_back: plain LCP insertion sort, or first by the cached keys. */
  method SortCopied(out: array<Str>, lcp: array<nat>, chr: array<Byte>, cache: array<Key>, lo: nat, co: nat, n: nat,
                    depth: nat, cacheDirty: bool)
    requires lo + n <= out.Length && lo + n <= lcp.Length && lo + n <= chr.Length && co + n <= cache.Length
    requires CommonPrefix(out[lo..lo + n], depth)
    requires cacheDirty || KeysOf(out[lo..lo + n], cache[co..co + n], depth)
    modifies out, lcp, chr, cache
    ensures LcpSorted(old(out[..]), old(OutputOf(out, lcp, chr)), OutputOf(out, lcp, chr), lo, n)
    ensures OutsideKept(old(cache[..]), cache[..], co, co + n)
  {
    ghost var oc := OutputOf(out, lcp, chr);
    hide KeyAt, LcpSorted, Delivered, CommonPrefix, KeysOf, Groups, SortedUpTo;
    if n <= 1 {
      SingleSorted(oc, lo, n);
    } else if cacheDirty {
      LcpInssort(out, lcp, chr, lo, n, depth);
    } else {
      InsertionSortCacheBlock(out, cache, lo, co, n, depth);
      ghost var q, o0 := out[..], OutputOf(out, lcp, chr);
      assert q[lo..lo + n] == out[lo..lo + n] && oc.str[lo..lo + n] == old(out[lo..lo + n]);
      PrefixSurvives(oc.str[lo..lo + n], q[lo..lo + n], depth);
      GroupsStart(q, o0, lo, n, cache[co..co + n], depth);
      SortGroups(out, lcp, chr, cache, lo, co, n, depth, q, o0);
      GroupsEnd(oc.str, q, oc, o0, OutputOf(out, lcp, chr), lo, n, cache[co..co + n], depth);
    }
  }

  method InsertionSortCache(act: array<Str>, out: array<Str>, lcp: array<nat>, chr: array<Byte>, cache: array<Key>,
                            lo: nat, co: nat, n: nat, depth: nat, cacheDirty: bool)
    requires lo + n <= act.Length && lo + n <= out.Length && lo + n <= lcp.Length && lo + n <= chr.Length && co + n <= cache.Length
    requires CommonPrefix(act[lo..lo + n], depth)
    requires cacheDirty || KeysOf(act[lo..lo + n], cache[co..co + n], depth)
    modifies out, lcp, chr, cache
    ensures LcpSorted(old(act[..]), old(OutputOf(out, lcp, chr)), OutputOf(out, lcp, chr), lo, n)
    ensures OutsideKept(old(act[..]), act[..], lo, lo + n) && OutsideKept(old(cache[..]), cache[..], co, co + n)
  {
    hide KeyAt, LcpSorted, Delivered, CommonPrefix, KeysOf;
    ghost var act0, ob := act[..], OutputOf(out, lcp, chr);
    CopyBack(act, out, lo, n);
    ghost var oc := OutputOf(out, lcp, chr);
    assert oc.str[lo..lo + n] == out[lo..lo + n] == act0[lo..lo + n];
    SortCopied(out, lcp, chr, cache, lo, co, n, depth, cacheDirty);
    SortedAfterCopy(act0, ob, oc, OutputOf(out, lcp, chr), lo, n);
    SortedKeeps(act0, ob, OutputOf(out, lcp, chr), lo, n);
  }

  lemma SortedKeeps(act0: seq<Str>, o: Output, o': Output, lo: nat, n: nat)
    requires LcpSorted(act0, o, o', lo, n)
    ensures OutsideKept(o.str, o'.str, lo, lo + n)
  {
  }

  // ---- the three parts -----------------------------------------------------------

  /** What sorting a part needs. */
  ghost predicate Input(act: seq<Str>, cache: seq<Key>, lo: nat, co: nat, n: nat, depth: nat, cacheDirty: bool, maxLen: nat) {
    && lo + n <= |act| && co + n <= |cache|
    && CommonPrefix(act[lo..lo + n], depth) && Bounded(act[lo..lo + n], maxLen)
    && (cacheDirty || KeysOf(act[lo..lo + n], cache[co..co + n], depth))
  }

  /** After partitioning to p, the parts before a are done and the others are untouched. */
  ghost predicate Midway(p: seq<Str>, act: seq<Str>, pk: seq<Key>, cache: seq<Key>, o0: Output, o: Output,
                         lo: nat, co: nat, a: nat, n: nat, open: set<nat>) {
    && PartsDone(p, o0, o, lo, a, n, open) && lo + n <= |p| && co + n <= |pk|
    && OutsideKept(p, act, lo, lo + a) && OutsideKept(pk, cache, co, co + a)
  }

  lemma MidwayStart(p: seq<Str>, pk: seq<Key>, o: Output, lo: nat, co: nat, n: nat)
    requires lo + n <= |p| && co + n <= |pk| && o.Covers(lo + n)
    ensures Midway(p, p, pk, pk, o, o, lo, co, 0, n, {})
  {
    NoPartsDone(p, o, lo, n);
  }

  lemma MidwayStep(p: seq<Str>, act: seq<Str>, act': seq<Str>, pk: seq<Key>, cache: seq<Key>, cache': seq<Key>,
                   o0: Output, o: Output, o': Output, lo: nat, co: nat, a: nat, b: nat, n: nat, open: set<nat>)
    requires Midway(p, act, pk, cache, o0, o, lo, co, a, n, open) && a + b <= n
    requires LcpSorted(act, o, o', lo + a, b)
    requires OutsideKept(act, act', lo + a, lo + a + b) && OutsideKept(cache, cache', co + a, co + a + b)
    ensures Midway(p, act', pk, cache', o0, o', lo, co, a + b, n, open + {lo + a})
  {
    hide LcpSorted, PartsDone;
    assert act[lo + a..lo + a + b] == p[lo + a..lo + a + b];
    OneMorePart(p, act, o0, o, o', lo, a, b, n, open);
  }

  lemma PartInput(p: seq<Str>, act: seq<Str>, pk: seq<Key>, cache: seq<Key>, o0: Output, o: Output,
                  lo: nat, co: nat, a: nat, b: nat, n: nat, open: set<nat>, depth: nat, maxLen: nat)
    requires Midway(p, act, pk, cache, o0, o, lo, co, a, n, open) && a + b <= n
    requires Input(p, pk, lo, co, n, depth, false, maxLen)
    ensures Input(act, cache, lo + a, co + a, b, depth, false, maxLen)
    ensures act[lo + a..lo + a + b] == p[lo + a..lo + a + b]
  {
    hide PartsDone, KeyAt;
    SubSegment(p, lo, lo + n, lo + a, lo + a + b, depth, maxLen);
    assert act[lo + a..lo + a + b] == p[lo + a..lo + a + b];
    var m, k := p[lo..lo + n], pk[co..co + n];
    var r, rk := act[lo + a..lo + a + b], cache[co + a..co + a + b];
    forall i | 0 <= i < |r| ensures rk[i] == KeyAt(r[i], depth) {
      assert k[a + i] == KeyAt(m[a + i], depth);
      assert r[i] == m[a + i] && rk[i] == k[a + i];
    }
  }

  /** The strings of the three parts, by their keys. */
  lemma PartKeys(p: seq<Str>, pk: seq<Key>, lo: nat, co: nat, n: nat, depth: nat, step: MkqsStep, v: Key, maxLt: Key, minGt: Key)
    requires Partitioned(p, pk, lo, co, n, depth, step, v, maxLt, minGt)
    ensures forall i :: lo <= i < lo + step.numLt ==> KeyAt(p[i], depth) <= maxLt
    ensures forall i :: lo + step.numLt <= i < lo + step.numLt + step.numEq ==> KeyAt(p[i], depth) == v
    ensures forall i :: lo + step.numLt + step.numEq <= i < lo + n ==> minGt <= KeyAt(p[i], depth)
    ensures step.numLt > 0 ==> exists i :: lo <= i < lo + step.numLt && KeyAt(p[i], depth) == maxLt
    ensures step.numGt > 0 ==> exists i :: lo + step.numLt + step.numEq <= i < lo + n && KeyAt(p[i], depth) == minGt
    ensures step.numEq > 0
  {
    hide KeyAt, Saved;
    var m, k := p[lo..lo + n], pk[co..co + n];
    forall i | lo <= i < lo + n ensures KeyAt(p[i], depth) == k[i - lo] {
      assert m[i - lo] == p[i];
    }
    if step.numLt > 0 {
      var i :| 0 <= i < step.numLt && i < |k| && k[i] == maxLt;
      assert KeyAt(p[lo + i], depth) == maxLt;
    }
    if step.numGt > 0 {
      var i :| step.numLt + step.numEq <= i < |k| && k[i] == minGt;
      assert KeyAt(p[lo + i], depth) == minGt;
    }
  }

  lemma {:induction false} NeighboursToEnd(o: Output, lo: nat, n: nat, i: nat, j: nat)
    requires Delivered(o, lo, n, {}) && lo <= i <= j < lo + n
    ensures Leq(o.str[i], o.str[j])
    decreases j
  {
    if i == j {
      LeqTotal(o.str[i], o.str[i]);
    } else {
      assert ExactAt(o, j);
      NeighboursToEnd(o, lo, n, i, j - 1);
      hide Leq, Lcp;
      LcpOfThree(o.str[i], o.str[j - 1], o.str[j]);
    }
  }

  /** Sorting puts a string with the largest key last. */
  lemma LastKey(p: seq<Str>, o: Output, o': Output, x: nat, m: nat, depth: nat, max: Key)
    requires LcpSorted(p, o, o', x, m) && m > 0 && CommonPrefix(p[x..x + m], depth)
    requires forall i :: x <= i < x + m ==> KeyAt(p[i], depth) <= max
    requires exists i :: x <= i < x + m && KeyAt(p[i], depth) == max
    ensures KeyAt(o'.str[x + m - 1], depth) == max
  {
    hide KeyAt, Leq, Lcp;
    var r, r' := p[x..x + m], o'.str[x..x + m];
    var i :| x <= i < x + m && KeyAt(p[i], depth) == max;
    assert r[i - x] == p[i];
    SameElements(r', r, p[i]);
    var j :| 0 <= j < |r'| && r'[j] == p[i];
    NeighboursToEnd(o', x, m, x + j, x + m - 1);
    assert r'[m - 1] == o'.str[x + m - 1];
    SameElements(r, r', r'[m - 1]);
    var l :| 0 <= l < |r| && r[l] == r'[m - 1];
    assert KeyAt(p[x + l], depth) <= max;
    assert SamePrefix(r[i - x], r[l], depth);
    if KeyAt(r[l], depth) != max { KeysDiffer(p[i], r[l], depth); }
  }

  /** Sorting puts a string with the smallest key first. */
  lemma FirstKey(p: seq<Str>, o: Output, o': Output, x: nat, m: nat, depth: nat, min: Key)
    requires LcpSorted(p, o, o', x, m) && m > 0 && CommonPrefix(p[x..x + m], depth)
    requires forall i :: x <= i < x + m ==> min <= KeyAt(p[i], depth)
    requires exists i :: x <= i < x + m && KeyAt(p[i], depth) == min
    ensures KeyAt(o'.str[x], depth) == min
  {
    hide KeyAt, Leq, Lcp;
    var r, r' := p[x..x + m], o'.str[x..x + m];
    var i :| x <= i < x + m && KeyAt(p[i], depth) == min;
    assert r[i - x] == p[i];
    SameElements(r', r, p[i]);
    var j :| 0 <= j < |r'| && r'[j] == p[i];
    NeighboursToEnd(o', x, m, x, x + j);
    assert r'[0] == o'.str[x];
    SameElements(r, r', r'[0]);
    var l :| 0 <= l < |r| && r[l] == r'[0];
    assert min <= KeyAt(p[x + l], depth);
    assert SamePrefix(r[l], r[i - x], depth);
    if KeyAt(r[l], depth) != min { KeysDiffer(r[l], p[i], depth); }
  }

  // ---- calculate_lcp -------------------------------------------------------------

  /** The strings next to the two borders carry the keys the step has saved LCPs for. */
  ghost predicate BorderKeys(q: seq<Str>, lo: nat, depth: nat, step: MkqsStep, v: Key, maxLt: Key, minGt: Key) {
    && (step.numLt > 0 ==> && maxLt < v && KeyIs(q, lo + step.numLt - 1, depth, maxLt)
                           && KeyIs(q, lo + step.numLt, depth, v))
    && (step.numGt > 0 ==> && v < minGt && KeyIs(q, lo + step.numLt + step.numEq - 1, depth, v)
                           && KeyIs(q, lo + step.numLt + step.numEq, depth, minGt))
  }

  ghost function Open(lo: nat, step: MkqsStep): set<nat> {
    {lo, lo + step.numLt, lo + step.numLt + step.numEq}
  }

  /** Nothing is owed at the end of the range or at its first position. */
  lemma NothingOwed(o: Output, lo: nat, n: nat, open: set<nat>, k: nat)
    requires Delivered(o, lo, n, open) && (k <= lo || lo + n <= k)
    ensures Delivered(o, lo, n, open - {k})
  {
  }

  /** The border in front of place k, if there are strings on both sides of it. */
  method CloseBorder(out: array<Str>, lcp: array<nat>, chr: array<Byte>, lo: nat, n: nat, depth: nat, k: nat, there: bool,
                     d: nat, c: Byte, ghost a: Key, ghost b: Key, ghost open: set<nat>)
    requires Delivered(OutputOf(out, lcp, chr), lo, n, open) && CommonPrefix(out[lo..lo + n], depth)
    requires if there then lo < k < lo + n && a < b && KeyIs(out[..], k - 1, depth, a) && KeyIs(out[..], k, depth, b)
                           && d == LcpKeyType(a, b) < KEY_BYTES && c == GetCharAtDepth(b, d)
             else k <= lo || lo + n <= k
    modifies lcp, chr
    ensures out[..] == old(out[..]) && WroteOnly(old(OutputOf(out, lcp, chr)), OutputOf(out, lcp, chr), lo, n)
    ensures Delivered(OutputOf(out, lcp, chr), lo, n, open - {k})
  {
    hide KeyIs, CommonPrefix, Delivered, WroteOnly, LcpKeyType, GetCharAtDepth;
    if there {
      SetKeyBoundary(out, lcp, chr, k, depth, d, c, a, b, lo, n, open);
    } else {
      WroteNothing(OutputOf(out, lcp, chr), lo, n);
      NothingOwed(OutputOf(out, lcp, chr), lo, n, open, k);
    }
  }

  lemma RangeFits(o: Output, lo: nat, n: nat, open: set<nat>)
    requires Delivered(o, lo, n, open)
    ensures lo + n <= |o.str|
  {
  }

  method CalculateLcp(out: array<Str>, lcp: array<nat>, chr: array<Byte>, lo: nat, n: nat, depth: nat, step: MkqsStep,
                      ghost v: Key, ghost maxLt: Key, ghost minGt: Key)
    requires n == step.numLt + step.numEq + step.numGt && step.numEq > 0
    requires Delivered(OutputOf(out, lcp, chr), lo, n, Open(lo, step)) && CommonPrefix(out[lo..lo + n], depth)
    requires Saved(step, v, maxLt, minGt) && BorderKeys(out[..], lo, depth, step, v, maxLt, minGt)
    modifies lcp, chr
    ensures out[..] == old(out[..]) && WroteOnly(old(OutputOf(out, lcp, chr)), OutputOf(out, lcp, chr), lo, n)
    ensures Delivered(OutputOf(out, lcp, chr), lo, n, {})
  {
    hide KeyIs, CommonPrefix, Delivered, WroteOnly, LcpKeyType, GetCharAtDepth, LcpKeyDepth;
    ghost var o := OutputOf(out, lcp, chr);
    var less, greater := lo + step.numLt, lo + step.numLt + step.numEq;
    RangeFits(o, lo, n, Open(lo, step));
    CloseBorder(out, lcp, chr, lo, n, depth, less, step.numLt > 0, step.lcpLt, step.dcharEq, maxLt, v, Open(lo, step));
    ghost var o1 := OutputOf(out, lcp, chr);
    assert out[lo..lo + n] == old(out[lo..lo + n]);
    CloseBorder(out, lcp, chr, lo, n, depth, greater, step.numGt > 0, step.lcpGt, step.dcharGt, v, minGt, Open(lo, step) - {less});
    WroteOnlyTrans(o, o1, OutputOf(out, lcp, chr), lo, n);
    NothingOwed(OutputOf(out, lcp, chr), lo, n, Open(lo, step) - {less} - {greater}, lo);
    assert Open(lo, step) - {less} - {greater} - {lo} == {};
  }

  // ---- one step with its three sub-sorts ---------------------------------------------

  /** One partition step in flight: strings and keys right after partitioning, the output before,
      and what the step saved. */
  datatype Flight = Flight(p: seq<Str>, pk: seq<Key>, o0: Output, lo: nat, co: nat, n: nat, depth: nat, maxLen: nat,
                           step: MkqsStep, v: Key, maxLt: Key, minGt: Key)

  ghost predicate InFlight(x: Flight) {
    && Partitioned(x.p, x.pk, x.lo, x.co, x.n, x.depth, x.step, x.v, x.maxLt, x.minGt)
    && Input(x.p, x.pk, x.lo, x.co, x.n, x.depth, false, x.maxLen) && x.o0.Covers(x.lo + x.n)
  }

  ghost predicate LtKeys(x: Flight, q: seq<Str>) {
    x.step.numLt > 0 ==> x.maxLt < x.v && KeyIs(q, x.lo + x.step.numLt - 1, x.depth, x.maxLt)
  }

  ghost predicate EqKeys(x: Flight, q: seq<Str>) {
    && KeyIs(q, x.lo + x.step.numLt, x.depth, x.v)
    && KeyIs(q, x.lo + x.step.numLt + x.step.numEq - 1, x.depth, x.v)
  }

  ghost predicate Parts(x: Flight, act: seq<Str>, cache: seq<Key>, o: Output, a: nat, open: set<nat>) {
    Midway(x.p, act, x.pk, cache, x.o0, o, x.lo, x.co, a, x.n, open)
  }

  lemma FlightFacts(x: Flight)
    requires InFlight(x)
    ensures x.n == x.step.numLt + x.step.numEq + x.step.numGt && x.step.numEq > 0
    ensures x.lo + x.n <= |x.p| && x.co + x.n <= |x.pk|
    ensures x.step.numLt > 0 ==> x.maxLt < x.v
    ensures x.step.numGt > 0 ==> x.v < x.minGt
    ensures x.step.eqRecurse <==> x.v % 256 != 0
    ensures x.step.lcpEq == LcpKeyDepth(x.v)
  {
    ThreePartsExtremes(x.pk[x.co..x.co + x.n], x.v, x.step.numLt, x.step.numEq, x.maxLt, x.minGt);
  }

  lemma FlightStart(x: Flight)
    requires InFlight(x)
    ensures Parts(x, x.p, x.pk, x.o0, 0, {})
  {
    MidwayStart(x.p, x.pk, x.o0, x.lo, x.co, x.n);
  }

  /** What the next part needs. */
  lemma NextPart(x: Flight, act: seq<Str>, cache: seq<Key>, o: Output, a: nat, b: nat, open: set<nat>)
    requires InFlight(x) && Parts(x, act, cache, o, a, open) && a + b <= x.n
    ensures Input(act, cache, x.lo + a, x.co + a, b, x.depth, false, x.maxLen)
    ensures act[x.lo + a..x.lo + a + b] == x.p[x.lo + a..x.lo + a + b]
  {
    hide Partitioned;
    PartInput(x.p, act, x.pk, cache, x.o0, o, x.lo, x.co, a, b, x.n, open, x.depth, x.maxLen);
  }

  lemma PartAdded(x: Flight, act: seq<Str>, act': seq<Str>, cache: seq<Key>, cache': seq<Key>, o: Output, o': Output,
                  a: nat, b: nat, open: set<nat>)
    requires Parts(x, act, cache, o, a, open) && a + b <= x.n && LcpSorted(act, o, o', x.lo + a, b)
    requires OutsideKept(act, act', x.lo + a, x.lo + a + b) && OutsideKept(cache, cache', x.co + a, x.co + a + b)
    ensures Parts(x, act', cache', o', a + b, open + {x.lo + a})
  {
    hide LcpSorted, OutsideKept;
    MidwayStep(x.p, act, act', x.pk, cache, cache', x.o0, o, o', x.lo, x.co, a, b, x.n, open);
  }

  /** A slice that equals the partitioned one has its keys. */
  lemma SliceKeys(p: seq<Str>, act: seq<Str>, x: nat, m: nat, depth: nat)
    requires x + m <= |p| && x + m <= |act| && act[x..x + m] == p[x..x + m]
    ensures forall i :: x <= i < x + m ==> act[i] == p[i]
  {
    var r, r' := p[x..x + m], act[x..x + m];
    forall i | x <= i < x + m ensures act[i] == p[i] {
      assert r[i - x] == r'[i - x];
    }
  }

  lemma FlightKeys(x: Flight)
    requires InFlight(x)
    ensures forall i :: x.lo <= i < x.lo + x.step.numLt ==> KeyAt(x.p[i], x.depth) <= x.maxLt
    ensures forall i :: x.lo + x.step.numLt <= i < x.lo + x.step.numLt + x.step.numEq ==> KeyAt(x.p[i], x.depth) == x.v
    ensures forall i :: x.lo + x.step.numLt + x.step.numEq <= i < x.lo + x.n ==> x.minGt <= KeyAt(x.p[i], x.depth)
    ensures x.step.numLt > 0 ==> exists i :: x.lo <= i < x.lo + x.step.numLt && KeyAt(x.p[i], x.depth) == x.maxLt
    ensures x.step.numGt > 0 ==>
              exists i :: x.lo + x.step.numLt + x.step.numEq <= i < x.lo + x.n && KeyAt(x.p[i], x.depth) == x.minGt
  {
    PartKeys(x.p, x.pk, x.lo, x.co, x.n, x.depth, x.step, x.v, x.maxLt, x.minGt);
  }

  lemma LtDone(x: Flight, act: seq<Str>, o: Output, o': Output, y: nat, m: nat)
    requires InFlight(x) && y == x.lo && m == x.step.numLt && LcpSorted(act, o, o', y, m)
    requires y + m <= |x.p| && y + m <= |act| && act[y..y + m] == x.p[y..y + m] && CommonPrefix(act[y..y + m], x.depth)
    ensures LtKeys(x, o'.str)
  {
    hide InFlight, LcpSorted, KeyAt, CommonPrefix, OutsideKept;
    if m > 0 {
      FlightFacts(x);
      FlightKeys(x);
      SortedSize(act, o, o', y, m);
      SliceKeys(x.p, act, y, m, x.depth);
      LastKey(act, o, o', y, m, x.depth, x.maxLt);
    }
  }

  lemma SortedSize(act: seq<Str>, o: Output, o': Output, x: nat, m: nat)
    requires LcpSorted(act, o, o', x, m)
    ensures x + m <= |act| && x + m <= |o'.str|
  {
  }

  lemma EqDone(x: Flight, act: seq<Str>, o: Output, o': Output, y: nat, m: nat)
    requires InFlight(x) && y == x.lo + x.step.numLt && m == x.step.numEq && LcpSorted(act, o, o', y, m)
    requires y + m <= |x.p| && y + m <= |act| && act[y..y + m] == x.p[y..y + m] && CommonPrefix(act[y..y + m], x.depth)
    ensures EqKeys(x, o'.str)
  {
    hide InFlight, LcpSorted, KeyAt, CommonPrefix, OutsideKept;
    FlightFacts(x);
    FlightKeys(x);
    SortedSize(act, o, o', y, m);
    SliceKeys(x.p, act, y, m, x.depth);
    assert KeyAt(act[y], x.depth) == x.v;
    LastKey(act, o, o', y, m, x.depth, x.v);
    FirstKey(act, o, o', y, m, x.depth, x.v);
  }

  lemma GtDone(x: Flight, act: seq<Str>, o: Output, o': Output, y: nat, m: nat)
    requires InFlight(x) && y == x.lo + x.step.numLt + x.step.numEq && m == x.step.numGt > 0 && LcpSorted(act, o, o', y, m)
    requires y + m <= |x.p| && y + m <= |act| && act[y..y + m] == x.p[y..y + m] && CommonPrefix(act[y..y + m], x.depth)
    ensures x.v < x.minGt && KeyIs(o'.str, y, x.depth, x.minGt)
  {
    hide InFlight, LcpSorted, KeyAt, CommonPrefix, OutsideKept;
    FlightFacts(x);
    FlightKeys(x);
    SortedSize(act, o, o', y, m);
    SliceKeys(x.p, act, y, m, x.depth);
    FirstKey(act, o, o', y, m, x.depth, x.minGt);
  }

  lemma KeysKept(x: Flight, o: Output, o': Output, y: nat, m: nat)
    requires WroteOnly(o, o', y, m)
    requires LtKeys(x, o.str) && (x.step.numLt > 0 ==> x.lo + x.step.numLt <= y)
    ensures LtKeys(x, o'.str)
    ensures EqKeys(x, o.str) && 0 < x.step.numEq && x.lo + x.step.numLt + x.step.numEq <= y ==> EqKeys(x, o'.str)
  {
    hide KeyAt;
  }

  /** The strings equal to the pivot share its characters. */
  lemma EqInput(x: Flight, act: seq<Str>, cache: seq<Key>, y: nat, m: nat)
    requires InFlight(x) && y == x.lo + x.step.numLt && m == x.step.numEq
    requires Input(act, cache, y, x.co + x.step.numLt, m, x.depth, false, x.maxLen)
    requires y + m <= |x.p| && y + m <= |act| && act[y..y + m] == x.p[y..y + m]
    ensures AllHaveKey(act[y..y + m], x.depth, x.v)
    ensures x.v % 256 != 0 ==> x.depth + KEY_BYTES <= x.maxLen
    ensures x.v % 256 != 0 ==> Input(act, cache, y, x.co + x.step.numLt, m, x.depth + KEY_BYTES, true, x.maxLen)
  {
    hide InFlight, KeyAt, KeysOf;
    FlightFacts(x);
    FlightKeys(x);
    SliceKeys(x.p, act, y, m, x.depth);
    var r := act[y..y + m];
    forall i | 0 <= i < |r| ensures KeyAt(r[i], x.depth) == x.v {
      assert r[i] == act[y + i];
    }
    EqualKeys(r, x.depth, x.v);
    if x.v % 256 != 0 { assert SamePrefix(r[0], r[0], x.depth + KEY_BYTES); }
  }

  // ---- the algorithm -------------------------------------------------------------------

  ghost function Left(maxLen: nat, depth: nat): nat {
    if depth <= maxLen then maxLen - depth else 0
  }

  /** sort_mkqs_cache, below the explicit stack: one part, by insertion sort or by a further step. */
  method SortPart(act: array<Str>, out: array<Str>, lcp: array<nat>, chr: array<Byte>, cache: array<Key>, lo: nat, co: nat,
                  n: nat, depth: nat, cacheDirty: bool, threshold: nat, ghost maxLen: nat)
    requires threshold >= 3 && lo + n <= act.Length && co + n <= cache.Length
    requires lo + n <= out.Length && lo + n <= lcp.Length && lo + n <= chr.Length
    requires Input(act[..], cache[..], lo, co, n, depth, cacheDirty, maxLen)
    modifies act, out, lcp, chr, cache
    ensures LcpSorted(old(act[..]), old(OutputOf(out, lcp, chr)), OutputOf(out, lcp, chr), lo, n)
    ensures OutsideKept(old(act[..]), act[..], lo, lo + n) && OutsideKept(old(cache[..]), cache[..], co, co + n)
    decreases Left(maxLen, depth), n, 1
  {
    if n < threshold {
      assert act[..][lo..lo + n] == act[lo..lo + n] && cache[..][co..co + n] == cache[co..co + n];
      InsertionSortCache(act, out, lcp, chr, cache, lo, co, n, depth, cacheDirty);
    } else {
      SortStep(act, out, lcp, chr, cache, lo, co, n, depth, cacheDirty, threshold, maxLen);
    }
  }

  /** The flight of the step that sorts these ranges. */
  ghost predicate Flies(x: Flight, lo: nat, co: nat, n: nat, depth: nat, step: MkqsStep, maxLen: nat) {
    InFlight(x) && x.lo == lo && x.co == co && x.n == n && x.depth == depth && x.step == step && x.maxLen == maxLen
  }

  /** What partitioning has changed. */
  ghost predicate Started(act0: seq<Str>, cache0: seq<Key>, ob: Output, x: Flight) {
    && SameStrings(act0, x.p, x.lo, x.n) && OutsideKept(act0, x.p, x.lo, x.lo + x.n)
    && OutsideKept(cache0, x.pk, x.co, x.co + x.n) && WroteOnly(ob, x.o0, x.lo, x.n)
  }

  ghost predicate Stage1(x: Flight, act: seq<Str>, cache: seq<Key>, o: Output) {
    Parts(x, act, cache, o, x.step.numLt, {x.lo}) && LtKeys(x, o.str)
  }

  ghost predicate Stage2(x: Flight, act: seq<Str>, cache: seq<Key>, o: Output) {
    && Parts(x, act, cache, o, x.step.numLt + x.step.numEq, {x.lo, x.lo + x.step.numLt})
    && LtKeys(x, o.str) && EqKeys(x, o.str)
  }

  ghost predicate Stage3(x: Flight, act: seq<Str>, cache: seq<Key>, o: Output) {
    && Parts(x, act, cache, o, x.n, Open(x.lo, x.step))
    && BorderKeys(o.str, x.lo, x.depth, x.step, x.v, x.maxLt, x.minGt)
  }

  /** Partition, then sort the smaller, the equal and the larger strings, then the borders. */
  method SortStep(act: array<Str>, out: array<Str>, lcp: array<nat>, chr: array<Byte>, cache: array<Key>, lo: nat, co: nat,
                  n: nat, depth: nat, cacheDirty: bool, threshold: nat, ghost maxLen: nat)
    requires 3 <= threshold <= n && lo + n <= act.Length && co + n <= cache.Length
    requires lo + n <= out.Length && lo + n <= lcp.Length && lo + n <= chr.Length
    requires Input(act[..], cache[..], lo, co, n, depth, cacheDirty, maxLen)
    modifies act, out, lcp, chr, cache
    ensures LcpSorted(old(act[..]), old(OutputOf(out, lcp, chr)), OutputOf(out, lcp, chr), lo, n)
    ensures OutsideKept(old(act[..]), act[..], lo, lo + n) && OutsideKept(old(cache[..]), cache[..], co, co + n)
    decreases Left(maxLen, depth), n, 0, 1
  {
    hide *;
    ghost var act0, cache0, ob := act[..], cache[..], OutputOf(out, lcp, chr);
    var step;
    ghost var x;
    step, x := Partition(act, out, lcp, chr, cache, lo, co, n, depth, cacheDirty, maxLen);
    SortLt(act, out, lcp, chr, cache, lo, co, n, depth, step, threshold, maxLen, x);
    SortEq(act, out, lcp, chr, cache, lo, co, n, depth, step, threshold, maxLen, x);
    SortGt(act, out, lcp, chr, cache, lo, co, n, depth, step, threshold, maxLen, x);
    FinishStep(act, out, lcp, chr, cache, lo, co, n, depth, step, maxLen, x, act0, cache0, ob);
  }

  method Partition(act: array<Str>, out: array<Str>, lcp: array<nat>, chr: array<Byte>, cache: array<Key>, lo: nat, co: nat,
                   n: nat, depth: nat, cacheDirty: bool, ghost maxLen: nat) returns (step: MkqsStep, ghost x: Flight)
    requires n >= 3 && lo + n <= act.Length && co + n <= cache.Length
    requires lo + n <= out.Length && lo + n <= lcp.Length && lo + n <= chr.Length
    requires Input(act[..], cache[..], lo, co, n, depth, cacheDirty, maxLen)
    modifies act, cache
    ensures Flies(x, lo, co, n, depth, step, maxLen)
    ensures Parts(x, act[..], cache[..], OutputOf(out, lcp, chr), 0, {})
    ensures Started(old(act[..]), old(cache[..]), old(OutputOf(out, lcp, chr)), x)
  {
    hide Partitioned, KeysOf, CommonPrefix, Bounded, Parts, KeyAt, Saved;
    ghost var act0, ob := act[..], OutputOf(out, lcp, chr);
    assert act0[lo..lo + n] == act[lo..lo + n] && cache[..][co..co + n] == cache[co..co + n];
    ghost var v, maxLt, minGt;
    step, v, maxLt, minGt := NewStep(act, cache, lo, co, n, depth, cacheDirty);
    x := Flight(act[..], cache[..], OutputOf(out, lcp, chr), lo, co, n, depth, maxLen, step, v, maxLt, minGt);
    StillInput(act0, x.p, x.pk, lo, co, n, depth, maxLen, step, v, maxLt, minGt);
    FlightStart(x);
  }

  lemma StillInput(act0: seq<Str>, p: seq<Str>, pk: seq<Key>, lo: nat, co: nat, n: nat, depth: nat, maxLen: nat,
                   step: MkqsStep, v: Key, maxLt: Key, minGt: Key)
    requires SameStrings(act0, p, lo, n) && CommonPrefix(act0[lo..lo + n], depth) && Bounded(act0[lo..lo + n], maxLen)
    requires Partitioned(p, pk, lo, co, n, depth, step, v, maxLt, minGt)
    ensures Input(p, pk, lo, co, n, depth, false, maxLen)
  {
    PrefixSurvives(act0[lo..lo + n], p[lo..lo + n], depth);
    BoundSurvives(act0[lo..lo + n], p[lo..lo + n], maxLen);
  }

  lemma FlightInput(x: Flight, act: seq<Str>, cache: seq<Key>, o: Output, a: nat, b: nat, open: set<nat>)
    requires InFlight(x) && Parts(x, act, cache, o, a, open) && a + b <= x.n
    ensures Input(act, cache, x.lo + a, x.co + a, b, x.depth, false, x.maxLen)
    ensures x.lo + a + b <= |x.p| && x.lo + a + b <= |act| && x.co + a + b <= |cache| && o.Covers(x.lo + a + b)
    ensures act[x.lo + a..x.lo + a + b] == x.p[x.lo + a..x.lo + a + b]
    ensures CommonPrefix(act[x.lo + a..x.lo + a + b], x.depth)
  {
    NextPart(x, act, cache, o, a, b, open);
    hide Partitioned, Delivered, SameStrings, CommonPrefix, Bounded, KeysOf;
  }

  lemma LtStage(x: Flight, act: seq<Str>, act': seq<Str>, cache: seq<Key>, cache': seq<Key>, o: Output, o': Output)
    requires InFlight(x) && Parts(x, act, cache, o, 0, {}) && LcpSorted(act, o, o', x.lo, x.step.numLt)
    requires OutsideKept(act, act', x.lo, x.lo + x.step.numLt) && OutsideKept(cache, cache', x.co, x.co + x.step.numLt)
    ensures Stage1(x, act', cache', o')
  {
    hide InFlight, Parts, LcpSorted, OutsideKept, LtKeys;
    FlightFacts(x);
    FlightInput(x, act, cache, o, 0, x.step.numLt, {});
    LtDone(x, act, o, o', x.lo, x.step.numLt);
    PartAdded(x, act, act', cache, cache', o, o', 0, x.step.numLt, {});
    assert {} + {x.lo + 0} == {x.lo};
  }

  lemma EqStage(x: Flight, act: seq<Str>, act': seq<Str>, cache: seq<Key>, cache': seq<Key>, o: Output, o': Output, y: nat, m: nat)
    requires InFlight(x) && Stage1(x, act, cache, o) && y == x.lo + x.step.numLt && m == x.step.numEq
    requires LcpSorted(act, o, o', y, m) && OutsideKept(act, act', y, y + m)
    requires OutsideKept(cache, cache', x.co + x.step.numLt, x.co + x.step.numLt + m)
    ensures Stage2(x, act', cache', o')
  {
    hide InFlight, Parts, LcpSorted, OutsideKept, LtKeys, EqKeys;
    var a := x.step.numLt;
    FlightFacts(x);
    FlightInput(x, act, cache, o, a, m, {x.lo});
    EqDone(x, act, o, o', y, m);
    SortedWrote(act, o, o', y, m);
    KeysKept(x, o, o', y, m);
    PartAdded(x, act, act', cache, cache', o, o', a, m, {x.lo});
    assert {x.lo} + {x.lo + a} == {x.lo, x.lo + a};
  }

  lemma SortedWrote(act: seq<Str>, o: Output, o': Output, y: nat, m: nat)
    requires LcpSorted(act, o, o', y, m)
    ensures WroteOnly(o, o', y, m)
  {
  }

  lemma GtStage(x: Flight, act: seq<Str>, act': seq<Str>, cache: seq<Key>, cache': seq<Key>, o: Output, o': Output, y: nat, m: nat)
    requires InFlight(x) && Stage2(x, act, cache, o) && y == x.lo + x.step.numLt + x.step.numEq && m == x.step.numGt
    requires LcpSorted(act, o, o', y, m) && OutsideKept(act, act', y, y + m)
    requires OutsideKept(cache, cache', x.co + x.step.numLt + x.step.numEq, x.co + x.n)
    ensures Stage3(x, act', cache', o')
  {
    hide InFlight, Parts, LcpSorted, OutsideKept, KeyIs;
    var a := x.step.numLt + x.step.numEq;
    FlightFacts(x);
    FlightInput(x, act, cache, o, a, m, {x.lo, x.lo + x.step.numLt});
    if m > 0 { GtDone(x, act, o, o', y, m); }
    SortedWrote(act, o, o', y, m);
    KeysKept(x, o, o', y, m);
    PartAdded(x, act, act', cache, cache', o, o', a, m, {x.lo, x.lo + x.step.numLt});
    assert {x.lo, x.lo + x.step.numLt} + {x.lo + a} == Open(x.lo, x.step);
  }

  lemma FliesFacts(x: Flight, lo: nat, co: nat, n: nat, depth: nat, step: MkqsStep, maxLen: nat)
    requires Flies(x, lo, co, n, depth, step, maxLen)
    ensures InFlight(x) && x.lo == lo && x.co == co && x.n == n && x.depth == depth && x.step == step && x.maxLen == maxLen
    ensures n == step.numLt + step.numEq + step.numGt && step.numEq > 0
    ensures step.eqRecurse <==> x.v % 256 != 0
    ensures step.lcpEq == LcpKeyDepth(x.v)
  {
    FlightFacts(x);
  }

  lemma Stage1Parts(x: Flight, act: seq<Str>, cache: seq<Key>, o: Output)
    requires Stage1(x, act, cache, o)
    ensures Parts(x, act, cache, o, x.step.numLt, {x.lo})
  {
  }

  lemma Stage2Parts(x: Flight, act: seq<Str>, cache: seq<Key>, o: Output)
    requires Stage2(x, act, cache, o)
    ensures Parts(x, act, cache, o, x.step.numLt + x.step.numEq, {x.lo, x.lo + x.step.numLt})
  {
  }

  lemma DeeperLeft(maxLen: nat, depth: nat)
    requires depth + KEY_BYTES <= maxLen
    ensures Left(maxLen, depth + KEY_BYTES) < Left(maxLen, depth) && KEY_BYTES >= 0
  {
  }

  method SortLt(act: array<Str>, out: array<Str>, lcp: array<nat>, chr: array<Byte>, cache: array<Key>, lo: nat, co: nat,
                n: nat, depth: nat, step: MkqsStep, threshold: nat, ghost maxLen: nat, ghost x: Flight)
    requires threshold >= 3 && lo + n <= act.Length && co + n <= cache.Length
    requires lo + n <= out.Length && lo + n <= lcp.Length && lo + n <= chr.Length
    requires Flies(x, lo, co, n, depth, step, maxLen)
    requires Parts(x, act[..], cache[..], OutputOf(out, lcp, chr), 0, {})
    modifies act, out, lcp, chr, cache
    ensures Stage1(x, act[..], cache[..], OutputOf(out, lcp, chr))
    decreases Left(maxLen, depth), n, 0, 0
  {
    hide *;
    ghost var act0, cache0, o := act[..], cache[..], OutputOf(out, lcp, chr);
    FliesFacts(x, lo, co, n, depth, step, maxLen);
    FlightInput(x, act[..], cache[..], o, 0, step.numLt, {});
    SortPart(act, out, lcp, chr, cache, lo, co, step.numLt, depth, false, threshold, maxLen);
    LtStage(x, act0, act[..], cache0, cache[..], o, OutputOf(out, lcp, chr));
  }

  method SortEq(act: array<Str>, out: array<Str>, lcp: array<nat>, chr: array<Byte>, cache: array<Key>, lo: nat, co: nat,
                n: nat, depth: nat, step: MkqsStep, threshold: nat, ghost maxLen: nat, ghost x: Flight)
    requires threshold >= 3 && lo + n <= act.Length && co + n <= cache.Length
    requires lo + n <= out.Length && lo + n <= lcp.Length && lo + n <= chr.Length
    requires Flies(x, lo, co, n, depth, step, maxLen)
    requires Stage1(x, act[..], cache[..], OutputOf(out, lcp, chr))
    modifies act, out, lcp, chr, cache
    ensures Stage2(x, act[..], cache[..], OutputOf(out, lcp, chr))
    decreases Left(maxLen, depth), n, 0, 0
  {
    hide *;
    ghost var act0, cache0, o := act[..], cache[..], OutputOf(out, lcp, chr);
    FliesFacts(x, lo, co, n, depth, step, maxLen);
    Stage1Parts(x, act[..], cache[..], o);
    FlightInput(x, act[..], cache[..], o, step.numLt, step.numEq, {lo});
    EqInput(x, act[..], cache[..], lo + step.numLt, step.numEq);
    if step.eqRecurse {
      DeeperLeft(maxLen, depth);
      SortPart(act, out, lcp, chr, cache, lo + step.numLt, co + step.numLt, step.numEq, depth + KEY_BYTES, true, threshold, maxLen);
    } else {
      FillEqual(act, out, lcp, chr, lo + step.numLt, step.numEq, depth, step.lcpEq, x.v);
      SameKept(cache[..], co + step.numLt, co + step.numLt + step.numEq);
    }
    EqStage(x, act0, act[..], cache0, cache[..], o, OutputOf(out, lcp, chr), lo + step.numLt, step.numEq);
  }

  lemma SameKept<T>(s: seq<T>, x: nat, y: nat)
    ensures OutsideKept(s, s, x, y)
  {
  }

  /** Equal strings only have to be copied back, with their common length as LCP. */
  method FillEqual(act: array<Str>, out: array<Str>, lcp: array<nat>, chr: array<Byte>, lo: nat, n: nat, depth: nat,
                   lcpEq: nat, ghost v: Key)
    requires lo + n <= act.Length && lo + n <= out.Length && lo + n <= lcp.Length && lo + n <= chr.Length
    requires CommonPrefix(act[..][lo..lo + n], depth) && AllHaveKey(act[..][lo..lo + n], depth, v) && v % 256 == 0
    requires lcpEq == LcpKeyDepth(v)
    modifies out, lcp, chr
    ensures LcpSorted(old(act[..]), old(OutputOf(out, lcp, chr)), OutputOf(out, lcp, chr), lo, n)
    ensures OutsideKept(old(act[..]), act[..], lo, lo + n)
  {
    hide KeyAt, LcpSorted, Delivered, LcpKeyDepth, CommonPrefix, AllHaveKey;
    ghost var act0, ob := act[..], OutputOf(out, lcp, chr);
    EqualKeys(act[..][lo..lo + n], depth, v);
    CopyBack(act, out, lo, n);
    ghost var oc := OutputOf(out, lcp, chr);
    assert oc.str[lo..lo + n] == out[lo..lo + n] == act0[lo..lo + n];
    assert forall p :: lo <= p < lo + n ==> out[p] == out[lo..lo + n][p - lo];
    FillLcp(out, lcp, chr, lo, n, depth + lcpEq);
    FilledSorted(oc, OutputOf(out, lcp, chr), lo, n);
    SortedAfterCopy(act0, ob, oc, OutputOf(out, lcp, chr), lo, n);
    SortedKeeps(act0, ob, OutputOf(out, lcp, chr), lo, n);
  }

  method SortGt(act: array<Str>, out: array<Str>, lcp: array<nat>, chr: array<Byte>, cache: array<Key>, lo: nat, co: nat,
                n: nat, depth: nat, step: MkqsStep, threshold: nat, ghost maxLen: nat, ghost x: Flight)
    requires threshold >= 3 && lo + n <= act.Length && co + n <= cache.Length
    requires lo + n <= out.Length && lo + n <= lcp.Length && lo + n <= chr.Length
    requires Flies(x, lo, co, n, depth, step, maxLen)
    requires Stage2(x, act[..], cache[..], OutputOf(out, lcp, chr))
    modifies act, out, lcp, chr, cache
    ensures Stage3(x, act[..], cache[..], OutputOf(out, lcp, chr))
    decreases Left(maxLen, depth), n, 0, 0
  {
    hide *;
    ghost var act0, cache0, o := act[..], cache[..], OutputOf(out, lcp, chr);
    ghost var a := step.numLt + step.numEq;
    FliesFacts(x, lo, co, n, depth, step, maxLen);
    Stage2Parts(x, act[..], cache[..], o);
    FlightInput(x, act[..], cache[..], o, a, step.numGt, {lo, lo + step.numLt});
    SortPart(act, out, lcp, chr, cache, lo + step.numLt + step.numEq, co + step.numLt + step.numEq, step.numGt, depth, false,
             threshold, maxLen);
    GtStage(x, act0, act[..], cache0, cache[..], o, OutputOf(out, lcp, chr), lo + step.numLt + step.numEq, step.numGt);
  }

  lemma Stage3Facts(x: Flight, act: seq<Str>, cache: seq<Key>, o: Output)
    requires InFlight(x) && Stage3(x, act, cache, o)
    ensures Delivered(o, x.lo, x.n, Open(x.lo, x.step)) && CommonPrefix(o.str[x.lo..x.lo + x.n], x.depth)
    ensures Saved(x.step, x.v, x.maxLt, x.minGt) && BorderKeys(o.str, x.lo, x.depth, x.step, x.v, x.maxLt, x.minGt)
    ensures SameStrings(x.p, o.str, x.lo, x.n) && WroteOnly(x.o0, o, x.lo, x.n)
    ensures OutsideKept(x.p, act, x.lo, x.lo + x.n) && OutsideKept(x.pk, cache, x.co, x.co + x.n)
  {
    hide Delivered, KeyAt, KeysOf, ThreeParts, Saved, BorderKeys;
    PrefixSurvives(x.p[x.lo..x.lo + x.n], o.str[x.lo..x.lo + x.n], x.depth);
  }

  lemma StepSorted(act0: seq<Str>, cache0: seq<Key>, ob: Output, x: Flight, act: seq<Str>, cache: seq<Key>, o: Output, o': Output)
    requires Started(act0, cache0, ob, x) && SameStrings(x.p, o.str, x.lo, x.n) && WroteOnly(x.o0, o, x.lo, x.n)
    requires OutsideKept(x.p, act, x.lo, x.lo + x.n) && OutsideKept(x.pk, cache, x.co, x.co + x.n)
    requires o'.str == o.str && WroteOnly(o, o', x.lo, x.n) && Delivered(o', x.lo, x.n, {})
    ensures LcpSorted(act0, ob, o', x.lo, x.n)
    ensures OutsideKept(act0, act, x.lo, x.lo + x.n) && OutsideKept(cache0, cache, x.co, x.co + x.n)
  {
    hide Delivered;
    WroteOnlyTrans(ob, x.o0, o, x.lo, x.n);
    WroteOnlyTrans(ob, o, o', x.lo, x.n);
  }

  /** calculate_lcp after the three parts are sorted. */
  method FinishStep(act: array<Str>, out: array<Str>, lcp: array<nat>, chr: array<Byte>, cache: array<Key>, lo: nat, co: nat,
                    n: nat, depth: nat, step: MkqsStep, ghost maxLen: nat, ghost x: Flight,
                    ghost act0: seq<Str>, ghost cache0: seq<Key>, ghost ob: Output)
    requires lo + n <= out.Length && Flies(x, lo, co, n, depth, step, maxLen) && Started(act0, cache0, ob, x)
    requires Stage3(x, act[..], cache[..], OutputOf(out, lcp, chr))
    modifies lcp, chr
    ensures LcpSorted(act0, ob, OutputOf(out, lcp, chr), lo, n)
    ensures OutsideKept(act0, act[..], lo, lo + n) && OutsideKept(cache0, cache[..], co, co + n)
  {
    hide *;
    ghost var o := OutputOf(out, lcp, chr);
    FliesFacts(x, lo, co, n, depth, step, maxLen);
    Stage3Facts(x, act[..], cache[..], o);
    OutputStr(out, lcp, chr, lo, n);
    CalculateLcp(out, lcp, chr, lo, n, depth, step, x.v, x.maxLt, x.minGt);
    OutputStr(out, lcp, chr, lo, n);
    StepSorted(act0, cache0, ob, x, act[..], cache[..], o, OutputOf(out, lcp, chr));
  }

  lemma OutputStr(out: array<Str>, lcp: array<nat>, chr: array<Byte>, lo: nat, n: nat)
    requires lo + n <= out.Length
    ensures OutputOf(out, lcp, chr).str == out[..] && OutputOf(out, lcp, chr).str[lo..lo + n] == out[lo..lo + n]
  {
  }

  /** sort_mkqs_cache: the keys of all strings have to be loaded first. */
  method SortMkqsCache(act: array<Str>, out: array<Str>, lcp: array<nat>, chr: array<Byte>, cache: array<Key>, lo: nat, n: nat,
                       depth: nat, threshold: nat, ghost maxLen: nat)
    requires threshold >= 3 && lo + n <= act.Length && n <= cache.Length
    requires lo + n <= out.Length && lo + n <= lcp.Length && lo + n <= chr.Length
    requires CommonPrefix(act[lo..lo + n], depth) && Bounded(act[lo..lo + n], maxLen)
    modifies act, out, lcp, chr, cache
    ensures LcpSorted(old(act[..]), old(OutputOf(out, lcp, chr)), OutputOf(out, lcp, chr), lo, n)
    ensures OutsideKept(old(act[..]), act[..], lo, lo + n)
  {
    assert act[..][lo..lo + n] == act[lo..lo + n];
    SortPart(act, out, lcp, chr, cache, lo, 0, n, depth, true, threshold, maxLen);
  }
}
