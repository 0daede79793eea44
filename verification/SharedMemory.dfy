/** What the workers share: the two string arrays, the LCPs, the distinguishing characters, and the
    cached keys. */
module SharedMemory {
  import opened Strings
  import opened Keys
  import opened LcpOutput

  datatype Mem = Mem(a: seq<Str>, b: seq<Str>, lcp: seq<nat>, chr: seq<Byte>, key: seq<Key>)

  predicate Sized(m: Mem, n: nat) {
    |m.a| == |m.b| == |m.lcp| == |m.chr| == |m.key| == n
  }

  /** The original array or the shadow array. */
  function Strs(m: Mem, side: bool): seq<Str> {
    if side then m.b else m.a
  }

  /** The memory as a sorter sees it that delivers into one of the string arrays. */
  function OutOf(m: Mem, side: bool): Output {
    Output(Strs(m, side), m.lcp, m.chr)
  }

  /** All that lies in a range of indices. */
  function Section(m: Mem, x: nat, n: nat): (c: Mem)
    requires x + n <= |m.a| && Sized(m, |m.a|)
    ensures Sized(c, n)
  {
    Mem(m.a[x..x + n], m.b[x..x + n], m.lcp[x..x + n], m.chr[x..x + n], m.key[x..x + n])
  }

  /** Nothing outside a range has changed. */
  ghost predicate Kept(m: Mem, m': Mem, x: nat, n: nat) {
    && Sized(m, |m.a|) && Sized(m', |m.a|)
    && OutsideKept(m.a, m'.a, x, x + n) && OutsideKept(m.b, m'.b, x, x + n)
    && OutsideKept(m.lcp, m'.lcp, x, x + n) && OutsideKept(m.chr, m'.chr, x, x + n) && OutsideKept(m.key, m'.key, x, x + n)
  }

  lemma SliceKept<T>(s: seq<T>, s': seq<T>, x: nat, n: nat, y: nat, k: nat)
    requires OutsideKept(s, s', x, x + n) && y + k <= |s| && (y + k <= x || x + n <= y || k == 0)
    ensures s'[y..y + k] == s[y..y + k]
  {
  }

  /** A range apart from what was written looks the same. */
  lemma SectionKept(m: Mem, m': Mem, x: nat, n: nat, y: nat, k: nat)
    requires Kept(m, m', x, n) && y + k <= |m.a| && (y + k <= x || x + n <= y || k == 0)
    ensures Section(m', y, k) == Section(m, y, k)
  {
    SliceKept(m.a, m'.a, x, n, y, k);
    SliceKept(m.b, m'.b, x, n, y, k);
    SliceKept(m.lcp, m'.lcp, x, n, y, k);
    SliceKept(m.chr, m'.chr, x, n, y, k);
    SliceKept(m.key, m'.key, x, n, y, k);
  }

  lemma SliceOfSlice<T>(s: seq<T>, x: nat, n: nat, y: nat, k: nat)
    requires y + k <= n && x + n <= |s|
    ensures s[x..x + n][y..y + k] == s[x + y..x + y + k]
  {
    var a, b := s[x..x + n][y..y + k], s[x + y..x + y + k];
    forall i: nat | i < k ensures a[i] == b[i] {
      assert a[i] == s[x..x + n][y + i];
    }
  }

  lemma SectionOfSection(m: Mem, x: nat, n: nat, y: nat, k: nat)
    requires Sized(m, |m.a|) && x + n <= |m.a| && y + k <= n
    ensures Section(Section(m, x, n), y, k) == Section(m, x + y, k)
  {
    SliceOfSlice(m.a, x, n, y, k);
    SliceOfSlice(m.b, x, n, y, k);
    SliceOfSlice(m.lcp, x, n, y, k);
    SliceOfSlice(m.chr, x, n, y, k);
    SliceOfSlice(m.key, x, n, y, k);
  }
}
