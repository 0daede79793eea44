/** The recursive variant of sample sort: further splitter trees hang below equal buckets, every
    tree but the first keeps a cache of bucket numbers that is filled while strings are classified,
    and the strings are permuted tree by tree with these caches. */
module Subtrees {
  import opened Strings

  /** A splitter tree: the bucket of every string at the tree's depth, and for every splitter the
      tree attached to its equal bucket, zero for none. */
  datatype Tree = Tree(bkt: Str -> nat, sub: seq<nat>)

  /** The list of trees: attached trees come later in the list, and each is attached once. */
  ghost predicate Forest(trees: seq<Tree>, ns: nat) {
    && trees != []
    && (forall t :: 0 <= t < |trees| ==> |trees[t].sub| == ns)
    && (forall t, s :: 0 <= t < |trees| ==> trees[t].bkt(s) < 2 * ns + 1)
    && (forall t, i :: 0 <= t < |trees| && 0 <= i < ns ==> trees[t].sub[i] == 0 || t < trees[t].sub[i] < |trees|)
    && (forall t, i, u, j :: 0 <= t < |trees| && 0 <= i < ns && 0 <= u < |trees| && 0 <= j < ns ==>
          trees[t].sub[i] == trees[u].sub[j] != 0 ==> t == u && i == j)
  }

  /** The tree a string goes on to, zero for none. */
  function Next(trees: seq<Tree>, t: nat, s: Str): nat
    requires t < |trees|
  {
    var b := trees[t].bkt(s);
    if b % 2 == 1 && b / 2 < |trees[t].sub| then trees[t].sub[b / 2] else 0
  }

  /** A string classified in tree t is also classified in tree u. */
  ghost predicate Passes(trees: seq<Tree>, t: nat, s: Str, u: nat)
    decreases |trees| - t
  {
    u == t || (t < |trees| && t < Next(trees, t, s) < |trees| && Passes(trees, Next(trees, t, s), s, u))
  }

  /** The bucket numbers that the strings q, coming through tree t, leave in the cache of tree u. */
  ghost function CacheVia(trees: seq<Tree>, q: seq<Str>, t: nat, u: nat): seq<nat>
    requires u < |trees|
  {
    if q == [] then []
    else
      var n := |q| - 1;
      CacheVia(trees, q[..n], t, u) + (if Passes(trees, t, q[n], u) then [trees[u].bkt(q[n])] else [])
  }

  // ---- classification -------------------------------------------------------------------

  /** Positions on the path of s up to tree t have got their entry. */
  ghost predicate CachesOk(trees: seq<Tree>, caches: seq<seq<nat>>, q: seq<Str>, s: Str, t: nat) {
    && |caches| == |trees|
    && forall u :: 0 <= u < |trees| ==>
         caches[u] == CacheVia(trees, q, 0, u) + (if u <= t && Passes(trees, 0, s, u) then [trees[u].bkt(s)] else [])
  }

  lemma {:induction false} PassesLater(trees: seq<Tree>, t: nat, s: Str, u: nat)
    requires Passes(trees, t, s, u)
    ensures t <= u
    decreases |trees| - t
  {
    if u != t { PassesLater(trees, Next(trees, t, s), s, u); }
  }

  /** After tree t the path goes on with the next tree, and skips those in between. */
  lemma {:induction false} PathGoesOn(trees: seq<Tree>, r: nat, t: nat, s: Str, u: nat)
    requires r <= t < |trees| && Passes(trees, r, s, t)
    requires Next(trees, t, s) == 0 || t < Next(trees, t, s) < |trees|
    ensures t < u ==> (Passes(trees, r, s, u) <==> Next(trees, t, s) != 0 && Passes(trees, Next(trees, t, s), s, u))
    decreases |trees| - r
  {
    if r < t {
      PassesLater(trees, Next(trees, r, s), s, t);
      PathGoesOn(trees, Next(trees, r, s), t, s, u);
    }
  }

  lemma EntryAdded(trees: seq<Tree>, caches: seq<seq<nat>>, q: seq<Str>, s: Str, t: nat, t': nat, ns: nat)
    requires Forest(trees, ns) && CachesOk(trees, caches, q, s, t) && t < |trees| && Passes(trees, 0, s, t)
    requires t' == Next(trees, t, s) != 0 && t < t' < |trees|
    ensures Passes(trees, 0, s, t')
    ensures CachesOk(trees, caches[t' := caches[t'] + [trees[t'].bkt(s)]], q, s, t')
  {
    PathGoesOn(trees, 0, t, s, t');
    forall u | 0 <= u < |trees|
      ensures Passes(trees, 0, s, u) && t < u ==> t' <= u
    {
      PathGoesOn(trees, 0, t, s, u);
      if t < u && Passes(trees, 0, s, u) { PassesLater(trees, t', s, u); }
    }
  }

  lemma PathEnds(trees: seq<Tree>, caches: seq<seq<nat>>, q: seq<Str>, s: Str, t: nat)
    requires CachesOk(trees, caches, q, s, t) && t < |trees| && Passes(trees, 0, s, t) && Next(trees, t, s) == 0
    ensures forall u :: 0 <= u < |trees| ==> caches[u] == CacheVia(trees, q + [s], 0, u)
  {
    forall u | 0 <= u < |trees| ensures caches[u] == CacheVia(trees, q + [s], 0, u) {
      assert (q + [s])[..|q|] == q;
      PathGoesOn(trees, 0, t, s, u);
    }
  }

  lemma NextInForest(trees: seq<Tree>, ns: nat, t: nat, s: Str)
    requires Forest(trees, ns) && t < |trees|
    ensures Next(trees, t, s) == 0 || t < Next(trees, t, s) < |trees|
  {
  }

  /** One string: an entry in the first tree, then in every tree attached to its equal buckets. */
  method ClassifyString(trees: seq<Tree>, caches: seq<seq<nat>>, s: Str, ghost q: seq<Str>, ghost ns: nat)
    returns (caches': seq<seq<nat>>)
    requires Forest(trees, ns) && |caches| == |trees|
    requires forall u :: 0 <= u < |trees| ==> caches[u] == CacheVia(trees, q, 0, u)
    ensures |caches'| == |trees| && forall u :: 0 <= u < |trees| ==> caches'[u] == CacheVia(trees, q + [s], 0, u)
  {
    var t: nat := 0;
    caches' := caches[0 := caches[0] + [trees[0].bkt(s)]];
    forall u | 0 <= u < |trees| && u <= 0 ensures Passes(trees, 0, s, u) {}
    assert CachesOk(trees, caches', q, s, 0);
    hide CachesOk, CacheVia, Forest;
    while Next(trees, t, s) != 0
      invariant t < |trees| && |caches'| == |trees| && Passes(trees, 0, s, t) && CachesOk(trees, caches', q, s, t)
      decreases |trees| - t
    {
      NextInForest(trees, ns, t, s);
      var t' := Next(trees, t, s);
      EntryAdded(trees, caches', q, s, t, t', ns);
      caches' := caches'[t' := caches'[t'] + [trees[t'].bkt(s)]];
      t := t';
    }
    PathEnds(trees, caches', q, s, t);
  }

  /** Step 2.2. */
  method ClassifyStrings(trees: seq<Tree>, strings: array<Str>, lo: nat, n: nat, ghost ns: nat) returns (caches: seq<seq<nat>>)
    requires Forest(trees, ns) && lo + n <= strings.Length
    ensures |caches| == |trees|
    ensures forall u :: 0 <= u < |trees| ==> caches[u] == CacheVia(trees, strings[lo..lo + n], 0, u)
  {
    hide Forest;
    caches := seq(|trees|, _ => []);
    for si := 0 to n
      invariant |caches| == |trees|
      invariant forall u :: 0 <= u < |trees| ==> caches[u] == CacheVia(trees, strings[lo..lo + si], 0, u)
    {
      caches := ClassifyString(trees, caches, strings[lo + si], strings[lo..lo + si], ns);
      assert strings[lo..lo + (si + 1)] == strings[lo..lo + si] + [strings[lo + si]];
    }
  }

  // ---- a tree's equal bucket holds the strings of the tree attached to it ----------------------

  /** The strings of bucket c, in their order. */
  ghost function InBucket(q: seq<Str>, f: Str -> nat, c: nat): seq<Str> {
    if q == [] then []
    else InBucket(q[..|q| - 1], f, c) + (if f(q[|q| - 1]) == c then [q[|q| - 1]] else [])
  }

  /** v is attached below u, directly or indirectly. */
  ghost predicate Reach(trees: seq<Tree>, u: nat, v: nat)
    decreases v
  {
    v == u || exists p: nat, i: nat :: p < v && p < |trees| && i < |trees[p].sub| && trees[p].sub[i] == v && Reach(trees, u, p)
  }

  lemma {:induction false} ReachLater(trees: seq<Tree>, u: nat, v: nat)
    requires Reach(trees, u, v)
    ensures u <= v
    decreases v
  {
    if v != u {
      var p: nat, i: nat :| p < v && p < |trees| && i < |trees[p].sub| && trees[p].sub[i] == v && Reach(trees, u, p);
      ReachLater(trees, u, p);
    }
  }

  /** A tree lies below at most one of the trees attached to the same tree. */
  lemma {:induction false} OneBranch(trees: seq<Tree>, ns: nat, t: nat, i: nat, j: nat, v: nat)
    requires Forest(trees, ns) && t < |trees| && i < ns && j < ns && trees[t].sub[i] != 0 && trees[t].sub[j] != 0
    requires Reach(trees, trees[t].sub[i], v) && Reach(trees, trees[t].sub[j], v)
    ensures i == j
    decreases v
  {
    var u, w := trees[t].sub[i], trees[t].sub[j];
    if v == u && v == w {
    } else if v == u {
      var p: nat, k: nat :| p < v && p < |trees| && k < |trees[p].sub| && trees[p].sub[k] == v && Reach(trees, w, p);
      assert p == t;
      ReachLater(trees, w, p);
    } else if v == w {
      var p: nat, k: nat :| p < v && p < |trees| && k < |trees[p].sub| && trees[p].sub[k] == v && Reach(trees, u, p);
      assert p == t;
      ReachLater(trees, u, p);
    } else {
      var p: nat, k: nat :| p < v && p < |trees| && k < |trees[p].sub| && trees[p].sub[k] == v && Reach(trees, u, p);
      var p': nat, k': nat :| p' < v && p' < |trees| && k' < |trees[p'].sub| && trees[p'].sub[k'] == v && Reach(trees, w, p');
      assert p == p';
      OneBranch(trees, ns, t, i, j, p);
    }
  }

  lemma {:induction false} PassesReach(trees: seq<Tree>, r: nat, t: nat, s: Str, u: nat)
    requires Passes(trees, t, s, u) && Reach(trees, r, t)
    ensures Reach(trees, r, u)
    decreases |trees| - t
  {
    if u != t { PassesReach(trees, r, Next(trees, t, s), s, u); }
  }

  /** Below the tree attached to splitter i go exactly the strings of that splitter's equal bucket. */
  lemma PassesBucket(trees: seq<Tree>, ns: nat, t: nat, i: nat, s: Str, v: nat)
    requires Forest(trees, ns) && t < |trees| && i < ns && trees[t].sub[i] != 0 && Reach(trees, trees[t].sub[i], v)
    ensures Passes(trees, t, s, v) <==> trees[t].bkt(s) == 2 * i + 1 && Passes(trees, trees[t].sub[i], s, v)
  {
    var u := trees[t].sub[i];
    ReachLater(trees, u, v);
    assert t < u <= v;
    if Passes(trees, t, s, v) {
      var w := Next(trees, t, s);
      var j := trees[t].bkt(s) / 2;
      PassesReach(trees, w, w, s, v);
      OneBranch(trees, ns, t, i, j, v);
    }
  }

  /** Entry k of the cache of an attached tree belongs to string k of the equal bucket. */
  lemma {:induction false} CacheOfBucket(trees: seq<Tree>, ns: nat, q: seq<Str>, t: nat, i: nat, v: nat)
    requires Forest(trees, ns) && t < |trees| && i < ns && trees[t].sub[i] != 0 && v < |trees|
    requires Reach(trees, trees[t].sub[i], v)
    ensures CacheVia(trees, q, t, v) == CacheVia(trees, InBucket(q, trees[t].bkt, 2 * i + 1), trees[t].sub[i], v)
  {
    if q != [] {
      var n := |q| - 1;
      CacheOfBucket(trees, ns, q[..n], t, i, v);
      PassesBucket(trees, ns, t, i, q[n], v);
      var r := InBucket(q[..n], trees[t].bkt, 2 * i + 1);
      assert (r + [q[n]])[..|r|] == r;
      if trees[t].bkt(q[n]) == 2 * i + 1 {
        assert InBucket(q, trees[t].bkt, 2 * i + 1) == r + [q[n]];
      } else {
        assert InBucket(q, trees[t].bkt, 2 * i + 1) == r;
      }
    }
  }

  /** In its own tree every string leaves its bucket number. */
  lemma {:induction false} OwnCache(trees: seq<Tree>, q: seq<Str>, t: nat)
    requires t < |trees|
    ensures |CacheVia(trees, q, t, t)| == |q|
    ensures forall k :: 0 <= k < |q| ==> CacheVia(trees, q, t, t)[k] == trees[t].bkt(q[k])
  {
    if q != [] { OwnCache(trees, q[..|q| - 1], t); }
  }
}
