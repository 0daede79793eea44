/** Any number of workers sort pieces of the strings in shared memory. A worker that has a piece may
    write anything into its range, at any time, until it has what its operation promises; pieces are
    split, and when all pieces of a range are done the LCPs between them are calculated. */
module WorkTree {
  import opened Strings
  import opened LcpOutput
  import opened SharedMemory
  import opened Tasks

  /** A task waits, is at work on what it found, has been split (the pieces are tasks by consecutive
      numbers), has its LCPs calculated, or is done. */
  datatype Phase = Waiting | Working(snap: Mem) | Split(first: nat, info: Info) | Closing(snap: Mem, info: Info) | Done

  datatype Task = Task(parent: int, lo: nat, work: Work, phase: Phase)

  datatype State = State(mem: Mem, tasks: seq<Task>)

  ghost predicate InMemory(s: State, t: nat) {
    t < |s.tasks| && Sized(s.mem, |s.mem.a|) && s.tasks[t].lo + s.tasks[t].work.n <= |s.mem.a|
  }

  /** The range of a task. */
  ghost function Local(s: State, t: nat): (l: Mem)
    requires InMemory(s, t)
    ensures Sized(l, s.tasks[t].work.n)
  {
    Section(s.mem, s.tasks[t].lo, s.tasks[t].work.n)
  }

  function WithPhase(s: State, t: nat, ph: Phase): State
    requires t < |s.tasks|
  {
    s.(tasks := s.tasks[t := s.tasks[t].(phase := ph)])
  }

  // ---- steps ------------------------------------------------------------------------------------

  ghost predicate Init(s: State, m0: Mem, depth: nat) {
    && Sized(m0, |m0.a|) && CommonPrefix(m0.a, depth)
    && s == State(m0, [Task(-1, 0, Work(|m0.a|, depth, false, m0.a, false), Waiting)])
  }

  ghost predicate Begin(s: State, s': State, t: nat) {
    && InMemory(s, t) && s.tasks[t].phase == Waiting && s' == WithPhase(s, t, Working(Local(s, t)))
  }

  /** Whoever is at work writes what it likes, but only there. */
  ghost predicate Write(s: State, s': State, t: nat) {
    && InMemory(s, t) && (s.tasks[t].phase.Working? || s.tasks[t].phase.Closing?)
    && s'.tasks == s.tasks && Kept(s.mem, s'.mem, s.tasks[t].lo, s.tasks[t].work.n)
  }

  /** Sorted by one operation. */
  ghost predicate EndLeaf(s: State, s': State, out: bool, t: nat) {
    && InMemory(s, t) && s.tasks[t].phase.Working?
    && LeafOk(s.tasks[t].work, out, s.tasks[t].phase.snap, Local(s, t)) && s' == WithPhase(s, t, Done)
  }

  ghost predicate IsPiece(k: Task, s: State, t: nat, info: Info, j: nat) {
    && t < |s.tasks| && j < Pieces(info) && PieceLo(info, j) + PieceSize(info, j) <= |info.r|
    && k.parent == t && k.lo == s.tasks[t].lo + PieceLo(info, j) && k.work == Piece(s.tasks[t].work, info, j)
  }

  /** Split by one operation: one new task for every piece. */
  ghost predicate EndSplit(s: State, s': State, t: nat, info: Info) {
    && InMemory(s, t) && s.tasks[t].phase.Working?
    && SplitOk(s.tasks[t].work, s.tasks[t].phase.snap, Local(s, t), info)
    && s'.mem == s.mem && |s'.tasks| == |s.tasks| + Pieces(info)
    && s'.tasks[..|s.tasks|] == WithPhase(s, t, Split(|s.tasks|, info)).tasks
    && forall i :: |s.tasks| <= i < |s'.tasks| ==>
         IsPiece(s'.tasks[i], s, t, info, i - |s.tasks|) && s'.tasks[i].phase == Waiting
  }

  ghost predicate PiecesAreDone(s: State, t: nat) {
    && t < |s.tasks| && s.tasks[t].phase.Split?
    && forall i :: 0 <= i < |s.tasks| && s.tasks[i].parent == t ==> s.tasks[i].phase == Done
  }

  ghost predicate StartClose(s: State, s': State, t: nat) {
    && InMemory(s, t) && s.tasks[t].phase.Split? && s' == WithPhase(s, t, Closing(Local(s, t), s.tasks[t].phase.info))
  }

  ghost predicate EndClose(s: State, s': State, out: bool, t: nat) {
    && InMemory(s, t) && s.tasks[t].phase.Closing?
    && CloseOk(s.tasks[t].work, out, s.tasks[t].phase.snap, Local(s, t)) && s' == WithPhase(s, t, Done)
  }

  /** What anyone may do with a task, except beginning to close it. */
  ghost predicate WorkOn(s: State, s': State, out: bool, t: nat) {
    || Begin(s, s', t) || Write(s, s', t) || EndLeaf(s, s', out, t) || (exists info :: EndSplit(s, s', t, info)) || EndClose(s, s', out, t)
  }

  ghost predicate StepOn(s: State, s': State, out: bool, t: nat) {
    WorkOn(s, s', out, t) || (PiecesAreDone(s, t) && StartClose(s, s', t))
  }

  ghost predicate Step(s: State, s': State, out: bool) {
    exists t: nat :: StepOn(s, s', out, t)
  }

  lemma WorkIsStep(s: State, s': State, out: bool, t: nat)
    requires StepOn(s, s', out, t)
    ensures Step(s, s', out)
  {
  }

  // ---- the tree of tasks ------------------------------------------------------------------------------

  ghost predicate TaskOk(s: State, i: nat)
    requires i < |s.tasks|
  {
    && WorkOk(s.tasks[i].work) && InMemory(s, i)
    && if i == 0 then s.tasks[i].parent == -1
       else
         && 0 <= s.tasks[i].parent < i
         && var p := s.tasks[s.tasks[i].parent];
            && p.lo <= s.tasks[i].lo && s.tasks[i].lo + s.tasks[i].work.n <= p.lo + p.work.n
            && !p.phase.Waiting? && !p.phase.Working? && (s.tasks[i].phase != Done ==> p.phase.Split?)
            && (p.phase.Split? ==> p.phase.first <= i < p.phase.first + Pieces(p.phase.info)
                                   && IsPiece(s.tasks[i], s, s.tasks[i].parent, p.phase.info, i - p.phase.first))
  }

  ghost predicate SplitLinked(s: State, t: nat)
    requires t < |s.tasks|
  {
    s.tasks[t].phase.Split? ==>
      var first, info := s.tasks[t].phase.first, s.tasks[t].phase.info;
      && InfoOk(s.tasks[t].work, info) && t < first && first + Pieces(info) <= |s.tasks|
      && forall i :: first <= i < first + Pieces(info) ==> s.tasks[i].parent == t
  }

  /** Pieces of the same task follow each other. */
  ghost predicate Siblings(s: State) {
    forall i, j :: 0 < i < j < |s.tasks| && s.tasks[i].parent == s.tasks[j].parent ==>
      s.tasks[i].lo + s.tasks[i].work.n <= s.tasks[j].lo
  }

  ghost predicate Tree(s: State) {
    && |s.tasks| > 0 && Siblings(s)
    && (forall i :: 0 <= i < |s.tasks| ==> TaskOk(s, i))
    && (forall i :: 0 <= i < |s.tasks| ==> SplitLinked(s, i))
  }

  /** v is u or a piece of it. */
  ghost predicate Below(s: State, u: int, v: int)
    decreases v
  {
    v == u || (u < v < |s.tasks| && v > 0 && s.tasks[v].parent < v && Below(s, u, s.tasks[v].parent))
  }

  ghost predicate Apart(s: State, u: nat, v: nat)
    requires u < |s.tasks| && v < |s.tasks|
  {
    || s.tasks[u].lo + s.tasks[u].work.n <= s.tasks[v].lo || s.tasks[v].lo + s.tasks[v].work.n <= s.tasks[u].lo
  }

  lemma {:induction false} BelowInside(s: State, u: nat, v: nat)
    requires Tree(s) && u < |s.tasks| && v < |s.tasks| && Below(s, u, v)
    ensures s.tasks[u].lo <= s.tasks[v].lo && s.tasks[v].lo + s.tasks[v].work.n <= s.tasks[u].lo + s.tasks[u].work.n && u <= v
    decreases v
  {
    if u != v {
      assert TaskOk(s, v);
      hide TaskOk, SplitLinked;
      BelowInside(s, u, s.tasks[v].parent);
    }
  }

  /** The piece of p on the way from p to u. */
  lemma {:induction false} PieceAbove(s: State, p: nat, u: nat) returns (w: nat)
    requires Tree(s) && p < |s.tasks| && u < |s.tasks| && Below(s, p, u) && u != p
    ensures 0 < w < |s.tasks| && s.tasks[w].parent == p && Below(s, w, u)
    decreases u
  {
    assert TaskOk(s, u);
    hide TaskOk, SplitLinked;
    if s.tasks[u].parent == p {
      w := u;
    } else {
      w := PieceAbove(s, p, s.tasks[u].parent);
      BelowInside(s, w, s.tasks[u].parent);
    }
  }

  /** Tasks neither of which is a piece of the other do not overlap. */
  lemma {:induction false} UnrelatedApart(s: State, u: nat, v: nat)
    requires Tree(s) && u < v < |s.tasks| && !Below(s, u, v)
    ensures Apart(s, u, v)
    decreases v
  {
    assert TaskOk(s, v);
    hide TaskOk, SplitLinked;
    var p := s.tasks[v].parent;
    if Below(s, p, u) && u != p {
      var w := PieceAbove(s, p, u);
      BelowInside(s, w, u);
      BelowInside(s, p, v);
      if w == v {
        BelowInside(s, v, u);
      }
    } else if u < p {
      UnrelatedApart(s, u, p);
    } else if p < u {
      UnrelatedApart(s, p, u);
    }
  }

  /** A task whose parent is split matters to what is in memory. */
  ghost predicate Live(s: State, t: nat)
    requires t < |s.tasks|
  {
    t == 0 || (0 <= s.tasks[t].parent < |s.tasks| && s.tasks[s.tasks[t].parent].phase.Split?)
  }

  lemma {:induction false} AboveSplit(s: State, u: nat, v: nat)
    requires Tree(s) && u < v < |s.tasks| && Live(s, v) && Below(s, u, v)
    ensures s.tasks[u].phase.Split?
    decreases v
  {
    var p := s.tasks[v].parent;
    assert TaskOk(s, v) && TaskOk(s, p);
    hide SplitLinked;
    if p != u {
      hide TaskOk;
      BelowInside(s, u, p);
      AboveSplit(s, u, p);
    }
  }

  /** Two live tasks that are not split do not overlap. */
  lemma LiveApart(s: State, u: nat, v: nat)
    requires Tree(s) && u < |s.tasks| && v < |s.tasks| && u != v && Live(s, u) && Live(s, v)
    requires !s.tasks[u].phase.Split? && !s.tasks[v].phase.Split?
    ensures Apart(s, u, v)
  {
    hide Tree;
    var a, b := if u < v then u else v, if u < v then v else u;
    if Below(s, a, b) { AboveSplit(s, a, b); }
    UnrelatedApart(s, a, b);
  }

  // ---- what is in memory ---------------------------------------------------------------------------

  ghost predicate MemOk(s: State, out: bool, t: nat)
    requires InMemory(s, t)
  {
    var k := s.tasks[t];
    match k.phase
    case Waiting => Ready(k.work, Local(s, t))
    case Working(snap) => Ready(k.work, snap)
    case Split(_, _) => true
    case Closing(snap, info) => CloseReady(k.work, info, out, snap)
    case Done => SortedOk(k.work, out, Local(s, t))
  }

  /** Someone is at work on a range that holds the very first position. */
  ghost predicate HasFirst(k: Task) {
    k.lo == 0 && k.work.n > 0 && (k.phase.Working? || k.phase.Closing?)
  }

  ghost predicate FirstAs(m: Mem, m0: Mem) {
    |m.lcp| > 0 && |m.chr| > 0 && |m0.lcp| > 0 && |m0.chr| > 0 && m.lcp[0] == m0.lcp[0] && m.chr[0] == m0.chr[0]
  }

  /** The first LCP and character are as they were, unless someone is at work there, who found them so. */
  ghost predicate FirstOk(s: State, m0: Mem) {
    && (forall t :: 0 <= t < |s.tasks| && HasFirst(s.tasks[t]) ==> FirstAs(s.tasks[t].phase.snap, m0))
    && ((forall t :: 0 <= t < |s.tasks| ==> !HasFirst(s.tasks[t])) && |m0.a| > 0 ==> FirstAs(s.mem, m0))
  }

  ghost predicate SizesOk(s: State, m0: Mem, depth: nat) {
    && Sized(m0, |m0.a|) && Sized(s.mem, |m0.a|) && |s.tasks| > 0
    && s.tasks[0].lo == 0 && s.tasks[0].work == Work(|m0.a|, depth, false, m0.a, false)
  }

  ghost predicate AllMemOk(s: State, out: bool) {
    forall t :: 0 <= t < |s.tasks| && Live(s, t) ==> InMemory(s, t) && MemOk(s, out, t)
  }

  ghost predicate Inv(s: State, m0: Mem, out: bool, depth: nat) {
    SizesOk(s, m0, depth) && Tree(s) && AllMemOk(s, out) && FirstOk(s, m0)
  }

  // ---- a task goes on to another phase ------------------------------------------------------------

  /** The pieces of t, if any, are done. */
  ghost predicate PiecesOver(s: State, t: nat, ph: Phase) {
    forall i :: 0 <= i < |s.tasks| && s.tasks[i].parent == t ==> s.tasks[i].phase == Done && !ph.Waiting? && !ph.Working?
  }

  lemma PhaseTask(s: State, t: nat, ph: Phase, i: nat)
    requires Tree(s) && t < |s.tasks| && i < |s.tasks| && !ph.Split? && s.tasks[t].phase != Done && PiecesOver(s, t, ph)
    ensures TaskOk(WithPhase(s, t, ph), i)
  {
    var s' := WithPhase(s, t, ph);
    assert TaskOk(s, i);
    hide SplitLinked, WorkOk;
    if i > 0 {
      var p := s.tasks[i].parent;
      if s'.tasks[p].phase.Split? {
        assert s'.tasks[p] == s.tasks[p];
        assert IsPiece(s.tasks[i], s, p, s.tasks[p].phase.info, i - s.tasks[p].phase.first);
      }
    }
  }

  lemma PhaseTree(s: State, t: nat, ph: Phase)
    requires Tree(s) && t < |s.tasks| && !ph.Split? && s.tasks[t].phase != Done && PiecesOver(s, t, ph)
    ensures Tree(WithPhase(s, t, ph))
  {
    var s' := WithPhase(s, t, ph);
    forall i | 0 <= i < |s'.tasks| ensures TaskOk(s', i) { PhaseTask(s, t, ph, i); }
    hide TaskOk;
    forall i | 0 <= i < |s'.tasks| ensures SplitLinked(s', i) { assert SplitLinked(s, i); }
  }

  lemma ParentSplit(s: State, i: nat)
    requires Tree(s) && i < |s.tasks|
    ensures if i == 0 then s.tasks[i].parent == -1
            else 0 <= s.tasks[i].parent < i && !s.tasks[s.tasks[i].parent].phase.Waiting? && !s.tasks[s.tasks[i].parent].phase.Working?
  {
    assert TaskOk(s, i);
    hide SplitLinked, WorkOk;
  }

  /** A task that is at work has no pieces. */
  lemma NoPieces(s: State, t: nat, ph: Phase)
    requires Tree(s) && t < |s.tasks| && (s.tasks[t].phase.Waiting? || s.tasks[t].phase.Working?)
    ensures PiecesOver(s, t, ph)
  {
    forall i | 0 <= i < |s.tasks| ensures s.tasks[i].parent != t { ParentSplit(s, i); }
  }

  lemma ClosingOver(s: State, t: nat, ph: Phase)
    requires Tree(s) && t < |s.tasks| && s.tasks[t].phase.Closing? && !ph.Waiting? && !ph.Working?
    ensures PiecesOver(s, t, ph)
  {
    hide SplitLinked, WorkOk;
    forall i | 0 <= i < |s.tasks| && s.tasks[i].parent == t ensures s.tasks[i].phase == Done {
      assert TaskOk(s, i);
    }
  }

  /** Who is live then was live before, and finds the same memory. */
  lemma PhaseMem(s: State, out: bool, t: nat, ph: Phase)
    requires Tree(s) && AllMemOk(s, out) && t < |s.tasks| && !ph.Split?
    requires InMemory(s, t) && MemOk(WithPhase(s, t, ph), out, t)
    ensures AllMemOk(WithPhase(s, t, ph), out)
  {
    var s' := WithPhase(s, t, ph);
    hide Tree, Ready, SortedOk, CloseReady;
    forall i | 0 <= i < |s'.tasks| && Live(s', i) ensures InMemory(s', i) && MemOk(s', out, i) {
      assert i != t ==> Live(s, i) && s'.tasks[i] == s.tasks[i];
    }
  }

  /** Whoever is not Done has a parent that is split. */
  lemma UndoneLive(s: State, t: nat)
    requires Tree(s) && t < |s.tasks| && s.tasks[t].phase != Done
    ensures Live(s, t)
  {
    assert TaskOk(s, t);
    hide SplitLinked;
  }

  /** Only one is at work at the first position. */
  lemma OneFirst(s: State, t: nat, u: nat)
    requires Tree(s) && t < |s.tasks| && u < |s.tasks| && t != u
    requires s.tasks[t].phase != Done && !s.tasks[t].phase.Split? && s.tasks[t].lo == 0 && s.tasks[t].work.n > 0
    ensures !HasFirst(s.tasks[u])
  {
    if HasFirst(s.tasks[u]) {
      UndoneLive(s, t);
      UndoneLive(s, u);
      LiveApart(s, t, u);
    }
  }

  lemma LocalFirst(s: State, t: nat)
    requires InMemory(s, t) && s.tasks[t].lo == 0 && s.tasks[t].work.n > 0
    ensures Local(s, t).lcp[0] == s.mem.lcp[0] && Local(s, t).chr[0] == s.mem.chr[0]
  {
  }

  /** Starting to work: whatever is found is remembered. */
  lemma BusyFirst(s: State, m0: Mem, t: nat, ph: Phase)
    requires Tree(s) && FirstOk(s, m0) && InMemory(s, t) && |m0.a| == |s.mem.a|
    requires s.tasks[t].phase.Waiting? || s.tasks[t].phase.Split?
    requires (ph.Working? || ph.Closing?) && ph.snap == Local(s, t)
    requires s.tasks[t].phase.Split? ==> s.tasks[t].lo == 0 && s.tasks[t].work.n > 0 ==>
               forall u :: 0 <= u < |s.tasks| ==> !HasFirst(s.tasks[u])
    ensures FirstOk(WithPhase(s, t, ph), m0)
  {
    var s' := WithPhase(s, t, ph);
    hide Tree;
    if HasFirst(s'.tasks[t]) {
      forall u | 0 <= u < |s.tasks| ensures !HasFirst(s.tasks[u]) {
        if u != t && s.tasks[t].phase.Waiting? { OneFirst(s, t, u); }
      }
      LocalFirst(s, t);
    } else {
      forall u | 0 <= u < |s.tasks| ensures HasFirst(s'.tasks[u]) <==> HasFirst(s.tasks[u]) {}
      if forall u :: 0 <= u < |s'.tasks| ==> !HasFirst(s'.tasks[u]) {
        forall u | 0 <= u < |s.tasks| ensures !HasFirst(s.tasks[u]) { assert !HasFirst(s'.tasks[u]); }
      }
    }
  }

  /** Ending: what was found there is there again. */
  lemma RestFirst(s: State, m0: Mem, t: nat, ph: Phase)
    requires Tree(s) && FirstOk(s, m0) && InMemory(s, t) && |m0.a| == |s.mem.a|
    requires (s.tasks[t].phase.Working? || s.tasks[t].phase.Closing?) && FirstKept(s.tasks[t].phase.snap, Local(s, t))
    requires !ph.Working? && !ph.Closing?
    ensures FirstOk(WithPhase(s, t, ph), m0)
  {
    var s' := WithPhase(s, t, ph);
    hide Tree;
    if HasFirst(s.tasks[t]) {
      forall u | 0 <= u < |s.tasks| && u != t ensures !HasFirst(s.tasks[u]) {
        OneFirst(s, t, u);
      }
      LocalFirst(s, t);
    } else {
      forall u | 0 <= u < |s.tasks| ensures HasFirst(s'.tasks[u]) <==> HasFirst(s.tasks[u]) {}
      if forall u :: 0 <= u < |s'.tasks| ==> !HasFirst(s'.tasks[u]) {
        forall u | 0 <= u < |s.tasks| ensures !HasFirst(s.tasks[u]) { assert !HasFirst(s'.tasks[u]); }
      }
    }
  }

  lemma WriteFirst(s: State, s': State, m0: Mem, t: nat)
    requires Tree(s) && FirstOk(s, m0) && Write(s, s', t) && |m0.a| == |s.mem.a|
    ensures FirstOk(s', m0)
  {
    hide Tree;
    if forall u :: 0 <= u < |s'.tasks| ==> !HasFirst(s'.tasks[u]) {
      assert !HasFirst(s'.tasks[t]);
    }
  }

  // ---- every step keeps the invariant -------------------------------------------------------------

  lemma BeginInv(s: State, s': State, m0: Mem, out: bool, depth: nat, t: nat)
    requires Inv(s, m0, out, depth) && Begin(s, s', t)
    ensures Inv(s', m0, out, depth)
  {
    var ph := Working(Local(s, t));
    UndoneLive(s, t);
    NoPieces(s, t, ph);
    hide Tree, Ready, FirstOk, PiecesOver;
    PhaseTree(s, t, ph);
    assert MemOk(s, out, t);
    PhaseMem(s, out, t, ph);
    BusyFirst(s, m0, t, ph);
  }

  lemma WriteMem(s: State, s': State, out: bool, t: nat)
    requires Tree(s) && AllMemOk(s, out) && Write(s, s', t)
    ensures AllMemOk(s', out)
  {
    UndoneLive(s, t);
    hide Tree, Ready, SortedOk, CloseReady, Kept, Local;
    forall i | 0 <= i < |s'.tasks| && Live(s', i) ensures InMemory(s', i) && MemOk(s', out, i) {
      assert Live(s, i) && InMemory(s, i) && MemOk(s, out, i);
      KeptSize(s.mem, s'.mem, s.tasks[t].lo, s.tasks[t].work.n);
      if i != t && !s.tasks[i].phase.Split? {
        LiveApart(s, t, i);
        SameLocal(s, s', t, i);
      }
    }
  }

  lemma KeptSize(m: Mem, m': Mem, x: nat, n: nat)
    requires Kept(m, m', x, n)
    ensures Sized(m', |m.a|) && |m'.a| == |m.a|
  {
  }

  lemma SameLocal(s: State, s': State, t: nat, i: nat)
    requires s'.tasks == s.tasks && InMemory(s, t) && InMemory(s, i) && InMemory(s', i) && Apart(s, t, i)
    requires Kept(s.mem, s'.mem, s.tasks[t].lo, s.tasks[t].work.n)
    ensures Local(s', i) == Local(s, i)
  {
    SectionKept(s.mem, s'.mem, s.tasks[t].lo, s.tasks[t].work.n, s.tasks[i].lo, s.tasks[i].work.n);
  }

  lemma WriteTree(s: State, s': State, t: nat)
    requires Tree(s) && Write(s, s', t)
    ensures Tree(s')
  {
    KeptSize(s.mem, s'.mem, s.tasks[t].lo, s.tasks[t].work.n);
    hide Kept, WorkOk;
    forall i | 0 <= i < |s'.tasks| ensures TaskOk(s', i) {
      assert TaskOk(s, i);
      SamePiece(s, s', i);
    }
    hide TaskOk;
    forall i | 0 <= i < |s'.tasks| ensures SplitLinked(s', i) { assert SplitLinked(s, i); }
  }

  lemma SamePiece(s: State, s': State, i: nat)
    requires s'.tasks == s.tasks && i < |s.tasks|
    ensures forall t: nat, info, j: nat :: IsPiece(s.tasks[i], s, t, info, j) ==> IsPiece(s'.tasks[i], s', t, info, j)
  {
  }

  lemma WriteInv(s: State, s': State, m0: Mem, out: bool, depth: nat, t: nat)
    requires Inv(s, m0, out, depth) && Write(s, s', t)
    ensures Inv(s', m0, out, depth)
  {
    KeptSize(s.mem, s'.mem, s.tasks[t].lo, s.tasks[t].work.n);
    WriteMem(s, s', out, t);
    WriteTree(s, s', t);
    WriteFirst(s, s', m0, t);
    hide Tree, AllMemOk, FirstOk;
  }

  lemma EndLeafInv(s: State, s': State, m0: Mem, out: bool, depth: nat, t: nat)
    requires Inv(s, m0, out, depth) && EndLeaf(s, s', out, t)
    ensures Inv(s', m0, out, depth)
  {
    NoPieces(s, t, Done);
    hide Tree, SortedOk, FirstOk, PiecesOver, FirstKept;
    PhaseTree(s, t, Done);
    PhaseMem(s, out, t, Done);
    RestFirst(s, m0, t, Done);
  }

  lemma EndCloseInv(s: State, s': State, m0: Mem, out: bool, depth: nat, t: nat)
    requires Inv(s, m0, out, depth) && EndClose(s, s', out, t)
    ensures Inv(s', m0, out, depth)
  {
    UndoneLive(s, t);
    ClosingOver(s, t, Done);
    assert MemOk(s, out, t);
    ClosedKeeps(s.tasks[t].work, out, s.tasks[t].phase.snap, Local(s, t));
    Closed(s.tasks[t].work, s.tasks[t].phase.info, out, s.tasks[t].phase.snap, Local(s, t));
    hide Tree, SortedOk, FirstOk, PiecesOver, FirstKept, CloseReady, CloseOk;
    PhaseTree(s, t, Done);
    PhaseMem(s, out, t, Done);
    RestFirst(s, m0, t, Done);
  }

  lemma ClosedKeeps(w: Work, out: bool, l: Mem, l': Mem)
    requires CloseOk(w, out, l, l')
    ensures FirstKept(l, l')
  {
  }

  // ---- closing ---------------------------------------------------------------------------------------

  lemma PieceTask(s: State, t: nat, j: nat)
    requires Tree(s) && t < |s.tasks| && s.tasks[t].phase.Split? && j < Pieces(s.tasks[t].phase.info)
    ensures var i, info := s.tasks[t].phase.first + j, s.tasks[t].phase.info;
            && t < i < |s.tasks| && s.tasks[i].parent == t && Live(s, i) && InMemory(s, i) && InMemory(s, t)
            && InfoOk(s.tasks[t].work, info) && IsPiece(s.tasks[i], s, t, info, j)
  {
    var i := s.tasks[t].phase.first + j;
    assert SplitLinked(s, t) && TaskOk(s, t);
    assert TaskOk(s, i);
    hide InfoOk, WorkOk;
  }

  lemma DoneIs(s: State, out: bool, i: nat)
    requires AllMemOk(s, out) && i < |s.tasks| && Live(s, i) && s.tasks[i].phase == Done
    ensures InMemory(s, i) && SortedOk(s.tasks[i].work, out, Local(s, i))
  {
    assert InMemory(s, i) && MemOk(s, out, i);
    hide SortedOk;
  }

  lemma NewLocal(s: State, s': State, t: nat, i: nat, x: nat, n: nat)
    requires InMemory(s, t) && InMemory(s', i) && s'.mem == s.mem && x + n <= s.tasks[t].work.n
    requires s'.tasks[i].lo == s.tasks[t].lo + x && s'.tasks[i].work.n == n
    ensures Local(s', i) == Section(Local(s, t), x, n)
  {
    SectionOfSection(s.mem, s.tasks[t].lo, s.tasks[t].work.n, x, n);
  }

  lemma PieceIs(k: Task, s: State, t: nat, info: Info, j: nat)
    requires IsPiece(k, s, t, info, j)
    ensures k.lo == s.tasks[t].lo + PieceLo(info, j) && k.work == Piece(s.tasks[t].work, info, j) && k.work.n == PieceSize(info, j)
    ensures PieceLo(info, j) + PieceSize(info, j) <= |info.r|
  {
    hide PieceLo, PieceSize, PieceDepth;
  }

  lemma SplitHere(s: State, t: nat)
    requires PiecesAreDone(s, t)
    ensures t < |s.tasks| && s.tasks[t].phase.Split?
  {
  }

  lemma PieceIsDone(s: State, t: nat, i: nat)
    requires PiecesAreDone(s, t) && i < |s.tasks| && s.tasks[i].parent == t
    ensures s.tasks[i].phase == Done
  {
  }

  /** A piece that is done, as seen from the range of the whole. */
  lemma PieceSorted(s: State, out: bool, t: nat, j: nat)
    requires Tree(s) && AllMemOk(s, out) && PiecesAreDone(s, t) && j < Pieces(s.tasks[t].phase.info)
    ensures InMemory(s, t) && InfoOk(s.tasks[t].work, s.tasks[t].phase.info)
    ensures var info := s.tasks[t].phase.info;
            && PieceLo(info, j) + PieceSize(info, j) <= s.tasks[t].work.n == |info.r|
            && SortedOk(Piece(s.tasks[t].work, info, j), out, Section(Local(s, t), PieceLo(info, j), PieceSize(info, j)))
  {
    hide *;
    SplitHere(s, t);
    PieceTask(s, t, j);
    var i, info := s.tasks[t].phase.first + j, s.tasks[t].phase.info;
    PieceIsDone(s, t, i);
    PiecesFit(s.tasks[t].work, info, j);
    DoneIs(s, out, i);
    PieceIs(s.tasks[i], s, t, info, j);
    NewLocal(s, s, t, i, PieceLo(info, j), PieceSize(info, j));
  }

  lemma SplitFacts(s: State, t: nat)
    requires Tree(s) && t < |s.tasks| && s.tasks[t].phase.Split?
    ensures InMemory(s, t) && InfoOk(s.tasks[t].work, s.tasks[t].phase.info) && WorkOk(s.tasks[t].work)
  {
    assert SplitLinked(s, t) && TaskOk(s, t);
    hide InfoOk, WorkOk;
  }

  lemma ReadyToClose(s: State, out: bool, t: nat)
    requires Tree(s) && AllMemOk(s, out) && PiecesAreDone(s, t)
    ensures InMemory(s, t) && CloseReady(s.tasks[t].work, s.tasks[t].phase.info, out, Local(s, t))
  {
    SplitFacts(s, t);
    var w, info := s.tasks[t].work, s.tasks[t].phase.info;
    hide Tree, AllMemOk, SortedOk, InfoOk, WorkOk, PieceLo, PieceSize, PieceDepth, Piece, PiecesAreDone;
    forall j | 0 <= j < Pieces(info)
      ensures PieceLo(info, j) + PieceSize(info, j) <= w.n == |info.r|
      ensures SortedOk(Piece(w, info, j), out, Section(Local(s, t), PieceLo(info, j), PieceSize(info, j)))
    {
      PieceSorted(s, out, t, j);
    }
    PiecesOf(w, info, out, Local(s, t));
    Closable(w, info, out, Local(s, t));
  }

  /** Nobody is at work below a task whose pieces are done, nor elsewhere at its first position. */
  lemma QuietFirst(s: State, t: nat, u: nat)
    requires Tree(s) && PiecesAreDone(s, t) && u < |s.tasks| && s.tasks[t].lo == 0 && s.tasks[t].work.n > 0
    ensures !HasFirst(s.tasks[u])
  {
    if HasFirst(s.tasks[u]) {
      UndoneLive(s, u);
      UndoneLive(s, t);
      hide Tree;
      if Below(s, t, u) {
        var w := PieceAbove(s, t, u);
        if w != u { BelowInside(s, w, u); AboveSplit(s, w, u); }
      } else if Below(s, u, t) {
        BelowInside(s, u, t);
        AboveSplit(s, u, t);
      } else if t < u {
        UnrelatedApart(s, t, u);
      } else {
        UnrelatedApart(s, u, t);
      }
    }
  }

  lemma StartCloseInv(s: State, s': State, m0: Mem, out: bool, depth: nat, t: nat)
    requires Inv(s, m0, out, depth) && PiecesAreDone(s, t) && StartClose(s, s', t)
    ensures Inv(s', m0, out, depth)
  {
    var ph := Closing(Local(s, t), s.tasks[t].phase.info);
    ReadyToClose(s, out, t);
    forall u | 0 <= u < |s.tasks| && s.tasks[t].lo == 0 && s.tasks[t].work.n > 0 ensures !HasFirst(s.tasks[u]) { QuietFirst(s, t, u); }
    assert PiecesOver(s, t, ph);
    hide Tree, CloseReady, FirstOk, PiecesOver, HasFirst;
    PhaseTree(s, t, ph);
    PhaseMem(s, out, t, ph);
    BusyFirst(s, m0, t, ph);
  }

  // ---- splitting ---------------------------------------------------------------------------------------

  lemma OldTask(s: State, s': State, t: nat, info: Info, i: nat)
    requires EndSplit(s, s', t, info) && i < |s.tasks|
    ensures s'.tasks[i] == if i == t then s.tasks[t].(phase := Split(|s.tasks|, info)) else s.tasks[i]
  {
    assert s'.tasks[i] == s'.tasks[..|s.tasks|][i];
  }

  lemma NewTask(s: State, s': State, t: nat, info: Info, i: nat)
    requires Tree(s) && EndSplit(s, s', t, info) && |s.tasks| <= i < |s'.tasks|
    ensures var j := i - |s.tasks|;
            && j < Pieces(info) && PieceLo(info, j) + PieceSize(info, j) <= s.tasks[t].work.n == |info.r|
            && s'.tasks[i] == Task(t, s.tasks[t].lo + PieceLo(info, j), Piece(s.tasks[t].work, info, j), Waiting)
            && InMemory(s', i) && InMemory(s, t) && WorkOk(s'.tasks[i].work)
  {
    var j := i - |s.tasks|;
    assert TaskOk(s, t);
    assert IsPiece(s'.tasks[i], s, t, info, j);
    hide Tree, InfoOk, PieceLo, PieceSize, PieceDepth, WorkOk, FirstKept;
    PiecesFit(s.tasks[t].work, info, j);
    PieceOk(s.tasks[t].work, info, j);
    PieceN(s.tasks[t].work, info, j);
  }

  lemma PieceN(w: Work, info: Info, j: nat)
    requires j < Pieces(info) && PieceLo(info, j) + PieceSize(info, j) <= |info.r|
    ensures Piece(w, info, j).n == PieceSize(info, j)
  {
  }

  lemma SplitOldTask(s: State, s': State, t: nat, info: Info, i: nat)
    requires Tree(s) && EndSplit(s, s', t, info) && i < |s.tasks|
    ensures TaskOk(s', i)
  {
    OldTask(s, s', t, info, t);
    OldTask(s, s', t, info, i);
    ParentSplit(s, i);
    if i > 0 { OldTask(s, s', t, info, s.tasks[i].parent); }
    assert TaskOk(s, i) && s'.mem == s.mem && s.tasks[t].phase.Working?;
    hide Tree, EndSplit, WorkOk, SplitOk, PieceLo, PieceSize, Piece;
  }

  lemma NewTaskOk(s: State, t: nat, first: nat, info: Info, i: nat)
    requires t < first <= i < |s.tasks| && s.tasks[t].phase == Split(first, info) && i - first < Pieces(info)
    requires PieceLo(info, i - first) + PieceSize(info, i - first) <= s.tasks[t].work.n == |info.r|
    requires s.tasks[i] == Task(t, s.tasks[t].lo + PieceLo(info, i - first), Piece(s.tasks[t].work, info, i - first), Waiting)
    requires WorkOk(s.tasks[i].work) && InMemory(s, i)
    ensures TaskOk(s, i)
  {
    PieceN(s.tasks[t].work, info, i - first);
    hide WorkOk, PieceLo, PieceSize, PieceDepth;
  }

  lemma SplitNewTask(s: State, s': State, t: nat, info: Info, i: nat)
    requires Tree(s) && EndSplit(s, s', t, info) && |s.tasks| <= i < |s'.tasks|
    ensures TaskOk(s', i)
  {
    hide *;
    SplitNow(s, s', t, info);
    OldTask(s, s', t, info, t);
    NewTask(s, s', t, info, i);
    NewTaskOk(s', t, |s.tasks|, info, i);
  }

  lemma SplitTask(s: State, s': State, t: nat, info: Info, i: nat)
    requires Tree(s) && EndSplit(s, s', t, info) && i < |s'.tasks|
    ensures TaskOk(s', i)
  {
    hide *;
    if i < |s.tasks| { SplitOldTask(s, s', t, info, i); } else { SplitNewTask(s, s', t, info, i); }
  }

  lemma SplitLink(s: State, s': State, t: nat, info: Info, i: nat)
    requires Tree(s) && EndSplit(s, s', t, info) && i < |s'.tasks|
    ensures SplitLinked(s', i)
  {
    if i < |s.tasks| {
      OldTask(s, s', t, info, i);
      assert SplitLinked(s, i);
      hide TaskOk, InfoOk;
      if i == t {
        forall k | |s.tasks| <= k < |s.tasks| + Pieces(info) ensures s'.tasks[k].parent == t { NewTask(s, s', t, info, k); }
      } else if s'.tasks[i].phase.Split? {
        forall k | s.tasks[i].phase.first <= k < s.tasks[i].phase.first + Pieces(s.tasks[i].phase.info)
          ensures s'.tasks[k].parent == i
        {
          OldTask(s, s', t, info, k);
        }
      }
    } else {
      NewTask(s, s', t, info, i);
    }
  }

  lemma OldSiblings(s: State, i: nat, j: nat)
    requires Tree(s) && 0 < i < j < |s.tasks| && s.tasks[i].parent == s.tasks[j].parent
    ensures s.tasks[i].lo + s.tasks[i].work.n <= s.tasks[j].lo
  {
    hide TaskOk, SplitLinked;
  }

  lemma SplitSiblings(s: State, s': State, t: nat, info: Info, i: nat, j: nat)
    requires Tree(s) && EndSplit(s, s', t, info) && 0 < i < j < |s'.tasks| && s'.tasks[i].parent == s'.tasks[j].parent
    ensures s'.tasks[i].lo + s'.tasks[i].work.n <= s'.tasks[j].lo
  {
    hide *;
    SplitNow(s, s', t, info);
    if j < |s.tasks| {
      OldTask(s, s', t, info, i);
      OldTask(s, s', t, info, j);
      OldSiblings(s, i, j);
    } else {
      NewTask(s, s', t, info, j);
      if i < |s.tasks| {
        OldTask(s, s', t, info, i);
        ParentSplit(s, i);
      } else {
        NewTask(s, s', t, info, i);
        PiecesFollow(info, i - |s.tasks|, j - |s.tasks|);
        PieceN(s.tasks[t].work, info, i - |s.tasks|);
      }
    }
  }

  lemma SplitTree(s: State, s': State, t: nat, info: Info)
    requires Tree(s) && EndSplit(s, s', t, info)
    ensures Tree(s')
  {
    forall i | 0 <= i < |s'.tasks| ensures TaskOk(s', i) && SplitLinked(s', i) {
      SplitTask(s, s', t, info, i);
      SplitLink(s, s', t, info, i);
    }
    hide TaskOk, SplitLinked;
    forall i, j | 0 < i < j < |s'.tasks| && s'.tasks[i].parent == s'.tasks[j].parent
      ensures s'.tasks[i].lo + s'.tasks[i].work.n <= s'.tasks[j].lo
    {
      SplitSiblings(s, s', t, info, i, j);
    }
  }

  lemma WaitingOk(s: State, out: bool, i: nat, l: Mem)
    requires InMemory(s, i) && s.tasks[i].phase == Waiting && l == Local(s, i) && Ready(s.tasks[i].work, l)
    ensures MemOk(s, out, i)
  {
    hide Ready;
  }

  lemma SplitNow(s: State, s': State, t: nat, info: Info)
    requires EndSplit(s, s', t, info)
    ensures t < |s.tasks| && s'.mem == s.mem && InMemory(s, t) && s.tasks[t].phase.Working?
    ensures SplitOk(s.tasks[t].work, s.tasks[t].phase.snap, Local(s, t), info)
  {
    hide SplitOk;
  }

  lemma NewMem(s: State, s': State, out: bool, t: nat, info: Info, i: nat)
    requires Tree(s) && EndSplit(s, s', t, info) && |s.tasks| <= i < |s'.tasks|
    ensures InMemory(s', i) && MemOk(s', out, i)
  {
    hide *;
    NewTask(s, s', t, info, i);
    SplitNow(s, s', t, info);
    var j, w := i - |s.tasks|, s.tasks[t].work;
    PieceReady(w, s.tasks[t].phase.snap, Local(s, t), info, j);
    PieceN(w, info, j);
    NewLocal(s, s', t, i, PieceLo(info, j), PieceSize(info, j));
    WaitingOk(s', out, i, Local(s', i));
  }

  lemma SplitMem(s: State, s': State, out: bool, t: nat, info: Info)
    requires Tree(s) && AllMemOk(s, out) && EndSplit(s, s', t, info)
    ensures AllMemOk(s', out)
  {
    OldTask(s, s', t, info, t);
    UndoneLive(s, t);
    forall i | 0 <= i < |s'.tasks| && Live(s', i) ensures InMemory(s', i) && MemOk(s', out, i) {
      if i < |s.tasks| {
        OldTask(s, s', t, info, i);
        ParentSplit(s, i);
        if i > 0 { OldTask(s, s', t, info, s.tasks[i].parent); }
        hide Tree, SplitOk, Ready, SortedOk, CloseReady;
        assert i != t ==> Live(s, i);
      } else {
        NewMem(s, s', out, t, info, i);
      }
    }
  }

  lemma SplitFirst(s: State, s': State, m0: Mem, t: nat, info: Info)
    requires Tree(s) && FirstOk(s, m0) && |m0.a| == |s.mem.a| && EndSplit(s, s', t, info)
    ensures FirstOk(s', m0)
  {
    RestFirst(s, m0, t, Split(|s.tasks|, info));
    var s1 := WithPhase(s, t, Split(|s.tasks|, info));
    hide Tree, SplitOk;
    forall u | 0 <= u < |s'.tasks| ensures HasFirst(s'.tasks[u]) <==> u < |s1.tasks| && HasFirst(s1.tasks[u]) {
      if u < |s.tasks| { OldTask(s, s', t, info, u); }
    }
    forall u | 0 <= u < |s'.tasks| && HasFirst(s'.tasks[u]) ensures FirstAs(s'.tasks[u].phase.snap, m0) {
      OldTask(s, s', t, info, u);
    }
  }

  lemma EndSplitInv(s: State, s': State, m0: Mem, out: bool, depth: nat, t: nat, info: Info)
    requires Inv(s, m0, out, depth) && EndSplit(s, s', t, info)
    ensures Inv(s', m0, out, depth)
  {
    OldTask(s, s', t, info, 0);
    SplitTree(s, s', t, info);
    SplitMem(s, s', out, t, info);
    SplitFirst(s, s', m0, t, info);
    hide Tree, AllMemOk, FirstOk, SplitOk;
  }

  lemma StepInv(s: State, s': State, m0: Mem, out: bool, depth: nat)
    requires Inv(s, m0, out, depth) && Step(s, s', out)
    ensures Inv(s', m0, out, depth)
  {
    hide Inv, Begin, Write, EndLeaf, EndSplit, StartClose, EndClose, PiecesAreDone, StepOn;
    var t: nat :| StepOn(s, s', out, t);
    StepOnInv(s, s', m0, out, depth, t);
  }

  lemma StepOnInv(s: State, s': State, m0: Mem, out: bool, depth: nat, t: nat)
    requires Inv(s, m0, out, depth) && StepOn(s, s', out, t)
    ensures Inv(s', m0, out, depth)
  {
    hide Inv, Begin, Write, EndLeaf, EndSplit, StartClose, EndClose, PiecesAreDone;
    if Begin(s, s', t) { BeginInv(s, s', m0, out, depth, t); }
    else if Write(s, s', t) { WriteInv(s, s', m0, out, depth, t); }
    else if EndLeaf(s, s', out, t) { EndLeafInv(s, s', m0, out, depth, t); }
    else if EndClose(s, s', out, t) { EndCloseInv(s, s', m0, out, depth, t); }
    else if PiecesAreDone(s, t) && StartClose(s, s', t) { StartCloseInv(s, s', m0, out, depth, t); }
    else {
      var info :| EndSplit(s, s', t, info);
      EndSplitInv(s, s', m0, out, depth, t, info);
    }
  }

  lemma InitInv(s: State, m0: Mem, out: bool, depth: nat)
    requires Init(s, m0, depth)
    ensures Inv(s, m0, out, depth)
  {
    assert Section(m0, 0, |m0.a|) == m0;
    assert TaskOk(s, 0) && SplitLinked(s, 0);
    assert !HasFirst(s.tasks[0]);
  }

  ghost predicate Run(run: seq<State>, m0: Mem, out: bool, depth: nat) {
    && run != [] && Init(run[0], m0, depth)
    && forall i, j :: 0 <= i < |run| && j == i + 1 && j < |run| ==> Step(run[i], run[j], out)
  }

  /** However the writes of the workers are interleaved: whatever waits to be sorted stands where its
      worker will look for it, and whatever is done stays done. */
  lemma {:induction false} RunInv(run: seq<State>, m0: Mem, out: bool, depth: nat, i: nat)
    requires Run(run, m0, out, depth) && i < |run|
    ensures Inv(run[i], m0, out, depth)
    decreases i
  {
    hide Inv, Step, Init;
    if i == 0 {
      InitInv(run[0], m0, out, depth);
    } else {
      RunInv(run, m0, out, depth, i - 1);
      StepInv(run[i - 1], run[i], m0, out, depth);
    }
  }

  // ---- the root is done -----------------------------------------------------------------------------------

  lemma RootFirst(s: State, m0: Mem, out: bool, depth: nat)
    requires Inv(s, m0, out, depth) && s.tasks[0].phase == Done && |m0.a| > 0
    ensures FirstAs(s.mem, m0)
  {
    forall u | 0 <= u < |s.tasks| ensures !HasFirst(s.tasks[u]) {
      if HasFirst(s.tasks[u]) {
        assert TaskOk(s, u);
        UndoneLive(s, u);
        LiveApart(s, 0, u);
      }
    }
    hide Tree;
  }

  /** The strings are sorted, none is lost, all LCPs and characters but the first are exact, and the
      first are as they were. */
  lemma RootDone(s: State, m0: Mem, out: bool, depth: nat)
    requires Inv(s, m0, out, depth) && s.tasks[0].phase == Done
    ensures LcpSorted(m0.a, OutOf(m0, out), OutOf(s.mem, out), 0, |m0.a|)
    ensures Sized(s.mem, |m0.a|)
  {
    if |m0.a| > 0 { RootFirst(s, m0, out, depth); }
    assert InMemory(s, 0) && MemOk(s, out, 0);
    assert Section(s.mem, 0, |m0.a|) == s.mem;
    hide Tree, Delivered, SameStrings;
  }
}
