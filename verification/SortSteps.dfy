/** The tree of sort steps and their substep counters: any number of threads run, split and finish
    steps in any order; a step completes when everything below it has completed. */
module SortSteps {

  /** A step waits in the queue, runs (holding the anonymous handle on itself), has released that
      handle, executes substep_all_done, or is gone. */
  datatype Phase = Queued | Running | Released | AllDone | Gone

  /** m_substep_working, and whether a substep has been added whose step is not created yet. How often
      substep_all_done was entered is recorded. */
  datatype Node = Node(parent: int, phase: Phase, working: int, adding: bool, fired: nat)

  type State = seq<Node>

  const NO_PARENT := -1

  ghost predicate Init(s: State) {
    s == [Node(NO_PARENT, Queued, 0, false, 0)]
  }

  /** substep_add for the anonymous handle. */
  ghost predicate Start(s: State, s': State, x: nat) {
    x < |s| && s[x].phase == Queued && s' == s[x := s[x].(phase := Running, working := s[x].working + 1)]
  }

  /** substep_add for a substep about to be enqueued; only the running step itself does this. */
  ghost predicate Add(s: State, s': State, x: nat) {
    && x < |s| && s[x].phase == Running && !s[x].adding
    && s' == s[x := s[x].(adding := true, working := s[x].working + 1)]
  }

  /** Enqueue creates the substep. */
  ghost predicate Create(s: State, s': State, x: nat) {
    && x < |s| && s[x].phase == Running && s[x].adding
    && s' == s[x := s[x].(adding := false)] + [Node(x, Queued, 0, false, 0)]
  }

  /** The decrement of substep_notify_done; whoever reaches zero goes on to substep_all_done. */
  function Notified(n: Node): Node {
    if n.working - 1 == 0 then n.(working := 0, phase := AllDone, fired := n.fired + 1)
    else n.(working := n.working - 1)
  }

  /** The step releases its anonymous handle. */
  ghost predicate Release(s: State, s': State, x: nat) {
    && x < |s| && s[x].phase == Running && !s[x].adding
    && s' == s[x := Notified(s[x].(phase := Released))]
  }

  /** substep_all_done notifies the parent and deletes the step. */
  ghost predicate Finish(s: State, s': State, x: nat) {
    && x < |s| && s[x].phase == AllDone
    && var s1 := s[x := s[x].(phase := Gone)];
       if s[x].parent == NO_PARENT then s' == s1
       else 0 <= s[x].parent < |s| && s' == s1[s[x].parent := Notified(s1[s[x].parent])]
  }

  ghost predicate StepAt(s: State, s': State, x: nat) {
    Start(s, s', x) || Add(s, s', x) || Create(s, s', x) || Release(s, s', x) || Finish(s, s', x)
  }

  ghost predicate Step(s: State, s': State) {
    exists x: nat :: StepAt(s, s', x)
  }

  ghost predicate Run(run: seq<State>) {
    run != [] && Init(run[0]) && forall i :: 0 <= i < |run| - 1 ==> Step(run[i], run[i + 1])
  }

  // ---- invariant ---------------------------------------------------------------------------

  predicate OpenChild(n: Node, x: int) {
    n.parent == x && n.phase != Gone
  }

  /** Substeps of x that have not gone. */
  function OpenChildren(s: State, x: int): nat {
    if s == [] then 0
    else OpenChildren(s[..|s| - 1], x) + (if OpenChild(s[|s| - 1], x) then 1 else 0)
  }

  function B(b: bool): nat {
    if b then 1 else 0
  }

  ghost predicate NodeOk(n: Node, x: nat, open: nat) {
    && (n.parent == NO_PARENT || 0 <= n.parent < x)
    && n.working == B(n.phase == Running) + B(n.adding) + open
    && (n.adding ==> n.phase == Running)
    && (n.phase == Queued ==> open == 0)
    && (n.phase == Released ==> open > 0)
    && (n.phase == AllDone || n.phase == Gone ==> open == 0)
    && n.fired == B(n.phase == AllDone || n.phase == Gone)
  }

  ghost predicate Inv(s: State) {
    forall x :: 0 <= x < |s| ==> NodeOk(s[x], x, OpenChildren(s, x))
  }

  lemma {:induction false} OpenUpdate(s: State, y: nat, n: Node, x: int)
    requires y < |s|
    ensures OpenChildren(s[y := n], x) == OpenChildren(s, x) - B(OpenChild(s[y], x)) + B(OpenChild(n, x))
    ensures OpenChildren(s, x) >= B(OpenChild(s[y], x))
  {
    var m := |s| - 1;
    if y < m {
      assert s[y := n][..m] == s[..m][y := n];
      OpenUpdate(s[..m], y, n, x);
    } else {
      assert s[y := n][..m] == s[..m];
    }
  }

  lemma OpenAppend(s: State, n: Node, x: int)
    ensures OpenChildren(s + [n], x) == OpenChildren(s, x) + B(OpenChild(n, x))
  {
    assert (s + [n])[..|s|] == s;
  }

  lemma {:induction false} NoOpenChild(s: State, x: int)
    ensures OpenChildren(s, x) == 0 <==> forall y :: 0 <= y < |s| ==> !OpenChild(s[y], x)
  {
    if s != [] { NoOpenChild(s[..|s| - 1], x); }
  }

  /** A change of one node that concerns neither its parent nor its being there. */
  lemma LocalInv(s: State, x: nat, n: Node)
    requires Inv(s) && x < |s| && n.parent == s[x].parent && (n.phase == Gone) == (s[x].phase == Gone)
    requires NodeOk(n, x, OpenChildren(s, x))
    ensures Inv(s[x := n])
  {
    var s' := s[x := n];
    forall y | 0 <= y < |s'| ensures NodeOk(s'[y], y, OpenChildren(s', y)) {
      OpenUpdate(s, x, n, y);
      assert NodeOk(s[y], y, OpenChildren(s, y));
    }
  }

  lemma CreateInv(s: State, s': State, x: nat)
    requires Inv(s) && Create(s, s', x)
    ensures Inv(s')
  {
    var n, child := s[x].(adding := false), Node(x, Queued, 0, false, 0);
    var s1 := s[x := n];
    forall y | 0 <= y < |s'| ensures NodeOk(s'[y], y, OpenChildren(s', y)) {
      OpenUpdate(s, x, n, y);
      OpenAppend(s1, child, y);
      if y < |s| {
        assert NodeOk(s[y], y, OpenChildren(s, y));
      } else {
        NobodyBelow(s, y);
      }
    }
  }

  /** A step that does not exist yet has no substeps. */
  lemma NobodyBelow(s: State, y: nat)
    requires Inv(s) && y >= |s|
    ensures OpenChildren(s, y) == 0
  {
    NoOpenChild(s, y);
    forall z | 0 <= z < |s| ensures !OpenChild(s[z], y) {
      assert NodeOk(s[z], z, OpenChildren(s, z));
    }
  }

  lemma ReleaseInv(s: State, s': State, x: nat)
    requires Inv(s) && Release(s, s', x)
    ensures Inv(s')
  {
    assert NodeOk(s[x], x, OpenChildren(s, x));
    LocalInv(s, x, Notified(s[x].(phase := Released)));
  }

  /** A substep that ends is counted by its parent, which is still there. */
  lemma ParentAlive(s: State, x: nat)
    requires Inv(s) && x < |s| && s[x].phase != Gone && s[x].parent != NO_PARENT
    ensures var p := s[x].parent;
            && 0 <= p < x && s[p].working >= 1 && OpenChildren(s, p) >= 1
            && (s[p].phase == Running || s[p].phase == Released)
  {
    var p := s[x].parent;
    assert NodeOk(s[x], x, OpenChildren(s, x));
    OpenUpdate(s, x, s[x], p);
    assert NodeOk(s[p], p, OpenChildren(s, p));
  }

  lemma FinishInv(s: State, s': State, x: nat)
    requires Inv(s) && Finish(s, s', x)
    ensures Inv(s')
  {
    var gone := s[x].(phase := Gone);
    var s1, p := s[x := gone], s[x].parent;
    if p != NO_PARENT { ParentAlive(s, x); }
    forall y | 0 <= y < |s'| ensures NodeOk(s'[y], y, OpenChildren(s', y)) {
      assert NodeOk(s[y], y, OpenChildren(s, y));
      OpenUpdate(s, x, gone, y);
      if p != NO_PARENT { OpenUpdate(s1, p, Notified(s1[p]), y); }
    }
  }

  lemma StepInv(s: State, s': State, x: nat)
    requires Inv(s) && StepAt(s, s', x)
    ensures Inv(s')
  {
    assert NodeOk(s[x], x, OpenChildren(s, x));
    if Start(s, s', x) { LocalInv(s, x, s[x].(phase := Running, working := s[x].working + 1)); }
    else if Add(s, s', x) { LocalInv(s, x, s[x].(adding := true, working := s[x].working + 1)); }
    else if Create(s, s', x) { CreateInv(s, s', x); }
    else if Release(s, s', x) { ReleaseInv(s, s', x); }
    else { FinishInv(s, s', x); }
  }

  lemma {:induction false} RunInv(run: seq<State>, i: nat)
    requires Run(run) && i < |run|
    ensures Inv(run[i])
    decreases i
  {
    hide Inv, StepAt;
    if i == 0 {
      InitInv(run[0]);
    } else {
      RunInv(run, i - 1);
      assert Step(run[i - 1], run[i - 1 + 1]);
      var x: nat :| StepAt(run[i - 1], run[i], x);
      StepInv(run[i - 1], run[i], x);
    }
  }

  lemma InitInv(s: State)
    requires Init(s)
    ensures Inv(s)
  {
    assert s[..0] == [];
  }

  // ---- what every run guarantees ---------------------------------------------------------------

  /** y lies below x. */
  ghost predicate Below(s: State, y: int, x: int)
    requires Inv(s)
    decreases y
  {
    0 <= y < |s| && y != x && (assert NodeOk(s[y], y, OpenChildren(s, y)); s[y].parent == x || Below(s, s[y].parent, x))
  }

  /** When a step has completed, everything below it is gone. */
  lemma {:induction false} CompletedBelow(s: State, y: int, x: int)
    requires Inv(s) && Below(s, y, x) && 0 <= x < |s| && (s[x].phase == AllDone || s[x].phase == Gone)
    ensures s[y].phase == Gone
    decreases y
  {
    var p := s[y].parent;
    assert NodeOk(s[y], y, OpenChildren(s, y));
    if p != x { CompletedBelow(s, p, x); }
    assert NodeOk(s[p], p, OpenChildren(s, p));
    NoOpenChild(s, p);
    assert !OpenChild(s[y], p);
  }

  /** substep_all_done runs at most once per step, and only after all steps below it have completed
      theirs; nobody notifies a deleted step. */
  lemma OnceAndLast(run: seq<State>, i: nat, x: nat, y: int)
    requires Run(run) && i < |run| && x < |run[i]|
    ensures run[i][x].fired <= 1 && Inv(run[i])
    ensures run[i][x].fired == 1 && Below(run[i], y, x) ==> run[i][y].phase == Gone && run[i][y].fired == 1
    ensures run[i][x].phase == AllDone && run[i][x].parent != NO_PARENT ==>
              0 <= run[i][x].parent < |run[i]| && run[i][run[i][x].parent].phase != Gone
  {
    var s := run[i];
    RunInv(run, i);
    assert NodeOk(s[x], x, OpenChildren(s, x));
    if s[x].fired == 1 && Below(s, y, x) {
      CompletedBelow(s, y, x);
      assert NodeOk(s[y], y, OpenChildren(s, y));
    }
    if s[x].phase == AllDone && s[x].parent != NO_PARENT { ParentAlive(s, x); }
  }

  /** A step that has released its handle has run substep_all_done exactly if no substep of it is left: the
      completion is never early, and never late. */
  lemma FiresWithTheLast(run: seq<State>, i: nat, x: nat)
    requires Run(run) && i < |run| && x < |run[i]|
    requires run[i][x].phase != Queued && run[i][x].phase != Running
    ensures run[i][x].fired == 1 <==> forall y :: 0 <= y < |run[i]| && run[i][y].parent == x ==> run[i][y].phase == Gone
  {
    var s := run[i];
    RunInv(run, i);
    assert NodeOk(s[x], x, OpenChildren(s, x));
    NoOpenChild(s, x);
    hide OpenChildren;
    assert forall y :: 0 <= y < |s| ==> (OpenChild(s[y], x) <==> s[y].parent == x && s[y].phase != Gone);
  }

  // ---- the counters never get stuck -----------------------------------------------------------------

  /** What is left to do if no further substep is added. */
  function Left(s: State): nat {
    if s == [] then 0 else Left(s[..|s| - 1]) + Weight(s[|s| - 1])
  }

  function Weight(n: Node): nat {
    match n.phase
    case Queued => 4
    case Running => if n.adding then 8 else 3
    case Released => 2
    case AllDone => 1
    case Gone => 0
  }

  lemma {:induction false} LeftUpdate(s: State, x: nat, n: Node)
    requires x < |s|
    ensures Left(s[x := n]) == Left(s) - Weight(s[x]) + Weight(n)
  {
    var m := |s| - 1;
    if x < m {
      assert s[x := n][..m] == s[..m][x := n];
      LeftUpdate(s[..m], x, n);
    } else {
      assert s[x := n][..m] == s[..m];
    }
  }

  lemma LeftAppend(s: State, n: Node)
    ensures Left(s + [n]) == Left(s) + Weight(n)
  {
    assert (s + [n])[..|s|] == s;
  }

  lemma NothingBelowNewest(s: State, x: nat)
    requires Inv(s) && x < |s| && forall y :: x < y < |s| ==> s[y].phase == Gone
    ensures OpenChildren(s, x) == 0
  {
    NoOpenChild(s, x);
    forall y | 0 <= y < |s| ensures !OpenChild(s[y], x) {
      assert NodeOk(s[y], y, OpenChildren(s, y));
    }
  }

  /** The newest step that has not gone waits for no other: it can be started, create the substep it has added,
      release its handle or finish, and leaves less to do. */
  lemma NewestMoves(s: State, x: nat) returns (s': State)
    requires Inv(s) && x < |s| && s[x].phase != Gone
    requires forall y :: x < y < |s| ==> s[y].phase == Gone
    ensures StepAt(s, s', x) && Left(s') < Left(s)
  {
    hide Left, OpenChildren;
    var n := s[x];
    NothingBelowNewest(s, x);
    assert NodeOk(n, x, OpenChildren(s, x));
    if n.phase == AllDone {
      s' := LastNotifies(s, x);
    } else {
      var n' := if n.phase == Queued then n.(phase := Running, working := n.working + 1)
                else if n.adding then n.(adding := false)
                else n.(phase := AllDone, working := 0, fired := n.fired + 1);
      LeftUpdate(s, x, n');
      s' := s[x := n'];
      if n.phase == Running && n.adding {
        var child := Node(x, Queued, 0, false, 0);
        LeftAppend(s', child);
        s' := s' + [child];
      }
    }
  }

  lemma LastNotifies(s: State, x: nat) returns (s': State)
    requires Inv(s) && x < |s| && s[x].phase == AllDone
    ensures StepAt(s, s', x) && Left(s') < Left(s)
  {
    hide Left, Inv;
    var gone, p := s[x].(phase := Gone), s[x].parent;
    s' := s[x := gone];
    LeftUpdate(s, x, gone);
    if p != NO_PARENT {
      ParentAlive(s, x);
      LeftUpdate(s', p, Notified(s'[p]));
      s' := s'[p := Notified(s'[p])];
    }
  }

  lemma {:induction false} Newest(s: State, n: nat) returns (x: nat)
    requires n <= |s| && exists y :: 0 <= y < n && s[y].phase != Gone
    requires forall y :: n <= y < |s| ==> s[y].phase == Gone
    ensures x < |s| && s[x].phase != Gone && forall y :: x < y < |s| ==> s[y].phase == Gone
    decreases n
  {
    x := n - 1;
    if s[x].phase == Gone { x := Newest(s, n - 1); }
  }

  /** As long as a step has not gone, some step can be started, released or finished. */
  lemma SomethingMoves(run: seq<State>, i: nat) returns (x: nat, s': State)
    requires Run(run) && i < |run| && exists y :: 0 <= y < |run[i]| && run[i][y].phase != Gone
    ensures StepAt(run[i], s', x) && Left(s') < Left(run[i])
  {
    hide StepAt, Left, Inv;
    RunInv(run, i);
    x := Newest(run[i], |run[i]|);
    s' := NewestMoves(run[i], x);
  }

  /** Every step has completed, exactly once. */
  ghost predicate Complete(s: State) {
    forall x :: 0 <= x < |s| ==> s[x].phase == Gone && s[x].fired == 1
  }

  /** No thread can make a step. */
  ghost predicate Stuck(s: State) {
    forall s' :: !Step(s, s')
  }

  /** When nothing can move any more, every step has completed, exactly once: no completion is ever lost. */
  lemma AllComplete(run: seq<State>)
    requires Run(run)
    requires Stuck(run[|run| - 1])
    ensures Complete(run[|run| - 1])
  {
    hide StepAt;
    var s := run[|run| - 1];
    if exists y :: 0 <= y < |s| && s[y].phase != Gone {
      var x, s' := SomethingMoves(run, |run| - 1);
      NotStuck(s, s', x);
    }
    GoneFired(run, |run| - 1);
  }

  lemma NotStuck(s: State, s': State, x: nat)
    requires StepAt(s, s', x)
    ensures !Stuck(s)
  {
    hide StepAt;
    assert Step(s, s');
  }

  lemma GoneFired(run: seq<State>, i: nat)
    requires Run(run) && i < |run|
    ensures forall x :: 0 <= x < |run[i]| && run[i][x].phase == Gone ==> run[i][x].fired == 1
  {
    var s := run[i];
    RunInv(run, i);
    forall x | 0 <= x < |s| && s[x].phase == Gone ensures s[x].fired == 1 {
      assert NodeOk(s[x], x, OpenChildren(s, x));
    }
  }

  /** A running step can add a substep: it is counted before it is created and queued. */
  lemma CanSplit(s: State, x: nat) returns (s1: State, s2: State)
    requires Inv(s) && x < |s| && s[x].phase == Running && !s[x].adding
    ensures StepAt(s, s1, x) && StepAt(s1, s2, x) && Inv(s2)
    ensures |s2| == |s| + 1 && s2[|s|].parent == x && s2[|s|].phase == Queued && s2[x].working == s[x].working + 1
    ensures forall y :: 0 <= y < |s| && y != x ==> s2[y] == s[y]
  {
    hide Inv;
    s1 := s[x := s[x].(adding := true, working := s[x].working + 1)];
    s2 := s1[x := s1[x].(adding := false)] + [Node(x, Queued, 0, false, 0)];
    StepInv(s, s1, x);
    StepInv(s1, s2, x);
  }

  lemma RunOn(run: seq<State>, s': State)
    requires Run(run) && Step(run[|run| - 1], s')
    ensures Run(run + [s'])
  {
    hide Step, Init;
    var more := run + [s'];
    forall i | 0 <= i < |more| - 1 ensures Step(more[i], more[i + 1]) {
      if i < |run| - 1 { assert Step(run[i], run[i + 1]); }
    }
  }

  /** Every run has a continuation at whose end every step has completed exactly once. */
  lemma {:induction false} CanComplete(run: seq<State>) returns (all: seq<State>)
    requires Run(run)
    ensures Run(all) && |run| <= |all| && all[..|run|] == run
    ensures Complete(all[|all| - 1])
    decreases Left(run[|run| - 1])
  {
    hide StepAt, Left, Init;
    var s := run[|run| - 1];
    if exists y :: 0 <= y < |s| && s[y].phase != Gone {
      var x, s' := SomethingMoves(run, |run| - 1);
      assert Step(s, s');
      RunOn(run, s');
      hide Run;
      all := CanComplete(run + [s']);
      assert all[..|run|] == all[..|run| + 1][..|run|] == run;
    } else {
      all := run;
      GoneFired(run, |run| - 1);
    }
  }
}
