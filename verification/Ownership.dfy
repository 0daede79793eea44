/** Who owns what while jobs sort pieces in shared memory: every task is the task of at most one step, a
    step whose task is no longer split has dealt with all its parts, and a part that is still open is
    being sorted by a job that has not ended. */
module Ownership {
  import opened Strings
  import opened SharedMemory
  import opened Tasks
  import opened WorkTree
  import opened ParallelSort
  import T = TwoStacks

  // ---- what more holds in every reachable state ------------------------------------------------

  ghost predicate KindOk(k: nat, w: State, t: nat)
    requires t < |w.tasks|
  {
    w.tasks[t].phase.Split? ==> MaySplit(k, w, t, w.tasks[t].phase.info)
  }

  ghost predicate KindsOk(k: nat, w: State) {
    forall t :: 0 <= t < |w.tasks| ==> KindOk(k, w, t)
  }

  /** A step that is not the first of its job was pushed for a part of another one. */
  ghost predicate StepFrom(w: State, job: Job, f: nat)
    requires f < |job.tk|
  {
    exists f0: nat, j0: nat ::
      && (f0, j0) in job.ctl.log && job.ctl.log[(f0, j0)] == T.Pushed(f) && f0 < |job.tk|
      && job.tk[f] < |w.tasks| && w.tasks[job.tk[f]].parent == job.tk[f0]
  }

  ghost predicate StepsFrom(w: State, job: Job) {
    forall f :: 0 < f < |job.tk| ==> StepFrom(w, job, f)
  }

  /** A job that was given away works on a part of the step it comes from. */
  ghost predicate RootFrom(s: Sys, y: nat)
    requires y < |s.jobs|
  {
    var job := s.jobs[y];
    y > 0 ==>
      && 0 <= job.px < y && job.pf < |s.jobs[job.px].tk| && job.root < |s.w.tasks|
      && s.w.tasks[job.root].parent == s.jobs[job.px].tk[job.pf]
  }

  ghost predicate Origins(s: Sys) {
    forall x :: 0 <= x < |s.jobs| ==> StepsFrom(s.w, s.jobs[x]) && RootFrom(s, x)
  }

  /** No task belongs to two steps. */
  ghost predicate TakenOnce(s: Sys) {
    forall x, f, y, g :: 0 <= x < |s.jobs| && 0 <= f < |s.jobs[x].tk| && 0 <= y < |s.jobs| && 0 <= g < |s.jobs[y].tk| ==>
      s.jobs[x].tk[f] == s.jobs[y].tk[g] ==> x == y && f == g
  }

  /** All parts of a step have been dealt with. */
  ghost predicate AllParts(k: nat, c: T.State, f: nat)
    requires f < |c.isSs|
  {
    forall j: nat :: j < T.Parts(k, c.isSs[f]) ==> (f, j) in c.log
  }

  ghost predicate DealtAt(k: nat, w: State, job: Job, f: nat)
    requires f < |job.tk|
  {
    job.tk[f] < |w.tasks| && f < |job.ctl.isSs| && (w.tasks[job.tk[f]].phase.Split? || AllParts(k, job.ctl, f))
  }

  ghost predicate DealtOk(k: nat, w: State, job: Job) {
    forall f :: 0 <= f < |job.tk| ==> DealtAt(k, w, job, f)
  }

  /** The job sorting a part that has been given away. */
  ghost predicate Owned(s: Sys, x: nat, f: nat, j: nat) {
    exists y :: x < y < |s.jobs| && s.jobs[y].px == x && s.jobs[y].pf == f && s.jobs[y].pj == j && s.jobs[y].ctl.pc != T.Finished
  }

  ghost predicate OpenOwned(s: Sys) {
    forall x: nat, f: nat, j: nat :: x < |s.jobs| && (f, j) in s.jobs[x].ctl.open ==> Owned(s, x, f, j)
  }

  ghost predicate Owners(k: nat, s: Sys) {
    && KindsOk(k, s.w) && Origins(s) && TakenOnce(s) && OpenOwned(s)
    && (forall x :: 0 <= x < |s.jobs| ==> DealtOk(k, s.w, s.jobs[x]))
  }

  // ---- work on tasks ----------------------------------------------------------------------------------

  /** Only task t has changed, and new ones wait. */
  ghost predicate OnlyTask(w: State, w': State, t: nat) {
    && t < |w.tasks| <= |w'.tasks|
    && (forall i :: 0 <= i < |w.tasks| ==> w'.tasks[i].parent == w.tasks[i].parent)
    && (forall i :: 0 <= i < |w.tasks| && i != t ==> w'.tasks[i].phase == w.tasks[i].phase)
    && (forall i :: |w.tasks| <= i < |w'.tasks| ==> w'.tasks[i].phase.Waiting?)
  }

  lemma SplitOnly(w: State, w': State, t: nat, info: Info)
    requires EndSplit(w, w', t, info)
    ensures OnlyTask(w, w', t) && w.tasks[t].phase.Working?
  {
    hide SplitOk, IsPiece;
    forall i | 0 <= i < |w.tasks| ensures w'.tasks[i].parent == w.tasks[i].parent && (i != t ==> w'.tasks[i].phase == w.tasks[i].phase) {
      OldTask(w, w', t, info, i);
    }
  }

  /** Work takes a task on that is not split. */
  lemma WorkOnly(w: State, w': State, out: bool, t: nat)
    requires WorkOn(w, w', out, t)
    ensures OnlyTask(w, w', t) && !w.tasks[t].phase.Split?
    ensures w'.tasks[t].phase.Split? ==> w.tasks[t].phase.Working?
  {
    hide LeafOk, CloseOk, EndSplit, Kept, Local;
    if exists info :: EndSplit(w, w', t, info) {
      var info :| EndSplit(w, w', t, info);
      SplitOnly(w, w', t, info);
    }
  }

  lemma NotBelow(w: State, w': State, t: nat, u: nat)
    requires Tree(w) && OnlyTask(w, w', t) && u < |w.tasks| && BelowPivot(w', u)
    requires !w'.tasks[t].phase.Split? || w.tasks[t].phase.Working?
    ensures BelowPivot(w, u)
  {
    assert TaskOk(w, u);
    hide SplitLinked;
  }

  lemma KindsGoOn(k: nat, w: State, w': State, t: nat)
    requires Tree(w) && KindsOk(k, w) && OnlyTask(w, w', t) && SplitsAsMeant(k, w, w', t)
    requires w'.tasks[t].phase.Split? ==> w.tasks[t].phase.Working?
    ensures KindsOk(k, w')
  {
    hide Tree, BelowPivot;
    forall u | 0 <= u < |w'.tasks| ensures KindOk(k, w', u) {
      if w'.tasks[u].phase.Split? {
        if BelowPivot(w', u) { NotBelow(w, w', t, u); }
        assert KindOk(k, w, u);
      }
    }
  }

  /** Jobs and parents of tasks as they were. */
  lemma OriginsGoOn(s: Sys, s': Sys, t: nat)
    requires Origins(s) && s'.jobs == s.jobs && OnlyTask(s.w, s'.w, t)
    ensures Origins(s')
  {
    forall x | 0 <= x < |s'.jobs| ensures StepsFrom(s'.w, s'.jobs[x]) && RootFrom(s', x) {
      assert StepsFrom(s.w, s.jobs[x]) && RootFrom(s, x);
      forall f | 0 < f < |s.jobs[x].tk| ensures StepFrom(s'.w, s'.jobs[x], f) {
        assert StepFrom(s.w, s.jobs[x], f);
      }
    }
  }

  lemma DealtGoesOn(k: nat, w: State, w': State, job: Job, t: nat)
    requires DealtOk(k, w, job) && OnlyTask(w, w', t) && !w.tasks[t].phase.Split?
    ensures DealtOk(k, w', job)
  {
    hide AllParts;
    forall f | 0 <= f < |job.tk| ensures DealtAt(k, w', job, f) { assert DealtAt(k, w, job, f); }
  }

  lemma WorkOwners(k: nat, s: Sys, s': Sys, out: bool)
    requires Owners(k, s) && Tree(s.w) && WorkStep(k, s, s', out)
    ensures Owners(k, s')
  {
    hide Tree, WorkOn, SplitsAsMeant, KindsOk, Origins, AllParts, Owned, DealtOk, OnlyTask;
    var t: nat :| WorkOn(s.w, s'.w, out, t) && SplitsAsMeant(k, s.w, s'.w, t);
    WorkOnly(s.w, s'.w, out, t);
    KindsGoOn(k, s.w, s'.w, t);
    OriginsGoOn(s, s', t);
    forall x | 0 <= x < |s.jobs| ensures DealtOk(k, s'.w, s.jobs[x]) { DealtGoesOn(k, s.w, s'.w, s.jobs[x], t); }
    forall x: nat, f: nat, j: nat | x < |s.jobs| && (f, j) in s.jobs[x].ctl.open ensures Owned(s', x, f, j) {
      assert Owned(s, x, f, j);
      SameOwner(s, s', x, f, j);
    }
  }

  lemma SameOwner(s: Sys, s': Sys, x: nat, f: nat, j: nat)
    requires Owned(s, x, f, j) && s'.jobs == s.jobs
    ensures Owned(s', x, f, j)
  {
  }

  lemma CloseOnly(w: State, w': State, t: nat)
    requires StartClose(w, w', t)
    ensures OnlyTask(w, w', t) && !w'.tasks[t].phase.Split? && w.tasks[t].phase.Split?
  {
  }

  /** When calculate_lcp begins, all parts of the step have been dealt with. */
  lemma ClosingParts(k: nat, w: State, job: Job, f: nat)
    requires JobOk(k, w, job) && f < |job.tk| && MayClose(k, job.ctl, f)
    ensures f < |job.ctl.isSs| && AllParts(k, job.ctl, f)
  {
    hide StepTaskOk, T.Inv, T.Step;
    var c' :| T.Step(k, job.ctl, c', T.Lcp(f));
    T.LcpAfterParts(k, job.ctl, c', T.Lcp(f));
  }

  /** The closing step is the only one with this task. */
  lemma DealtClosing(k: nat, s: Sys, s': Sys, x: nat, f: nat, y: nat)
    requires TakenOnce(s) && x < |s.jobs| && y < |s.jobs| && f < |s.jobs[x].tk| && DealtOk(k, s.w, s.jobs[y])
    requires OnlyTask(s.w, s'.w, s.jobs[x].tk[f]) && f < |s.jobs[x].ctl.isSs| && AllParts(k, s.jobs[x].ctl, f)
    ensures DealtOk(k, s'.w, s.jobs[y])
  {
    hide AllParts;
    var job := s.jobs[y];
    forall g | 0 <= g < |job.tk| ensures DealtAt(k, s'.w, job, g) {
      assert DealtAt(k, s.w, job, g);
      assert job.tk[g] == s.jobs[x].tk[f] ==> y == x && g == f;
    }
  }

  lemma CloseOwners(k: nat, s: Sys, s': Sys, x: nat, f: nat)
    requires Owners(k, s) && Tree(s.w) && JobsOk(k, s) && CloseStep(k, s, s', x, f)
    ensures Owners(k, s')
  {
    hide Tree, KindsOk, Origins, AllParts, Owned, JobOk, MayClose, StartClose, ChildOk, GivenOnce, DealtOk, OnlyTask;
    var t := s.jobs[x].tk[f];
    CloseOnly(s.w, s'.w, t);
    KindsGoOn(k, s.w, s'.w, t);
    OriginsGoOn(s, s', t);
    ClosingParts(k, s.w, s.jobs[x], f);
    forall y | 0 <= y < |s.jobs| ensures DealtOk(k, s'.w, s.jobs[y]) {
      assert DealtOk(k, s.w, s.jobs[y]);
      DealtClosing(k, s, s', x, f, y);
    }
    forall y: nat, g: nat, j: nat | y < |s.jobs| && (g, j) in s.jobs[y].ctl.open ensures Owned(s', y, g, j) {
      assert Owned(s, y, g, j);
      SameOwner(s, s', y, g, j);
    }
  }

  // ---- a part that is dealt with ------------------------------------------------------------------------

  /** As long as a part is left, the step's task is split and the part is a task below it. */
  lemma DealSplit(k: nat, w: State, job: Job, f: nat, j: nat)
    requires Tree(w) && JobOk(k, w, job) && DealtOk(k, w, job)
    requires f < |job.ctl.isSs| && j < T.Parts(k, job.ctl.isSs[f]) && (f, j) !in job.ctl.log
    ensures f < |job.tk| && job.tk[f] < |w.tasks| && w.tasks[job.tk[f]].phase.Split?
    ensures SplitAs(k, w, job.tk[f], job.ctl.isSs[f])
    ensures PartTask(w, job, f, j) == w.tasks[job.tk[f]].phase.first + j < |w.tasks|
    ensures w.tasks[PartTask(w, job, f, j)].parent == job.tk[f]
  {
    hide TaskOk, T.Inv;
    assert StepTaskOk(k, w, job, f) && SplitLinked(w, job.tk[f]) && DealtAt(k, w, job, f);
  }

  /** The part that a step was pushed for. */
  lemma PushedPart(k: nat, w: State, job: Job, g: nat) returns (f: nat, j: nat)
    requires JobOk(k, w, job) && StepsFrom(w, job) && 0 < g < |job.tk|
    ensures (f, j) in job.ctl.log && job.ctl.log[(f, j)] == T.Pushed(g) && f < |job.tk|
    ensures job.tk[g] < |w.tasks| && w.tasks[job.tk[g]].parent == job.tk[f] && job.tk[f] < |w.tasks|
    ensures w.tasks[job.tk[f]].phase.Split? ==> job.tk[g] == w.tasks[job.tk[f]].phase.first + j
  {
    hide T.Inv;
    assert StepFrom(w, job, g);
    f, j :| (f, j) in job.ctl.log && job.ctl.log[(f, j)] == T.Pushed(g) && f < |job.tk|
            && job.tk[g] < |w.tasks| && w.tasks[job.tk[g]].parent == job.tk[f];
    assert StepTaskOk(k, w, job, f);
    if w.tasks[job.tk[f]].phase.Split? { assert PartOk(w, job, w.tasks[job.tk[f]].phase.first + j, f, j); }
  }

  /** What is known of the first task of a job. */
  lemma GivenPart(k: nat, s: Sys, y: nat)
    requires Tree(s.w) && JobsOk(k, s) && Origins(s) && y < |s.jobs|
    ensures s.jobs[y].root < |s.w.tasks| && (s.jobs[y].tk != [] ==> s.jobs[y].tk[0] == s.jobs[y].root)
    ensures y == 0 ==> s.w.tasks[s.jobs[y].root].parent == -1
    ensures y > 0 ==>
              && 0 <= s.jobs[y].px < y
              && var p := s.jobs[s.jobs[y].px];
                 && s.jobs[y].pf < |p.tk| && p.tk[s.jobs[y].pf] < |s.w.tasks|
                 && (s.jobs[y].pf, s.jobs[y].pj) in p.ctl.log && p.ctl.log[(s.jobs[y].pf, s.jobs[y].pj)] == T.Given
                 && s.w.tasks[s.jobs[y].root].parent == p.tk[s.jobs[y].pf]
                 && (s.w.tasks[p.tk[s.jobs[y].pf]].phase.Split? ==>
                       s.jobs[y].root == s.w.tasks[p.tk[s.jobs[y].pf]].phase.first + s.jobs[y].pj)
  {
    hide SplitLinked, T.Inv, GivenOnce;
    JobAt(k, s, y);
    assert RootFrom(s, y) && TaskOk(s.w, 0);
    hide TaskOk;
  }

  /** A part that has not been dealt with is nobody's step. */
  lemma PartFree(k: nat, s: Sys, x: nat, f: nat, j: nat, y: nat, g: nat)
    requires Tree(s.w) && JobsOk(k, s) && Owners(k, s) && x < |s.jobs| && y < |s.jobs| && g < |s.jobs[y].tk|
    requires f < |s.jobs[x].ctl.isSs| && j < T.Parts(k, s.jobs[x].ctl.isSs[f]) && (f, j) !in s.jobs[x].ctl.log
    ensures s.jobs[y].tk[g] != PartTask(s.w, s.jobs[x], f, j)
  {
    hide Tree, JobOk, DealtOk, ChildOk, StepsFrom, KindsOk, OpenOwned, PartTask, T.Inv, RootFrom, GivenOnce;
    JobAt(k, s, x);
    JobAt(k, s, y);
    DealSplit(k, s.w, s.jobs[x], f, j);
    assert StepsFrom(s.w, s.jobs[y]);
    GivenPart(k, s, y);
    if g > 0 {
      var f0, j0 := PushedPart(k, s.w, s.jobs[y], g);
    }
  }

  /** Before a job has begun, its task is nobody's step. */
  lemma RootFree(k: nat, s: Sys, x: nat, y: nat, g: nat)
    requires Tree(s.w) && JobsOk(k, s) && Owners(k, s) && x < |s.jobs| && y < |s.jobs| && g < |s.jobs[y].tk|
    requires s.jobs[x].tk == [] && s.jobs[x].root < |s.w.tasks| && s.w.tasks[s.jobs[x].root].phase.Split?
    ensures s.jobs[y].tk[g] != s.jobs[x].root
  {
    hide Tree, JobOk, DealtOk, ChildOk, StepsFrom, KindsOk, OpenOwned, T.Inv, RootFrom;
    JobAt(k, s, x);
    JobAt(k, s, y);
    GivenPart(k, s, x);
    GivenPart(k, s, y);
    SplitBelow(s.w, s.jobs[x].root);
    assert StepsFrom(s.w, s.jobs[y]);
    if g > 0 {
      var f0, j0 := PushedPart(k, s.w, s.jobs[y], g);
    }
  }

  lemma SplitBelow(w: State, t: nat)
    requires Tree(w) && t < |w.tasks| && w.tasks[t].phase.Split?
    ensures t > 0 ==> 0 <= w.tasks[t].parent < t && w.tasks[w.tasks[t].parent].phase.Split?
    ensures t == 0 ==> w.tasks[t].parent == -1
  {
    assert TaskOk(w, t);
    hide SplitLinked;
  }

  // ---- the control of a job goes on ---------------------------------------------------------------------

  /** Job x goes on, and perhaps one more job has been given away. */
  ghost predicate OnlyJob(s: Sys, s': Sys, x: nat) {
    && x < |s.jobs| <= |s'.jobs| && s'.w == s.w && Further(s.jobs[x], s'.jobs[x])
    && (forall y :: 0 <= y < |s.jobs| && y != x ==> s'.jobs[y] == s.jobs[y])
  }

  lemma StepsStay(w: State, job: Job, job': Job)
    requires StepsFrom(w, job) && Further(job, job') && job'.tk == job.tk
    ensures StepsFrom(w, job')
  {
    forall f | 0 < f < |job'.tk| ensures StepFrom(w, job', f) { assert StepFrom(w, job, f); }
  }

  lemma StepsPushed(w: State, job: Job, job': Job, f: nat, j: nat, t: nat)
    requires StepsFrom(w, job) && Further(job, job') && job'.tk == job.tk + [t]
    requires f < |job.tk| && t < |w.tasks| && w.tasks[t].parent == job.tk[f]
    requires (f, j) in job'.ctl.log && job'.ctl.log[(f, j)] == T.Pushed(|job.tk|)
    ensures StepsFrom(w, job')
  {
    forall g | 0 < g < |job'.tk| ensures StepFrom(w, job', g) {
      if g < |job.tk| { assert StepFrom(w, job, g); } else { assert job'.tk[f] == job.tk[f]; }
    }
  }

  lemma RootStays(s: Sys, s': Sys, x: nat, y: nat)
    requires OnlyJob(s, s', x) && y < |s.jobs| && RootFrom(s, y)
    ensures RootFrom(s', y)
  {
    hide Grows;
  }

  lemma OriginsStay(s: Sys, s': Sys, x: nat)
    requires Origins(s) && OnlyJob(s, s', x) && StepsFrom(s.w, s'.jobs[x])
    requires forall y :: |s.jobs| <= y < |s'.jobs| ==> s'.jobs[y].tk == [] && RootFrom(s', y)
    ensures Origins(s')
  {
    hide Grows;
    forall y | 0 <= y < |s'.jobs| ensures StepsFrom(s'.w, s'.jobs[y]) && RootFrom(s', y) {
      if y < |s.jobs| {
        assert StepsFrom(s.w, s.jobs[y]) && RootFrom(s, y);
        RootStays(s, s', x, y);
      }
    }
  }

  /** A new step takes a task that nobody had. */
  lemma TakenStays(s: Sys, s': Sys, x: nat)
    requires TakenOnce(s) && OnlyJob(s, s', x) && forall y :: |s.jobs| <= y < |s'.jobs| ==> s'.jobs[y].tk == []
    requires |s'.jobs[x].tk| <= |s.jobs[x].tk| + 1
    requires |s'.jobs[x].tk| > |s.jobs[x].tk| ==>
               forall y, g :: 0 <= y < |s.jobs| && 0 <= g < |s.jobs[y].tk| ==> s.jobs[y].tk[g] != s'.jobs[x].tk[|s.jobs[x].tk|]
    ensures TakenOnce(s')
  {
    hide Grows;
    var n := |s.jobs[x].tk|;
    assert forall f :: 0 <= f < n ==> s'.jobs[x].tk[f] == s.jobs[x].tk[f];
  }

  lemma OpenStays(s: Sys, s': Sys, x: nat, f: nat, j: nat)
    requires OpenOwned(s) && OnlyJob(s, s', x) && s'.jobs[x].ctl.pc != T.Finished
    requires forall y :: |s.jobs| <= y < |s'.jobs| ==> s'.jobs[y].ctl.open == {} && s'.jobs[y].ctl.pc != T.Finished
    requires forall p :: p in s'.jobs[x].ctl.open ==> p in s.jobs[x].ctl.open || p == (f, j)
    requires (f, j) in s.jobs[x].ctl.open || (f, j) !in s'.jobs[x].ctl.open
             || (|s'.jobs| == |s.jobs| + 1 && s'.jobs[|s.jobs|].px == x && s'.jobs[|s.jobs|].pf == f && s'.jobs[|s.jobs|].pj == j)
    ensures OpenOwned(s')
  {
    hide Grows;
    forall z: nat, g: nat, i: nat | z < |s'.jobs| && (g, i) in s'.jobs[z].ctl.open ensures Owned(s', z, g, i) {
      if z < |s.jobs| && (g, i) in s.jobs[z].ctl.open {
        assert Owned(s, z, g, i);
        var y :| z < y < |s.jobs| && s.jobs[y].px == z && s.jobs[y].pf == g && s.jobs[y].pj == i && s.jobs[y].ctl.pc != T.Finished;
        assert s'.jobs[y].px == z && s'.jobs[y].pf == g && s'.jobs[y].pj == i && s'.jobs[y].ctl.pc != T.Finished;
      }
    }
  }

  lemma PartsStay(k: nat, c: T.State, c': T.State, f: nat)
    requires f < |c.isSs| <= |c'.isSs| && AllParts(k, c, f) && Grows(c, c') && c'.isSs[f] == c.isSs[f]
    ensures AllParts(k, c', f)
  {
  }

  lemma DealtStays(k: nat, w: State, job: Job, job': Job)
    requires DealtOk(k, w, job) && Further(job, job') && |job'.tk| <= |job'.ctl.isSs| && |job.tk| <= |job.ctl.isSs|
    requires |job.ctl.isSs| <= |job'.ctl.isSs| && forall f :: 0 <= f < |job.tk| ==> job'.ctl.isSs[f] == job.ctl.isSs[f]
    requires forall f :: |job.tk| <= f < |job'.tk| ==> job'.tk[f] < |w.tasks| && w.tasks[job'.tk[f]].phase.Split?
    ensures DealtOk(k, w, job')
  {
    hide AllParts, Grows;
    forall f | 0 <= f < |job'.tk| ensures DealtAt(k, w, job', f) {
      if f < |job.tk| {
        assert DealtAt(k, w, job, f) && job'.tk[f] == job.tk[f];
        if !w.tasks[job.tk[f]].phase.Split? { PartsStay(k, job.ctl, job'.ctl, f); }
      }
    }
  }

  lemma ControlFacts(k: nat, s: Sys, s': Sys, x: nat, e: T.Event)
    requires JobsOk(k, s) && ControlStep(k, s, s', x, e)
    ensures OnlyJob(s, s', x) && |s.jobs[x].tk| == |s.jobs[x].ctl.isSs|
    ensures T.Effect(k, s.jobs[x].ctl, s'.jobs[x].ctl, e) && s'.jobs[x].ctl.pc != T.Finished
    ensures JobOk(k, s.w, s.jobs[x])
    ensures e.First? ==> s.jobs[x].tk == []
  {
    hide JobsOk, T.Inv, T.Step, StepTaskOk, T.Effect, Grows, SplitAs, IsDone, PartTask;
    JobAt(k, s, x);
    T.StepEffect(k, s.jobs[x].ctl, s'.jobs[x].ctl, e);
    T.StepEnds(k, s.jobs[x].ctl, s'.jobs[x].ctl, e);
    GrowsOn(k, s.jobs[x].ctl, s'.jobs[x].ctl, e);
    FirstFirst(k, s.jobs[x].ctl, s'.jobs[x].ctl, e);
  }

  lemma FirstFirst(k: nat, c: T.State, c': T.State, e: T.Event)
    requires T.Effect(k, c, c', e)
    ensures e.First? ==> c.isSs == []
  {
  }

  /** The step concerns nobody else's parts. */
  lemma QuietOwners(k: nat, s: Sys, s': Sys, x: nat, e: T.Event)
    requires Owners(k, s) && JobsOk(k, s) && ControlStep(k, s, s', x, e) && (e.Tau? || e.Nothing? || e.Lcp? || (e.Deal? && e.how == T.Local))
    ensures Owners(k, s')
  {
    hide JobsOk, JobOk, T.Step, T.Inv, KindsOk, Origins, TakenOnce, OpenOwned, DealtOk, Grows, IsDone, PartTask, StepsFrom;
    ControlFacts(k, s, s', x, e);
    StepsFromAt(s, x);
    StepsStay(s.w, s.jobs[x], s'.jobs[x]);
    OriginsStay(s, s', x);
    TakenStays(s, s', x);
    OpenStays(s, s', x, 0, 0);
    forall y | 0 <= y < |s'.jobs| ensures DealtOk(k, s'.w, s'.jobs[y]) {
      assert DealtOk(k, s.w, s.jobs[y]);
      if y == x { DealtStays(k, s.w, s.jobs[x], s'.jobs[x]); }
    }
  }

  lemma StepsFromAt(s: Sys, x: nat)
    requires Origins(s) && x < |s.jobs|
    ensures StepsFrom(s.w, s.jobs[x])
  {
  }

  lemma FirstOwners(k: nat, s: Sys, s': Sys, x: nat, e: T.Event)
    requires Owners(k, s) && Tree(s.w) && JobsOk(k, s) && ControlStep(k, s, s', x, e) && e.First?
    ensures Owners(k, s')
  {
    hide JobsOk, JobOk, T.Step, T.Inv, KindsOk, Origins, TakenOnce, OpenOwned, DealtOk, Grows, IsDone, PartTask, StepsFrom, Tree;
    ControlFacts(k, s, s', x, e);
    OneStep(s.w, s'.jobs[x]);
    OriginsStay(s, s', x);
    forall y, g | 0 <= y < |s.jobs| && 0 <= g < |s.jobs[y].tk| ensures s.jobs[y].tk[g] != s.jobs[x].root {
      RootFree(k, s, x, y, g);
    }
    TakenStays(s, s', x);
    OpenStays(s, s', x, 0, 0);
    forall y | 0 <= y < |s'.jobs| ensures DealtOk(k, s'.w, s'.jobs[y]) {
      assert DealtOk(k, s.w, s.jobs[y]);
      if y == x { DealtStays(k, s.w, s.jobs[x], s'.jobs[x]); }
    }
  }

  lemma OneStep(w: State, job: Job)
    requires |job.tk| <= 1
    ensures StepsFrom(w, job)
  {
  }

  lemma PushOwners(k: nat, s: Sys, s': Sys, x: nat, e: T.Event)
    requires Owners(k, s) && Tree(s.w) && JobsOk(k, s) && ControlStep(k, s, s', x, e) && e.Deal? && e.how.Pushed?
    ensures Owners(k, s')
  {
    hide JobsOk, JobOk, T.Step, T.Inv, KindsOk, Origins, TakenOnce, OpenOwned, DealtOk, Grows, IsDone, PartTask, StepsFrom, Tree;
    ControlFacts(k, s, s', x, e);
    var job, t := s.jobs[x], PartTask(s.w, s.jobs[x], e.f, e.j);
    assert DealtOk(k, s.w, job);
    DealSplit(k, s.w, job, e.f, e.j);
    StepsFromAt(s, x);
    StepsPushed(s.w, job, s'.jobs[x], e.f, e.j, t);
    OriginsStay(s, s', x);
    forall y, g | 0 <= y < |s.jobs| && 0 <= g < |s.jobs[y].tk| ensures s.jobs[y].tk[g] != t {
      PartFree(k, s, x, e.f, e.j, y, g);
    }
    TakenStays(s, s', x);
    OpenStays(s, s', x, 0, 0);
    forall y | 0 <= y < |s'.jobs| ensures DealtOk(k, s'.w, s'.jobs[y]) {
      assert DealtOk(k, s.w, s.jobs[y]);
      if y == x { DealtStays(k, s.w, s.jobs[x], s'.jobs[x]); }
    }
  }

  lemma GivenFrom(s: Sys, s': Sys, x: nat, t: nat, f: nat, j: nat)
    requires OnlyJob(s, s', x) && |s'.jobs| == |s.jobs| + 1 && s'.jobs[|s.jobs|] == FreshJob(t, x, f, j)
    requires f < |s.jobs[x].tk| && t < |s.w.tasks| && s.w.tasks[t].parent == s.jobs[x].tk[f]
    ensures RootFrom(s', |s.jobs|)
  {
    hide Grows;
    assert s'.jobs[x].tk[f] == s.jobs[x].tk[f];
  }

  lemma NoSteps(k: nat, w: State, job: Job)
    requires job.tk == []
    ensures DealtOk(k, w, job)
  {
  }

  lemma GiveOwners(k: nat, s: Sys, s': Sys, x: nat, e: T.Event)
    requires Owners(k, s) && Tree(s.w) && JobsOk(k, s) && ControlStep(k, s, s', x, e) && e.Deal? && e.how.Given?
    ensures Owners(k, s')
  {
    hide JobsOk, JobOk, T.Step, T.Inv, KindsOk, Origins, TakenOnce, OpenOwned, DealtOk, Grows, IsDone, PartTask, StepsFrom, Tree, RootFrom;
    ControlFacts(k, s, s', x, e);
    var job, t := s.jobs[x], PartTask(s.w, s.jobs[x], e.f, e.j);
    assert DealtOk(k, s.w, job);
    DealSplit(k, s.w, job, e.f, e.j);
    StepsFromAt(s, x);
    StepsStay(s.w, job, s'.jobs[x]);
    GivenFrom(s, s', x, t, e.f, e.j);
    OriginsStay(s, s', x);
    TakenStays(s, s', x);
    OpenStays(s, s', x, e.f, e.j);
    forall y | 0 <= y < |s'.jobs| ensures DealtOk(k, s'.w, s'.jobs[y]) {
      if y < |s.jobs| { assert DealtOk(k, s.w, s.jobs[y]); } else { NoSteps(k, s'.w, s'.jobs[y]); }
      if y == x { DealtStays(k, s.w, s.jobs[x], s'.jobs[x]); }
    }
  }

  lemma ControlOwners(k: nat, s: Sys, s': Sys, x: nat, e: T.Event)
    requires Owners(k, s) && Tree(s.w) && JobsOk(k, s) && ControlStep(k, s, s', x, e)
    ensures Owners(k, s')
  {
    hide Owners, Tree, JobsOk, T.Step, SplitAs, IsDone, PartTask;
    if e.First? { FirstOwners(k, s, s', x, e); }
    else if e.Deal? && e.how.Pushed? { PushOwners(k, s, s', x, e); }
    else if e.Deal? && e.how.Given? { GiveOwners(k, s, s', x, e); }
    else { QuietOwners(k, s, s', x, e); }
  }

  // ---- a job ends -----------------------------------------------------------------------------------------

  /** The job that ends, or the one that is notified. */
  ghost predicate Ends(job: Job, job': Job) {
    && job'.root == job.root && job'.px == job.px && job'.pf == job.pf && job'.pj == job.pj && job'.tk == job.tk
    && job'.ctl.log == job.ctl.log && job'.ctl.isSs == job.ctl.isSs
  }

  lemma EndsOrigins(k: nat, s: Sys, s': Sys)
    requires Origins(s) && TakenOnce(s) && s'.w == s.w && |s'.jobs| == |s.jobs|
    requires forall z :: 0 <= z < |s.jobs| ==> Ends(s.jobs[z], s'.jobs[z]) && DealtOk(k, s.w, s.jobs[z])
    ensures Origins(s') && TakenOnce(s') && forall z :: 0 <= z < |s'.jobs| ==> DealtOk(k, s'.w, s'.jobs[z])
  {
    forall z | 0 <= z < |s'.jobs| ensures StepsFrom(s'.w, s'.jobs[z]) && RootFrom(s', z) && DealtOk(k, s'.w, s'.jobs[z]) {
      assert StepsFrom(s.w, s.jobs[z]) && RootFrom(s, z) && Ends(s.jobs[z], s'.jobs[z]) && DealtOk(k, s.w, s.jobs[z]);
      forall f | 0 < f < |s.jobs[z].tk| ensures StepFrom(s'.w, s'.jobs[z], f) { assert StepFrom(s.w, s.jobs[z], f); }
      forall f | 0 <= f < |s.jobs[z].tk| ensures DealtAt(k, s'.w, s'.jobs[z], f) { assert DealtAt(k, s.w, s.jobs[z], f); }
    }
  }

  /** What one job's notification does to both jobs. */
  lemma LeaveFacts(k: nat, s: Sys, s': Sys, y: nat)
    requires JobsOk(k, s) && LeaveStep(k, s, s', y)
    ensures y < |s.jobs| == |s'.jobs| && s'.w == s.w
    ensures forall z :: 0 <= z < |s.jobs| ==>
              && Ends(s.jobs[z], s'.jobs[z])
              && s'.jobs[z].ctl.open == s.jobs[z].ctl.open - (if z == s.jobs[y].px then {(s.jobs[y].pf, s.jobs[y].pj)} else {})
              && (z != y && s.jobs[z].ctl.pc != T.Finished ==> s'.jobs[z].ctl.pc != T.Finished)
  {
    hide T.Step, T.Inv, JobOk, JobsOk, ChildOk;
    JobAt(k, s, y);
    T.StepEffect(k, s.jobs[y].ctl, s'.jobs[y].ctl, T.Leave);
    if s.jobs[y].px != NO_PARENT {
      var x := s.jobs[y].px;
      LeaveStays(s, s', k, y);
      JobAt(k, s, x);
      T.StepEffect(k, s.jobs[x].ctl, s'.jobs[x].ctl, T.Returned(s.jobs[y].pf, s.jobs[y].pj));
      T.StepEnds(k, s.jobs[x].ctl, s'.jobs[x].ctl, T.Returned(s.jobs[y].pf, s.jobs[y].pj));
    }
  }

  lemma LeaveOwners(k: nat, s: Sys, s': Sys, y: nat)
    requires Owners(k, s) && JobsOk(k, s) && LeaveStep(k, s, s', y)
    ensures Owners(k, s')
  {
    hide LeaveStep, JobsOk, KindsOk, Origins, TakenOnce, OpenOwned, DealtOk, Ends;
    LeaveFacts(k, s, s', y);
    EndsOrigins(k, s, s');
    EndedParts(s, s', y);
  }

  /** Exactly the part that the job was given is not open any more. */
  lemma EndedParts(s: Sys, s': Sys, y: nat)
    requires OpenOwned(s) && y < |s.jobs| == |s'.jobs|
    requires forall z :: 0 <= z < |s.jobs| ==>
               && Ends(s.jobs[z], s'.jobs[z])
               && s'.jobs[z].ctl.open == s.jobs[z].ctl.open - (if z == s.jobs[y].px then {(s.jobs[y].pf, s.jobs[y].pj)} else {})
               && (z != y && s.jobs[z].ctl.pc != T.Finished ==> s'.jobs[z].ctl.pc != T.Finished)
    ensures OpenOwned(s')
  {
    forall x: nat, f: nat, j: nat | x < |s'.jobs| && (f, j) in s'.jobs[x].ctl.open ensures Owned(s', x, f, j) {
      assert Owned(s, x, f, j);
      var z :| x < z < |s.jobs| && s.jobs[z].px == x && s.jobs[z].pf == f && s.jobs[z].pj == j && s.jobs[z].ctl.pc != T.Finished;
      assert s'.jobs[z].px == x && s'.jobs[z].pf == f && s'.jobs[z].pj == j;
    }
  }

  // ---- every run ---------------------------------------------------------------------------------------------

  lemma StepOwners(k: nat, s: Sys, s': Sys, m0: Mem, out: bool, depth: nat)
    requires Owners(k, s) && SysInv(k, s, m0, out, depth) && SysStep(k, s, s', out)
    ensures Owners(k, s')
  {
    hide Owners, WorkStep, CloseStep, ControlStep, LeaveStep, JobsOk, Tree, AllMemOk, FirstOk;
    if WorkStep(k, s, s', out) {
      WorkOwners(k, s, s', out);
    } else if exists x, f :: CloseStep(k, s, s', x, f) {
      var x, f :| CloseStep(k, s, s', x, f);
      CloseOwners(k, s, s', x, f);
    } else if exists x, e :: ControlStep(k, s, s', x, e) {
      var x, e :| ControlStep(k, s, s', x, e);
      ControlOwners(k, s, s', x, e);
    } else {
      var y :| LeaveStep(k, s, s', y);
      LeaveOwners(k, s, s', y);
    }
  }

  lemma StartOwners(k: nat, s: Sys, m0: Mem, depth: nat)
    requires Start(s, m0, depth)
    ensures Owners(k, s)
  {
  }

  /** In every reachable state every task belongs to at most one step, and every part that is waited for is
      being sorted by a job that has not ended. */
  lemma {:induction false} RunOwners(k: nat, run: seq<Sys>, m0: Mem, out: bool, depth: nat, i: nat)
    requires SysRun(k, run, m0, out, depth) && i < |run|
    ensures Owners(k, run[i])
    decreases i
  {
    hide SysInv, SysStep, Start, Owners;
    if i == 0 {
      StartOwners(k, run[0], m0, depth);
    } else {
      RunOwners(k, run, m0, out, depth, i - 1);
      SysRunInv(k, run, m0, out, depth, i - 1);
      StepOwners(k, run[i - 1], run[i], m0, out, depth);
    }
  }
}
