/** The whole parallel sorter: any number of jobs, each with its two stacks and its substep counter,
    sort pieces of the strings in shared memory and give pieces away as further jobs. */
module ParallelSort {
  import opened Strings
  import opened LcpOutput
  import opened SharedMemory
  import opened Tasks
  import opened WorkTree
  import T = TwoStacks
  import EntryPoints

  /** A job sorts the range of its root task. Given away by a parent job, it is part pj of step pf there.
      Its steps are tasks, too. */
  datatype Job = Job(root: nat, px: int, pf: nat, pj: nat, ctl: T.State, tk: seq<nat>)

  datatype Sys = Sys(w: State, jobs: seq<Job>)

  const NO_PARENT := -1

  function FreshJob(root: nat, px: int, pf: nat, pj: nat): Job {
    Job(root, px, pf, pj, T.State([], 0, [], 0, T.Begin, 0, [], map[], {}, {}, false, false, false), [])
  }

  // ---- steps ----------------------------------------------------------------------------------

  ghost predicate Start(s: Sys, m0: Mem, depth: nat) {
    Init(s.w, m0, depth) && s.jobs == [FreshJob(0, NO_PARENT, 0, 0)]
  }

  /** The task is a part around a pivot. */
  ghost predicate BelowPivot(w: State, t: nat) {
    && t < |w.tasks| && 0 <= w.tasks[t].parent < |w.tasks|
    && w.tasks[w.tasks[t].parent].phase.Split? && w.tasks[w.tasks[t].parent].phase.info.ByPivot?
  }

  /** What the control can do with a split: every sample sort step has as many buckets as the tree gives
      it, and what is small enough for quicksort has parts that are. */
  ghost predicate MaySplit(k: nat, w: State, t: nat, info: Info) {
    info.ByBuckets? ==> Pieces(info) == k && !BelowPivot(w, t)
  }

  ghost predicate SplitsAsMeant(k: nat, w: State, w': State, t: nat) {
    t < |w.tasks| <= |w'.tasks| && w.tasks[t].phase.Working? && w'.tasks[t].phase.Split? ==> MaySplit(k, w, t, w'.tasks[t].phase.info)
  }

  /** Somebody works on a task: takes it up, writes, or has sorted, split or closed it. */
  ghost predicate WorkStep(k: nat, s: Sys, s': Sys, out: bool) {
    s'.jobs == s.jobs && exists t: nat :: WorkOn(s.w, s'.w, out, t) && SplitsAsMeant(k, s.w, s'.w, t)
  }

  /** The control of the job has come to calculate_lcp of its step f. */
  ghost predicate MayClose(k: nat, c: T.State, f: nat) {
    exists c' :: T.Step(k, c, c', T.Lcp(f))
  }

  /** calculate_lcp begins where the job's control says so; nothing else is asked for. */
  ghost predicate CloseStep(k: nat, s: Sys, s': Sys, x: nat, f: nat) {
    && s'.jobs == s.jobs && x < |s.jobs| && f < |s.jobs[x].tk| && MayClose(k, s.jobs[x].ctl, f)
    && StartClose(s.w, s'.w, s.jobs[x].tk[f])
  }

  /** A task has been split the way a step of the job needs it. */
  ghost predicate SplitAs(k: nat, w: State, t: nat, ss: bool) {
    && t < |w.tasks| && w.tasks[t].phase.Split?
    && (w.tasks[t].phase.info.ByBuckets? <==> ss) && Pieces(w.tasks[t].phase.info) == T.Parts(k, ss)
  }

  ghost predicate IsDone(w: State, t: nat) {
    t < |w.tasks| && w.tasks[t].phase == Done
  }

  /** The task of part j of step f. */
  function PartTask(w: State, job: Job, f: nat, j: nat): nat {
    if f < |job.tk| && job.tk[f] < |w.tasks| && w.tasks[job.tk[f]].phase.Split? then w.tasks[job.tk[f]].phase.first + j else 0
  }

  /** The control of job x makes a step: its first step has been made for its root, the part dealt with
      on the spot has been sorted, the part pushed has been split, the step popped has its LCPs. */
  ghost predicate ControlStep(k: nat, s: Sys, s': Sys, x: nat, e: T.Event) {
    && x < |s.jobs| && |s'.jobs| >= |s.jobs| && s'.w == s.w
    && var job := s.jobs[x];
       var c' := s'.jobs[x].ctl;
       && T.Step(k, job.ctl, c', e)
       && match e
          case Tau => s'.jobs == s.jobs[x := job.(ctl := c')]
          case First(ss) => SplitAs(k, s.w, job.root, ss) && s'.jobs == s.jobs[x := job.(ctl := c', tk := [job.root])]
          case Nothing => IsDone(s.w, job.root) && s'.jobs == s.jobs[x := job.(ctl := c')]
          case Deal(f, j, how, ss) =>
            var t := PartTask(s.w, job, f, j);
            (match how
             case Local => IsDone(s.w, t) && s'.jobs == s.jobs[x := job.(ctl := c')]
             case Pushed(_) => SplitAs(k, s.w, t, ss) && s'.jobs == s.jobs[x := job.(ctl := c', tk := job.tk + [t])]
             case Given => s'.jobs == s.jobs[x := job.(ctl := c')] + [FreshJob(t, x, f, j)])
          case Lcp(f) => f < |job.tk| && IsDone(s.w, job.tk[f]) && s'.jobs == s.jobs[x := job.(ctl := c')]
          case Returned(_, _) => false
          case Leave => false
  }

  /** Job y is over and notifies the job that gave it away. */
  ghost predicate LeaveStep(k: nat, s: Sys, s': Sys, y: nat) {
    && y < |s.jobs| && |s'.jobs| == |s.jobs| && s'.w == s.w
    && var job := s.jobs[y];
       && T.Step(k, job.ctl, s'.jobs[y].ctl, T.Leave)
       && if job.px == NO_PARENT then s'.jobs == s.jobs[y := job.(ctl := s'.jobs[y].ctl)]
          else
            && 0 <= job.px < |s.jobs| && job.px != y
            && var p := s.jobs[job.px];
               && T.Step(k, p.ctl, s'.jobs[job.px].ctl, T.Returned(job.pf, job.pj))
               && s'.jobs == s.jobs[y := job.(ctl := s'.jobs[y].ctl)][job.px := p.(ctl := s'.jobs[job.px].ctl)]
  }

  ghost predicate SysStep(k: nat, s: Sys, s': Sys, out: bool) {
    || WorkStep(k, s, s', out) || (exists x, f :: CloseStep(k, s, s', x, f))
    || (exists x, e :: ControlStep(k, s, s', x, e)) || (exists y :: LeaveStep(k, s, s', y))
  }

  // ---- jobs and tasks ---------------------------------------------------------------------------

  /** What has become of a part. */
  ghost predicate PartOk(w: State, job: Job, t: nat, f: nat, j: nat)
    requires (f, j) in job.ctl.log
  {
    match job.ctl.log[(f, j)]
    case Local => IsDone(w, t)
    case Pushed(c) => c < |job.tk| && job.tk[c] == t
    case Given => (f, j) !in job.ctl.open ==> IsDone(w, t)
  }

  /** A step of a job and its task. */
  ghost predicate StepTaskOk(k: nat, w: State, job: Job, f: nat)
    requires f < |job.tk| == |job.ctl.isSs|
  {
    var t := job.tk[f];
    && t < |w.tasks| && (w.tasks[t].phase.Split? || w.tasks[t].phase.Closing? || w.tasks[t].phase == Done)
    && (f in job.ctl.lcps ==> w.tasks[t].phase == Done)
    && (w.tasks[t].phase.Split? ==>
          && SplitAs(k, w, t, job.ctl.isSs[f])
          && forall j: nat :: (f, j) in job.ctl.log ==> PartOk(w, job, w.tasks[t].phase.first + j, f, j))
  }

  ghost predicate JobOk(k: nat, w: State, job: Job) {
    && T.Inv(k, job.ctl) && |job.tk| == |job.ctl.isSs| && job.root < |w.tasks|
    && (job.tk != [] ==> job.tk[0] == job.root)
    && (job.tk == [] && job.ctl.pc != T.Begin ==> IsDone(w, job.root))
    && forall f :: 0 <= f < |job.tk| ==> StepTaskOk(k, w, job, f)
  }

  /** A job that was given away. */
  ghost predicate ChildOk(s: Sys, y: nat)
    requires y < |s.jobs|
  {
    var job := s.jobs[y];
    if y == 0 then job.px == NO_PARENT && job.root == 0
    else
      && 0 <= job.px < y
      && var p := s.jobs[job.px];
         && job.pf < |p.tk| && (job.pf, job.pj) in p.ctl.log && p.ctl.log[(job.pf, job.pj)] == T.Given
         && p.tk[job.pf] < |s.w.tasks|
         && (s.w.tasks[p.tk[job.pf]].phase.Split? ==> job.root == s.w.tasks[p.tk[job.pf]].phase.first + job.pj)
         && (job.ctl.pc != T.Finished ==> (job.pf, job.pj) in p.ctl.open)
  }

  ghost predicate GivenOnce(s: Sys) {
    forall y, z :: 0 < y < z < |s.jobs| && s.jobs[y].px == s.jobs[z].px ==>
      (s.jobs[y].pf, s.jobs[y].pj) != (s.jobs[z].pf, s.jobs[z].pj)
  }

  ghost predicate JobsOk(k: nat, s: Sys) {
    && s.jobs != [] && GivenOnce(s)
    && (forall x :: 0 <= x < |s.jobs| ==> JobOk(k, s.w, s.jobs[x]))
    && (forall y :: 0 <= y < |s.jobs| ==> ChildOk(s, y))
  }

  ghost predicate SysInv(k: nat, s: Sys, m0: Mem, out: bool, depth: nat) {
    Inv(s.w, m0, out, depth) && JobsOk(k, s)
  }

  // ---- work on tasks --------------------------------------------------------------------------------

  /** Tasks only go on: what is done stays done, what is split stays split or has been closed, and nothing
      that was split, closing or done is split again. */
  ghost predicate GoesOn(w: State, w': State) {
    && |w.tasks| <= |w'.tasks|
    && forall t :: 0 <= t < |w.tasks| ==>
         && (w.tasks[t].phase == Done ==> w'.tasks[t].phase == Done)
         && (w.tasks[t].phase.Split? ==> w'.tasks[t].phase == w.tasks[t].phase || w'.tasks[t].phase.Closing?)
         && (w.tasks[t].phase.Closing? ==> w'.tasks[t].phase.Closing? || w'.tasks[t].phase == Done)
  }

  lemma JobGoesOn(k: nat, w: State, w': State, job: Job)
    requires JobOk(k, w, job) && GoesOn(w, w')
    requires forall f :: 0 <= f < |job.tk| && f in job.ctl.lcps ==> job.tk[f] < |w'.tasks| && w'.tasks[job.tk[f]].phase == Done
    ensures JobOk(k, w', job)
  {
    forall f | 0 <= f < |job.tk| ensures StepTaskOk(k, w', job, f) {
      assert StepTaskOk(k, w, job, f);
    }
  }

  lemma LcpsDone(k: nat, w: State, job: Job)
    requires JobOk(k, w, job)
    ensures forall f :: 0 <= f < |job.tk| && f in job.ctl.lcps ==> IsDone(w, job.tk[f])
  {
    forall f | 0 <= f < |job.tk| && f in job.ctl.lcps ensures IsDone(w, job.tk[f]) { assert StepTaskOk(k, w, job, f); }
  }

  lemma ChildGoesOn(k: nat, s: Sys, s': Sys, y: nat)
    requires JobsOk(k, s) && y < |s.jobs| && s'.jobs == s.jobs && GoesOn(s.w, s'.w)
    ensures ChildOk(s', y)
  {
    assert ChildOk(s, y);
    if y > 0 {
      var p := s.jobs[s.jobs[y].px];
      assert JobOk(k, s.w, p);
      assert StepTaskOk(k, s.w, p, s.jobs[y].pf);
    }
  }

  lemma AllGoOn(k: nat, s: Sys, s': Sys)
    requires JobsOk(k, s) && s'.jobs == s.jobs && GoesOn(s.w, s'.w)
    ensures JobsOk(k, s')
  {
    forall x | 0 <= x < |s.jobs| ensures JobOk(k, s'.w, s.jobs[x]) && ChildOk(s', x) {
      assert JobOk(k, s.w, s.jobs[x]);
      LcpsDone(k, s.w, s.jobs[x]);
      JobGoesOn(k, s.w, s'.w, s.jobs[x]);
      ChildGoesOn(k, s, s', x);
    }
    hide JobOk, ChildOk;
  }

  lemma PhaseGoesOn(w: State, t: nat, ph: Phase)
    requires t < |w.tasks|
    requires (w.tasks[t].phase.Waiting? && ph.Working?) || (w.tasks[t].phase.Working? && (ph == Done || ph.Split?))
             || (w.tasks[t].phase.Split? && ph.Closing?) || (w.tasks[t].phase.Closing? && ph == Done)
    ensures GoesOn(w, WithPhase(w, t, ph))
  {
  }

  lemma SplitGoesOn(w: State, w': State, t: nat, info: Info)
    requires EndSplit(w, w', t, info)
    ensures GoesOn(w, w')
  {
    forall i | 0 <= i < |w.tasks| ensures w'.tasks[i] == if i == t then w.tasks[t].(phase := Split(|w.tasks|, info)) else w.tasks[i] {
      OldTask(w, w', t, info, i);
    }
    hide SplitOk;
  }

  lemma WorkGoesOn(w: State, w': State, out: bool, t: nat)
    requires Begin(w, w', t) || Write(w, w', t) || EndLeaf(w, w', out, t) || EndClose(w, w', out, t) || StartClose(w, w', t)
    ensures GoesOn(w, w')
  {
    hide LeafOk, CloseOk, Kept, Local;
    if !Write(w, w', t) { PhaseGoesOn(w, t, w'.tasks[t].phase); }
  }

  lemma WorkOnGoesOn(w: State, w': State, out: bool, t: nat)
    requires WorkOn(w, w', out, t)
    ensures GoesOn(w, w')
  {
    hide Begin, Write, EndLeaf, EndSplit, EndClose, GoesOn;
    if exists info :: EndSplit(w, w', t, info) {
      var info :| EndSplit(w, w', t, info);
      SplitGoesOn(w, w', t, info);
    } else {
      WorkGoesOn(w, w', out, t);
    }
  }

  lemma WorkInv(k: nat, s: Sys, s': Sys, m0: Mem, out: bool, depth: nat)
    requires SysInv(k, s, m0, out, depth) && WorkStep(k, s, s', out)
    ensures SysInv(k, s', m0, out, depth)
  {
    hide Inv, JobsOk, WorkOn, SplitsAsMeant;
    var t: nat :| WorkOn(s.w, s'.w, out, t) && SplitsAsMeant(k, s.w, s'.w, t);
    WorkOnGoesOn(s.w, s'.w, out, t);
    WorkIsStep(s.w, s'.w, out, t);
    StepInv(s.w, s'.w, m0, out, depth);
    AllGoOn(k, s, s');
  }

  // ---- closing comes after all pieces -------------------------------------------------------------------

  /** Where the control of a job has come to calculate_lcp, every piece of the task is done: sorted by
      the job, closed by it before, or done by a job that has notified. */
  lemma MayCloseReady(k: nat, w: State, job: Job, f: nat, j: nat)
    requires JobOk(k, w, job) && f < |job.tk| && MayClose(k, job.ctl, f)
    requires job.tk[f] < |w.tasks| && w.tasks[job.tk[f]].phase.Split? && j < Pieces(w.tasks[job.tk[f]].phase.info)
    ensures IsDone(w, w.tasks[job.tk[f]].phase.first + j)
  {
    var c' :| T.Step(k, job.ctl, c', T.Lcp(f));
    T.LcpAfterParts(k, job.ctl, c', T.Lcp(f));
    assert StepTaskOk(k, w, job, f);
    LcpsDone(k, w, job);
    hide T.Inv, T.Step, JobOk;
    assert (f, j) in job.ctl.log;
    assert PartOk(w, job, w.tasks[job.tk[f]].phase.first + j, f, j);
  }

  lemma PiecesByNumber(w: State, t: nat)
    requires Tree(w) && t < |w.tasks| && w.tasks[t].phase.Split?
    requires forall i: nat :: w.tasks[t].phase.first <= i < w.tasks[t].phase.first + Pieces(w.tasks[t].phase.info) ==> IsDone(w, i)
    ensures PiecesAreDone(w, t)
  {
    forall i | 0 <= i < |w.tasks| && w.tasks[i].parent == t ensures w.tasks[i].phase == Done {
      assert TaskOk(w, i);
      assert IsDone(w, i);
    }
  }

  /** calculate_lcp is only ever begun on a range whose pieces are all done. */
  lemma CloseIsWork(k: nat, s: Sys, s': Sys, m0: Mem, out: bool, depth: nat, x: nat, f: nat)
    requires SysInv(k, s, m0, out, depth) && CloseStep(k, s, s', x, f)
    ensures PiecesAreDone(s.w, s.jobs[x].tk[f]) && Step(s.w, s'.w, out)
  {
    hide JobOk, MayClose, ChildOk, GivenOnce, Local;
    var t := s.jobs[x].tk[f];
    assert JobOk(k, s.w, s.jobs[x]);
    var first, info := s.w.tasks[t].phase.first, s.w.tasks[t].phase.info;
    forall i: nat | first <= i < first + Pieces(info) ensures IsDone(s.w, i) {
      MayCloseReady(k, s.w, s.jobs[x], f, i - first);
    }
    PiecesByNumber(s.w, t);
    WorkIsStep(s.w, s'.w, out, t);
  }

  lemma CloseInv(k: nat, s: Sys, s': Sys, m0: Mem, out: bool, depth: nat, x: nat, f: nat)
    requires SysInv(k, s, m0, out, depth) && CloseStep(k, s, s', x, f)
    ensures SysInv(k, s', m0, out, depth)
  {
    CloseIsWork(k, s, s', m0, out, depth, x, f);
    hide Inv, JobsOk, StartClose;
    WorkGoesOn(s.w, s'.w, out, s.jobs[x].tk[f]);
    StepInv(s.w, s'.w, m0, out, depth);
    AllGoOn(k, s, s');
  }

  // ---- the control of one job -----------------------------------------------------------------------------

  /** Entries of the log stay; what is open may be completed only if it is done. */
  lemma StepTaskStays(k: nat, w: State, job: Job, job': Job, f: nat)
    requires f < |job.tk| == |job.ctl.isSs| && f < |job'.tk| == |job'.ctl.isSs| && StepTaskOk(k, w, job, f)
    requires job.tk[f] < |w.tasks|
    requires job'.tk[f] == job.tk[f] && job'.ctl.isSs[f] == job.ctl.isSs[f] && |job.tk| <= |job'.tk|
    requires forall c :: 0 <= c < |job.tk| ==> job'.tk[c] == job.tk[c]
    requires f in job'.ctl.lcps ==> f in job.ctl.lcps || IsDone(w, job.tk[f])
    requires forall j: nat :: (f, j) in job'.ctl.log ==>
               || ((f, j) in job.ctl.log && job'.ctl.log[(f, j)] == job.ctl.log[(f, j)]
                   && ((f, j) in job.ctl.open && (f, j) !in job'.ctl.open ==>
                         (w.tasks[job.tk[f]].phase.Split? ==> IsDone(w, w.tasks[job.tk[f]].phase.first + j))))
               || (w.tasks[job.tk[f]].phase.Split? ==> PartOk(w, job', w.tasks[job.tk[f]].phase.first + j, f, j))
    ensures StepTaskOk(k, w, job', f)
  {
    var t := job.tk[f];
    if w.tasks[t].phase.Split? {
      forall j: nat | (f, j) in job'.ctl.log ensures PartOk(w, job', w.tasks[t].phase.first + j, f, j) {
        if (f, j) in job.ctl.log { assert PartOk(w, job, w.tasks[t].phase.first + j, f, j); }
      }
    }
  }

  lemma QuietControl(k: nat, w: State, job: Job, c': T.State, e: T.Event)
    requires JobOk(k, w, job) && T.Step(k, job.ctl, c', e) && (e.Tau? || e.Nothing? || e.Leave? || e.Lcp? || e.Returned?)
    requires e.Nothing? ==> IsDone(w, job.root)
    requires e.Lcp? ==> e.f < |job.tk| && IsDone(w, job.tk[e.f])
    requires e.Returned? ==> e.f < |job.tk| && job.tk[e.f] < |w.tasks| && (w.tasks[job.tk[e.f]].phase.Split? ==> IsDone(w, w.tasks[job.tk[e.f]].phase.first + e.j))
    ensures JobOk(k, w, job.(ctl := c'))
  {
    hide T.Inv, T.Step;
    T.StepInv(k, job.ctl, c', e);
    T.StepEffect(k, job.ctl, c', e);
    var job' := job.(ctl := c');
    if job.ctl.pc == T.Begin { T.BeginOnly(k, job.ctl, c', e); }
    forall f | 0 <= f < |job'.tk| ensures StepTaskOk(k, w, job', f) {
      assert StepTaskOk(k, w, job, f);
      StepTaskStays(k, w, job, job', f);
    }
  }

  /** Nobody else's job or child relation notices that job x goes on, as long as its log and open parts grow. */
  ghost predicate Grows(c: T.State, c': T.State) {
    && (forall p :: p in c.log ==> p in c'.log && c'.log[p] == c.log[p]) && c.open <= c'.open
    && (c.pc == T.Finished ==> c'.pc == T.Finished)
  }

  /** The same job, further on. */
  ghost predicate Further(job: Job, job': Job) {
    && job'.root == job.root && job'.px == job.px && job'.pf == job.pf && job'.pj == job.pj
    && Grows(job.ctl, job'.ctl) && job.tk <= job'.tk
  }

  lemma ChildStays(s: Sys, s': Sys, y: nat)
    requires y < |s.jobs| <= |s'.jobs| && s'.w == s.w && ChildOk(s, y)
    requires Further(s.jobs[y], s'.jobs[y])
    requires 0 <= s.jobs[y].px < |s.jobs| ==> Further(s.jobs[s.jobs[y].px], s'.jobs[s.jobs[y].px])
    ensures ChildOk(s', y)
  {
  }

  lemma SameFurther(job: Job)
    ensures Further(job, job)
  {
  }

  lemma Childs(s: Sys, s': Sys, x: nat, y: nat)
    requires x < |s.jobs| <= |s'.jobs| && s'.w == s.w && y < |s.jobs| && ChildOk(s, y) && Further(s.jobs[x], s'.jobs[x])
    requires forall z :: 0 <= z < |s.jobs| && z != x ==> s'.jobs[z] == s.jobs[z]
    ensures ChildOk(s', y)
  {
    hide Further, ChildOk;
    forall z | 0 <= z < |s.jobs| ensures Further(s.jobs[z], s'.jobs[z]) { SameFurther(s.jobs[z]); }
    ChildStays(s, s', y);
  }

  lemma OneJob(k: nat, s: Sys, s': Sys, x: nat)
    requires JobsOk(k, s) && x < |s.jobs| == |s'.jobs| && s'.w == s.w && s'.jobs == s.jobs[x := s'.jobs[x]]
    requires Further(s.jobs[x], s'.jobs[x]) && JobOk(k, s.w, s'.jobs[x])
    ensures JobsOk(k, s')
  {
    forall y | 0 <= y < |s'.jobs| ensures JobOk(k, s'.w, s'.jobs[y]) && ChildOk(s', y) {
      assert JobOk(k, s.w, s.jobs[y]) && ChildOk(s, y);
      assert y != x ==> s'.jobs[y] == s.jobs[y];
      Childs(s, s', x, y);
    }
    hide JobOk, ChildOk;
  }

  lemma FirstControl(k: nat, w: State, job: Job, c': T.State, ss: bool)
    requires JobOk(k, w, job) && T.Step(k, job.ctl, c', T.First(ss)) && SplitAs(k, w, job.root, ss)
    ensures JobOk(k, w, job.(ctl := c', tk := [job.root])) && job.tk == []
  {
    T.StepInv(k, job.ctl, c', T.First(ss));
    T.StepEffect(k, job.ctl, c', T.First(ss));
    T.DealsLater(k, job.ctl, c', T.First(ss));
    hide T.Inv, T.Step;
    NewStepTask(k, w, job.(ctl := c', tk := [job.root]), 0);
  }

  lemma DealStep(k: nat, w: State, job: Job, job': Job, e: T.Event, f: nat)
    requires JobOk(k, w, job) && e.Deal? && T.Effect(k, job.ctl, job'.ctl, e)
    requires f < |job.tk| && |job'.tk| == |job'.ctl.isSs| && job.tk <= job'.tk && e.f < |job.tk| && job.tk[e.f] < |w.tasks|
    requires f == e.f && w.tasks[job.tk[f]].phase.Split? ==>
               PartOk(w, job', w.tasks[job.tk[f]].phase.first + e.j, f, e.j)
    ensures StepTaskOk(k, w, job', f)
  {
    assert StepTaskOk(k, w, job, f);
    hide T.Inv, PartOk;
    assert forall c :: 0 <= c < |job.tk| ==> job'.tk[c] == job.tk[c];
    StepTaskStays(k, w, job, job', f);
  }

  lemma DealtPart(k: nat, w: State, job: Job, job': Job, e: T.Event)
    requires JobOk(k, w, job) && e.Deal? && T.Effect(k, job.ctl, job'.ctl, e)
    requires match e.how
             case Local => IsDone(w, PartTask(w, job, e.f, e.j)) && job'.tk == job.tk
             case Pushed(_) => SplitAs(k, w, PartTask(w, job, e.f, e.j), e.ss) && job'.tk == job.tk + [PartTask(w, job, e.f, e.j)]
             case Given => job'.tk == job.tk
    ensures e.f < |job.tk| && job.tk[e.f] < |w.tasks|
    ensures w.tasks[job.tk[e.f]].phase.Split? ==> PartOk(w, job', w.tasks[job.tk[e.f]].phase.first + e.j, e.f, e.j)
  {
    assert StepTaskOk(k, w, job, e.f);
    hide T.Inv;
  }

  lemma DealControl(k: nat, w: State, job: Job, job': Job, e: T.Event)
    requires JobOk(k, w, job) && e.Deal? && T.Step(k, job.ctl, job'.ctl, e) && job'.root == job.root
    requires match e.how
             case Local => IsDone(w, PartTask(w, job, e.f, e.j)) && job'.tk == job.tk
             case Pushed(_) => SplitAs(k, w, PartTask(w, job, e.f, e.j), e.ss) && job'.tk == job.tk + [PartTask(w, job, e.f, e.j)]
             case Given => job'.tk == job.tk
    ensures JobOk(k, w, job')
  {
    hide T.Inv, T.Step, PartOk, PartTask, IsDone;
    T.StepInv(k, job.ctl, job'.ctl, e);
    T.StepEffect(k, job.ctl, job'.ctl, e);
    T.DealsLater(k, job.ctl, job'.ctl, e);
    DealtPart(k, w, job, job', e);
    forall f | 0 <= f < |job'.tk| ensures StepTaskOk(k, w, job', f) {
      if f < |job.tk| {
        DealStep(k, w, job, job', e, f);
      } else {
        NewStepTask(k, w, job', f);
      }
    }
  }

  lemma NewStepTask(k: nat, w: State, job: Job, f: nat)
    requires f < |job.tk| == |job.ctl.isSs| && SplitAs(k, w, job.tk[f], job.ctl.isSs[f]) && f !in job.ctl.lcps
    requires forall j: nat :: (f, j) !in job.ctl.log
    ensures StepTaskOk(k, w, job, f)
  {
  }

  lemma GrowsOn(k: nat, c: T.State, c': T.State, e: T.Event)
    requires T.Inv(k, c) && T.Step(k, c, c', e) && !e.Returned?
    ensures Grows(c, c')
  {
    T.StepEffect(k, c, c', e);
    T.StepEnds(k, c, c', e);
    hide T.Inv, T.Step;
  }

  lemma GivenOld(k: nat, s: Sys, s': Sys, x: nat, t: nat, f: nat, j: nat, y: nat)
    requires JobsOk(k, s) && x < |s.jobs| && s'.w == s.w && |s'.jobs| == |s.jobs| + 1
    requires s'.jobs == s.jobs[x := s'.jobs[x]] + [FreshJob(t, x, f, j)] && Further(s.jobs[x], s'.jobs[x])
    requires JobOk(k, s.w, s'.jobs[x]) && y < |s.jobs|
    ensures JobOk(k, s'.w, s'.jobs[y]) && ChildOk(s', y)
  {
    assert JobOk(k, s.w, s.jobs[y]) && ChildOk(s, y);
    hide JobsOk, JobOk, ChildOk, Further;
    assert forall z :: 0 <= z < |s.jobs| && z != x ==> s'.jobs[z] == s.jobs[z];
    Childs(s, s', x, y);
  }

  lemma GivenNew(k: nat, s: Sys, s': Sys, x: nat, t: nat, f: nat, j: nat)
    requires x < |s.jobs| && s'.w == s.w && |s'.jobs| == |s.jobs| + 1
    requires s'.jobs == s.jobs[x := s'.jobs[x]] + [FreshJob(t, x, f, j)] && Further(s.jobs[x], s'.jobs[x])
    requires f < |s.jobs[x].tk| && s.jobs[x].tk[f] < |s.w.tasks|
    requires (f, j) in s'.jobs[x].ctl.log && s'.jobs[x].ctl.log[(f, j)] == T.Given && (f, j) in s'.jobs[x].ctl.open
    requires t < |s.w.tasks| && (s.w.tasks[s.jobs[x].tk[f]].phase.Split? ==> t == s.w.tasks[s.jobs[x].tk[f]].phase.first + j)
    ensures JobOk(k, s'.w, s'.jobs[|s.jobs|]) && ChildOk(s', |s.jobs|)
  {
    assert s'.jobs[|s.jobs|] == FreshJob(t, x, f, j) && s'.jobs[x].tk[f] == s.jobs[x].tk[f];
    FreshOk(k, s'.w, s'.jobs[|s.jobs|]);
    hide JobOk;
  }

  lemma GivenOnceMore(k: nat, s: Sys, s': Sys, x: nat, t: nat, f: nat, j: nat)
    requires JobsOk(k, s) && x < |s.jobs| && s'.w == s.w && |s'.jobs| == |s.jobs| + 1
    requires s'.jobs == s.jobs[x := s'.jobs[x]] + [FreshJob(t, x, f, j)] && Further(s.jobs[x], s'.jobs[x])
    requires (f, j) !in s.jobs[x].ctl.log
    ensures GivenOnce(s')
  {
    var n := |s.jobs|;
    forall y | 0 < y < n && s.jobs[y].px == x ensures (s.jobs[y].pf, s.jobs[y].pj) != (f, j) { assert ChildOk(s, y); }
    assert s'.jobs[..n] == s.jobs[x := s'.jobs[x]];
    hide JobOk, ChildOk;
    forall y, z | 0 < y < z < |s'.jobs| && s'.jobs[y].px == s'.jobs[z].px
      ensures (s'.jobs[y].pf, s'.jobs[y].pj) != (s'.jobs[z].pf, s'.jobs[z].pj)
    {
      SameParts(s, s', x, y);
      if z < n { SameParts(s, s', x, z); }
    }
  }

  /** A part is given away as a new job. */
  lemma GiveJob(k: nat, s: Sys, s': Sys, x: nat, t: nat, f: nat, j: nat)
    requires JobsOk(k, s) && x < |s.jobs| && s'.w == s.w && |s'.jobs| == |s.jobs| + 1
    requires s'.jobs == s.jobs[x := s'.jobs[x]] + [FreshJob(t, x, f, j)] && Further(s.jobs[x], s'.jobs[x])
    requires JobOk(k, s.w, s'.jobs[x]) && f < |s.jobs[x].tk| && s.jobs[x].tk[f] < |s.w.tasks|
    requires (f, j) !in s.jobs[x].ctl.log
    requires (f, j) in s'.jobs[x].ctl.log && s'.jobs[x].ctl.log[(f, j)] == T.Given && (f, j) in s'.jobs[x].ctl.open
    requires t < |s.w.tasks| && (s.w.tasks[s.jobs[x].tk[f]].phase.Split? ==> t == s.w.tasks[s.jobs[x].tk[f]].phase.first + j)
    ensures JobsOk(k, s')
  {
    hide *;
    GivenOnceMore(k, s, s', x, t, f, j);
    forall y | 0 <= y < |s'.jobs| ensures JobOk(k, s'.w, s'.jobs[y]) && ChildOk(s', y) {
      if y < |s.jobs| { GivenOld(k, s, s', x, t, f, j, y); } else { GivenNew(k, s, s', x, t, f, j); }
    }
    JobsFrom(k, s');
  }

  lemma JobsFrom(k: nat, s: Sys)
    requires s.jobs != [] && GivenOnce(s)
    requires forall y :: 0 <= y < |s.jobs| ==> JobOk(k, s.w, s.jobs[y]) && ChildOk(s, y)
    ensures JobsOk(k, s)
  {
    hide JobOk, ChildOk, GivenOnce;
  }

  lemma SameParts(s: Sys, s': Sys, x: nat, y: nat)
    requires x < |s.jobs| < |s'.jobs| && y < |s.jobs| && s'.jobs[..|s.jobs|] == s.jobs[x := s'.jobs[x]] && Further(s.jobs[x], s'.jobs[x])
    ensures s'.jobs[y].px == s.jobs[y].px && s'.jobs[y].pf == s.jobs[y].pf && s'.jobs[y].pj == s.jobs[y].pj
  {
    assert s'.jobs[y] == s'.jobs[..|s.jobs|][y];
  }

  lemma FreshOk(k: nat, w: State, job: Job)
    requires job == FreshJob(job.root, job.px, job.pf, job.pj) && job.root < |w.tasks|
    ensures JobOk(k, w, job)
  {
    T.InitInv(k, job.ctl);
  }

  // ---- every step keeps the invariant ------------------------------------------------------------------

  lemma PartTaskThere(k: nat, w: State, job: Job, f: nat, j: nat)
    requires Tree(w) && JobOk(k, w, job) && f < |job.tk| && j < T.Parts(k, job.ctl.isSs[f])
    ensures job.tk[f] < |w.tasks| && PartTask(w, job, f, j) < |w.tasks|
    ensures w.tasks[job.tk[f]].phase.Split? ==> PartTask(w, job, f, j) == w.tasks[job.tk[f]].phase.first + j
  {
    assert StepTaskOk(k, w, job, f);
    assert SplitLinked(w, job.tk[f]);
    hide TaskOk, T.Inv;
  }

  lemma JobAt(k: nat, s: Sys, x: nat)
    requires JobsOk(k, s) && x < |s.jobs|
    ensures JobOk(k, s.w, s.jobs[x]) && T.Inv(k, s.jobs[x].ctl) && ChildOk(s, x)
  {
    hide ChildOk, T.Inv;
  }

  lemma DealInv(k: nat, s: Sys, s': Sys, m0: Mem, out: bool, depth: nat, x: nat, e: T.Event)
    requires SysInv(k, s, m0, out, depth) && ControlStep(k, s, s', x, e) && e.Deal?
    ensures JobsOk(k, s')
  {
    JobAt(k, s, x);
    var job, job' := s.jobs[x], s'.jobs[x];
    T.StepEffect(k, job.ctl, job'.ctl, e);
    GrowsOn(k, job.ctl, job'.ctl, e);
    PartTaskThere(k, s.w, job, e.f, e.j);
    hide JobsOk, JobOk, ChildOk, T.Inv, T.Step, Inv, PartTask, Grows, IsDone, SplitAs;
    DealControl(k, s.w, job, job', e);
    if e.how == T.Given {
      GiveJob(k, s, s', x, PartTask(s.w, job, e.f, e.j), e.f, e.j);
    } else {
      OneJob(k, s, s', x);
    }
  }

  lemma QuietInv(k: nat, s: Sys, s': Sys, m0: Mem, out: bool, depth: nat, x: nat, e: T.Event)
    requires SysInv(k, s, m0, out, depth) && ControlStep(k, s, s', x, e) && !e.Deal?
    ensures JobsOk(k, s')
  {
    JobAt(k, s, x);
    var job, job' := s.jobs[x], s'.jobs[x];
    GrowsOn(k, job.ctl, job'.ctl, e);
    hide JobsOk, ChildOk, T.Inv, T.Step, Inv, Grows, IsDone, SplitAs, JobOk;
    if e.First? { FirstControl(k, s.w, job, job'.ctl, e.ss); } else { QuietControl(k, s.w, job, job'.ctl, e); }
    OneJob(k, s, s', x);
  }

  // ---- a job is over ----------------------------------------------------------------------------------------

  /** When a job has closed all its steps, its range is sorted. */
  lemma ClosedJobDone(k: nat, w: State, job: Job)
    requires JobOk(k, w, job) && job.ctl.pc in {T.Closed, T.Finished}
    ensures IsDone(w, job.root)
  {
    T.AllClosed(k, job.ctl);
    if job.tk != [] { assert StepTaskOk(k, w, job, 0); }
    hide T.Inv;
  }

  /** substep_notify_done finds a positive counter: the job that gives the part away still counts it. */
  lemma NotifyEnabled(k: nat, s: Sys, m0: Mem, out: bool, depth: nat, y: nat)
    requires SysInv(k, s, m0, out, depth) && 0 < y < |s.jobs| && s.jobs[y].ctl.pc != T.Finished
    ensures 0 <= s.jobs[y].px < y
    ensures var c := s.jobs[s.jobs[y].px].ctl; (s.jobs[y].pf, s.jobs[y].pj) in c.open && c.working > 0
  {
    assert ChildOk(s, y) && JobOk(k, s.w, s.jobs[s.jobs[y].px]);
    T.CounterIs(k, s.jobs[s.jobs[y].px].ctl);
    hide T.Inv, Inv;
  }

  lemma ReturnControl(k: nat, s: Sys, y: nat, c': T.State)
    requires JobsOk(k, s) && 0 < y < |s.jobs| && 0 <= s.jobs[y].px < |s.jobs| && s.jobs[y].ctl.pc == T.Closed
    requires T.Step(k, s.jobs[s.jobs[y].px].ctl, c', T.Returned(s.jobs[y].pf, s.jobs[y].pj))
    ensures JobOk(k, s.w, s.jobs[s.jobs[y].px].(ctl := c'))
  {
    var job, p := s.jobs[y], s.jobs[s.jobs[y].px];
    JobAt(k, s, y);
    JobAt(k, s, job.px);
    ClosedJobDone(k, s.w, job);
    assert job.pf < |p.tk| && p.tk[job.pf] < |s.w.tasks|
           && (s.w.tasks[p.tk[job.pf]].phase.Split? ==> job.root == s.w.tasks[p.tk[job.pf]].phase.first + job.pj);
    hide JobsOk, ChildOk, JobOk, T.Step, T.Inv;
    QuietControl(k, s.w, p, c', T.Returned(job.pf, job.pj));
  }

  /** The same job, with fewer parts open. */
  ghost predicate Nearly(job: Job, job': Job, f: nat, j: nat) {
    && job'.root == job.root && job'.px == job.px && job'.pf == job.pf && job'.pj == job.pj && job'.tk == job.tk
    && job'.ctl.log == job.ctl.log && job'.ctl.open == job.ctl.open - {(f, j)} && (job.ctl.pc == T.Finished <==> job'.ctl.pc == T.Finished)
  }

  ghost predicate Left(job: Job, job': Job) {
    && job'.root == job.root && job'.px == job.px && job'.pf == job.pf && job'.pj == job.pj && job'.tk == job.tk
    && job'.ctl.log == job.ctl.log && job'.ctl.open == job.ctl.open && job'.ctl.pc == T.Finished
  }

  lemma ChildLeft(s: Sys, s': Sys, y: nat, z: nat)
    requires 0 < y < |s.jobs| == |s'.jobs| && z < |s.jobs| && s'.w == s.w && ChildOk(s, z) && ChildOk(s, y) && GivenOnce(s)
    requires Left(s.jobs[y], s'.jobs[y])
    requires 0 <= s.jobs[y].px < |s.jobs| && s.jobs[y].px != y && Nearly(s.jobs[s.jobs[y].px], s'.jobs[s.jobs[y].px], s.jobs[y].pf, s.jobs[y].pj)
    requires forall i :: 0 <= i < |s.jobs| && i != y && i != s.jobs[y].px ==> s'.jobs[i] == s.jobs[i]
    ensures ChildOk(s', z)
  {
    if z > 0 {
      var q := s.jobs[z].px;
      assert z != y && q == s.jobs[y].px ==> (s.jobs[y].pf, s.jobs[y].pj) != (s.jobs[z].pf, s.jobs[z].pj);
    }
  }

  lemma LeftNow(k: nat, s: Sys, y: nat, c': T.State)
    requires JobsOk(k, s) && y < |s.jobs| && T.Step(k, s.jobs[y].ctl, c', T.Leave)
    ensures JobOk(k, s.w, s.jobs[y].(ctl := c')) && Left(s.jobs[y], s.jobs[y].(ctl := c')) && s.jobs[y].ctl.pc == T.Closed
  {
    JobAt(k, s, y);
    T.StepEffect(k, s.jobs[y].ctl, c', T.Leave);
    T.StepEnds(k, s.jobs[y].ctl, c', T.Leave);
    hide JobsOk, JobOk, T.Step, T.Inv;
    QuietControl(k, s.w, s.jobs[y], c', T.Leave);
  }

  lemma NearlyNow(k: nat, s: Sys, x: nat, c': T.State, f: nat, j: nat)
    requires JobsOk(k, s) && x < |s.jobs| && T.Step(k, s.jobs[x].ctl, c', T.Returned(f, j))
    ensures Nearly(s.jobs[x], s.jobs[x].(ctl := c'), f, j)
  {
    JobAt(k, s, x);
    T.StepEffect(k, s.jobs[x].ctl, c', T.Returned(f, j));
    T.StepEnds(k, s.jobs[x].ctl, c', T.Returned(f, j));
    hide JobsOk, JobOk, T.Step, T.Inv;
  }

  lemma RootLeft(k: nat, s: Sys, s': Sys, y: nat)
    requires JobsOk(k, s) && LeaveStep(k, s, s', y) && s.jobs[y].px == NO_PARENT
    ensures JobsOk(k, s')
  {
    LeftNow(k, s, y, s'.jobs[y].ctl);
    hide T.Step, JobsOk, JobOk;
    OneJob(k, s, s', y);
  }

  lemma LeaveStays(s: Sys, s': Sys, k: nat, y: nat)
    requires LeaveStep(k, s, s', y) && s.jobs[y].px != NO_PARENT
    ensures 0 <= s.jobs[y].px < |s.jobs| == |s'.jobs| && s.jobs[y].px != y && s'.w == s.w
    ensures s'.jobs[y] == s.jobs[y].(ctl := s'.jobs[y].ctl)
    ensures s'.jobs[s.jobs[y].px] == s.jobs[s.jobs[y].px].(ctl := s'.jobs[s.jobs[y].px].ctl)
    ensures forall i :: 0 <= i < |s.jobs| && i != y && i != s.jobs[y].px ==> s'.jobs[i] == s.jobs[i]
    ensures T.Step(k, s.jobs[y].ctl, s'.jobs[y].ctl, T.Leave)
    ensures T.Step(k, s.jobs[s.jobs[y].px].ctl, s'.jobs[s.jobs[y].px].ctl, T.Returned(s.jobs[y].pf, s.jobs[y].pj))
  {
    hide T.Step;
  }

  lemma SamePlaces(s: Sys, s': Sys, y: nat, x: nat, f: nat, j: nat)
    requires y < |s.jobs| == |s'.jobs| && x < |s.jobs| && GivenOnce(s)
    requires Left(s.jobs[y], s'.jobs[y]) && Nearly(s.jobs[x], s'.jobs[x], f, j)
    requires forall i :: 0 <= i < |s.jobs| && i != y && i != x ==> s'.jobs[i] == s.jobs[i]
    ensures GivenOnce(s')
  {
    forall i | 0 <= i < |s.jobs| ensures s'.jobs[i].px == s.jobs[i].px && s'.jobs[i].pf == s.jobs[i].pf && s'.jobs[i].pj == s.jobs[i].pj {}
  }

  lemma ChildLeaves(k: nat, s: Sys, s': Sys, y: nat)
    requires JobsOk(k, s) && LeaveStep(k, s, s', y) && s.jobs[y].px != NO_PARENT
    ensures JobsOk(k, s')
  {
    LeaveStays(s, s', k, y);
    JobAt(k, s, y);
    var x, f, j := s.jobs[y].px, s.jobs[y].pf, s.jobs[y].pj;
    assert y > 0 && GivenOnce(s);
    LeftNow(k, s, y, s'.jobs[y].ctl);
    NearlyNow(k, s, x, s'.jobs[x].ctl, f, j);
    ReturnControl(k, s, y, s'.jobs[x].ctl);
    hide LeaveStep, T.Step, T.Inv, Left, Nearly;
    SamePlaces(s, s', y, x, f, j);
    forall z | 0 <= z < |s'.jobs| ensures JobOk(k, s'.w, s'.jobs[z]) && ChildOk(s', z) {
      JobAt(k, s, z);
      ChildLeft(s, s', y, z);
      assert z != y && z != x ==> s'.jobs[z] == s.jobs[z];
    }
    hide JobOk, ChildOk, GivenOnce;
  }

  lemma LeaveInv(k: nat, s: Sys, s': Sys, m0: Mem, out: bool, depth: nat, y: nat)
    requires SysInv(k, s, m0, out, depth) && LeaveStep(k, s, s', y)
    ensures SysInv(k, s', m0, out, depth)
  {
    if s.jobs[y].px == NO_PARENT { RootLeft(k, s, s', y); } else { ChildLeaves(k, s, s', y); }
    hide T.Step, JobsOk, Inv;
  }

  lemma ControlInv(k: nat, s: Sys, s': Sys, m0: Mem, out: bool, depth: nat, x: nat, e: T.Event)
    requires SysInv(k, s, m0, out, depth) && ControlStep(k, s, s', x, e)
    ensures SysInv(k, s', m0, out, depth)
  {
    if e.Deal? { DealInv(k, s, s', m0, out, depth, x, e); } else { QuietInv(k, s, s', m0, out, depth, x, e); }
    hide T.Step, JobsOk, Inv;
  }

  lemma SysStepInv(k: nat, s: Sys, s': Sys, m0: Mem, out: bool, depth: nat)
    requires SysInv(k, s, m0, out, depth) && SysStep(k, s, s', out)
    ensures SysInv(k, s', m0, out, depth)
  {
    hide SysInv, WorkStep, CloseStep, ControlStep, LeaveStep;
    if WorkStep(k, s, s', out) {
      WorkInv(k, s, s', m0, out, depth);
    } else if exists x, f :: CloseStep(k, s, s', x, f) {
      var x, f :| CloseStep(k, s, s', x, f);
      CloseInv(k, s, s', m0, out, depth, x, f);
    } else if exists x, e :: ControlStep(k, s, s', x, e) {
      var x, e :| ControlStep(k, s, s', x, e);
      ControlInv(k, s, s', m0, out, depth, x, e);
    } else {
      var y :| LeaveStep(k, s, s', y);
      LeaveInv(k, s, s', m0, out, depth, y);
    }
  }

  lemma StartInv(k: nat, s: Sys, m0: Mem, out: bool, depth: nat)
    requires Start(s, m0, depth)
    ensures SysInv(k, s, m0, out, depth)
  {
    InitInv(s.w, m0, out, depth);
    FreshOk(k, s.w, s.jobs[0]);
    assert ChildOk(s, 0);
    hide Inv, JobOk;
  }

  ghost predicate SysRun(k: nat, run: seq<Sys>, m0: Mem, out: bool, depth: nat) {
    && run != [] && Start(run[0], m0, depth)
    && forall i, j :: 0 <= i < |run| && j == i + 1 && j < |run| ==> SysStep(k, run[i], run[j], out)
  }

  /** Whatever the workers write and whenever, whatever the idle polls say, and in whatever order the jobs
      run: every step finds its strings, and everything done stays done. */
  lemma {:induction false} SysRunInv(k: nat, run: seq<Sys>, m0: Mem, out: bool, depth: nat, i: nat)
    requires SysRun(k, run, m0, out, depth) && i < |run|
    ensures SysInv(k, run[i], m0, out, depth)
    decreases i
  {
    hide SysInv, SysStep, Start;
    if i == 0 {
      StartInv(k, run[0], m0, out, depth);
    } else {
      SysRunInv(k, run, m0, out, depth, i - 1);
      SysStepInv(k, run[i - 1], run[i], m0, out, depth);
    }
  }

  /** The parallel sorter from end to end: when the first job has completed, the strings are sorted, none
      is lost, every LCP but the first is exact, and the first is unchanged. */
  lemma ParallelSampleSort(k: nat, run: seq<Sys>, m0: Mem, out: bool, depth: nat)
    requires SysRun(k, run, m0, out, depth) && run[|run| - 1].jobs != [] && run[|run| - 1].jobs[0].ctl.pc == T.Finished
    ensures var m := run[|run| - 1].w.mem;
            && Sized(m, |m0.a|) && Sized(m0, |m0.a|)
            && Sorted(Strs(m, out)) && multiset(Strs(m, out)) == multiset(m0.a) && LcpExact(Strs(m, out), m.lcp)
            && (forall i :: 1 <= i < |m0.a| ==> m.lcp[i] <= |Strs(m, out)[i]| && m.chr[i] == At(Strs(m, out)[i], m.lcp[i]))
            && (|m0.a| > 0 ==> m.lcp[0] == m0.lcp[0] && m.chr[0] == m0.chr[0])
  {
    var s := run[|run| - 1];
    SysRunInv(k, run, m0, out, depth, |run| - 1);
    JobAt(k, s, 0);
    ClosedJobDone(k, s.w, s.jobs[0]);
    RootDone(s.w, m0, out, depth);
    RootSizes(s.w, m0, out, depth);
    hide SysRun, SysInv, JobsOk, JobOk, ChildOk, T.Inv, LcpSorted, Inv;
    EntryPoints.WholeSorted(m0.a, OutOf(m0, out), OutOf(s.w.mem, out), |m0.a|);
    EntryPoints.WholeChars(m0.a, OutOf(m0, out), OutOf(s.w.mem, out), |m0.a|);
  }

  lemma RootSizes(w: State, m0: Mem, out: bool, depth: nat)
    requires Inv(w, m0, out, depth)
    ensures Sized(m0, |m0.a|) && Sized(w.mem, |m0.a|)
  {
    hide Tree, AllMemOk, FirstOk;
  }

  // ---- such runs exist -----------------------------------------------------------------------------------------

  lemma IsStep(k: nat, c: T.State, c': T.State, e: T.Event)
    requires T.Start(c, c', e) || T.Release(c, c', e) || T.Close(c, c', e) || T.Gone(c, c', e)
    ensures T.Step(k, c, c', e)
  {
    hide T.Start, T.Round, T.Exit, T.Poll, T.FreePart, T.FreePop, T.Release, T.Return, T.Close, T.Gone;
  }

  lemma StartsAlone(k: nat, c: T.State) returns (c': T.State)
    requires c.pc == T.Begin
    ensures T.Step(k, c, c', T.Nothing) && c' == c.(handle := true, working := c.working + 1, pc := T.RunEnded)
  {
    c' := c.(handle := true, working := c.working + 1, pc := T.RunEnded);
    assert T.Start(c, c', T.Nothing) by { hide T.New; }
    hide T.Start, T.Step;
    IsStep(k, c, c', T.Nothing);
  }

  lemma ReleasesAlone(k: nat, c: T.State) returns (c': T.State)
    requires c.pc == T.RunEnded && c.working == 1
    ensures T.Step(k, c, c', T.Tau) && c' == c.(handle := false, working := 0, pc := T.Closing)
  {
    c' := c.(handle := false, working := 0, pc := T.Closing);
    assert T.Release(c, c', T.Tau);
    hide T.Release, T.Step;
    IsStep(k, c, c', T.Tau);
  }

  lemma ClosesAlone(k: nat, c: T.State) returns (c': T.State)
    requires c.pc == T.Closing && c.msPop == 0 && c.ssPop == 0
    ensures T.Step(k, c, c', T.Tau) && c' == c.(pc := T.Closed)
  {
    c' := c.(pc := T.Closed);
    assert T.Close(c, c', T.Tau);
    hide T.Close, T.Step;
    IsStep(k, c, c', T.Tau);
  }

  lemma LeavesAlone(k: nat, c: T.State) returns (c': T.State)
    requires c.pc == T.Closed
    ensures T.Step(k, c, c', T.Leave) && c' == c.(pc := T.Finished)
  {
    c' := c.(pc := T.Finished);
    assert T.Gone(c, c', T.Leave);
    hide T.Gone, T.Step;
    IsStep(k, c, c', T.Leave);
  }

  lemma OnlyJob(k: nat, w: State, c: T.State, c': T.State, e: T.Event)
    requires T.Step(k, c, c', e) && (e.Tau? || e.Leave? || (e.Nothing? && IsDone(w, 0)))
    ensures forall out :: SysStep(k, Alone(w, c), Alone(w, c'), out)
  {
    var s, s' := Alone(w, c), Alone(w, c');
    hide T.Step;
    if e.Leave? { assert LeaveStep(k, s, s', 0); } else { assert ControlStep(k, s, s', 0, e); }
  }

  lemma WorkStepOf(k: nat, s: Sys, s': Sys, out: bool, t: nat)
    requires s'.jobs == s.jobs && WorkOn(s.w, s'.w, out, t)
    requires t < |s'.w.tasks| ==> !s'.w.tasks[t].phase.Split?
    ensures SysStep(k, s, s', out)
  {
    hide WorkOn;
    assert SplitsAsMeant(k, s.w, s'.w, t);
    assert WorkStep(k, s, s', out);
  }

  lemma OneWorker(m0: Mem, m1: Mem, out: bool, depth: nat) returns (w0: State, w1: State, w2: State, w3: State)
    requires Sized(m0, |m0.a|) && CommonPrefix(m0.a, depth)
    requires LeafOk(Work(|m0.a|, depth, false, m0.a, false), out, m0, m1)
    ensures Init(w0, m0, depth) && WorkOn(w0, w1, out, 0) && WorkOn(w1, w2, out, 0) && WorkOn(w2, w3, out, 0)
    ensures |w1.tasks| == |w2.tasks| == 1 && w1.tasks[0].phase.Working? && w2.tasks[0].phase.Working?
    ensures w3.mem == m1 && IsDone(w3, 0) && |w3.tasks| == 1
  {
    var t0 := Task(-1, 0, Work(|m0.a|, depth, false, m0.a, false), Waiting);
    w0, w1 := State(m0, [t0]), State(m0, [t0.(phase := Working(m0))]);
    w2, w3 := State(m1, w1.tasks), State(m1, [t0.(phase := Done)]);
    assert Section(m0, 0, |m0.a|) == m0 && Section(m1, 0, |m0.a|) == m1;
    hide LeafOk, CommonPrefix;
    SizedLeaf(t0.work, out, m0, m1);
    assert Begin(w0, w1, 0) && Write(w1, w2, 0) && EndLeaf(w2, w3, out, 0);
  }

  lemma SizedLeaf(w: Work, out: bool, l: Mem, l': Mem)
    requires LeafOk(w, out, l, l')
    ensures Sized(l', w.n)
  {
  }

  lemma RunOn(k: nat, run: seq<Sys>, s: Sys, m0: Mem, out: bool, depth: nat)
    requires SysRun(k, run, m0, out, depth) && SysStep(k, run[|run| - 1], s, out)
    ensures SysRun(k, run + [s], m0, out, depth)
  {
    hide SysStep, Start;
  }

  lemma RunBegins(k: nat, w: State, m0: Mem, out: bool, depth: nat)
    requires Init(w, m0, depth)
    ensures SysRun(k, [Alone(w, FreshJob(0, NO_PARENT, 0, 0).ctl)], m0, out, depth)
  {
  }

  lemma WorkPart(k: nat, m0: Mem, m1: Mem, out: bool, depth: nat, c: T.State) returns (run: seq<Sys>, w: State)
    requires Sized(m0, |m0.a|) && CommonPrefix(m0.a, depth) && c == FreshJob(0, NO_PARENT, 0, 0).ctl
    requires LeafOk(Work(|m0.a|, depth, false, m0.a, false), out, m0, m1)
    ensures SysRun(k, run, m0, out, depth) && run != [] && run[|run| - 1] == Alone(w, c) && w.mem == m1 && IsDone(w, 0)
  {
    var w0, w1, w2, w3 := OneWorker(m0, m1, out, depth);
    w := w3;
    RunBegins(k, w0, m0, out, depth);
    hide SysRun, LeafOk, Init, WorkOn, SysStep, IsDone, CommonPrefix;
    run := [Alone(w0, c)];
    WorkStepOf(k, Alone(w0, c), Alone(w1, c), out, 0);
    RunOn(k, run, Alone(w1, c), m0, out, depth);
    run := run + [Alone(w1, c)];
    WorkStepOf(k, Alone(w1, c), Alone(w2, c), out, 0);
    RunOn(k, run, Alone(w2, c), m0, out, depth);
    run := run + [Alone(w2, c)];
    WorkStepOf(k, Alone(w2, c), Alone(w3, c), out, 0);
    RunOn(k, run, Alone(w3, c), m0, out, depth);
    run := run + [Alone(w3, c)];
  }

  /** Whatever one operation makes of all strings is reached by a run in which a single worker performs it. */
  lemma OneJobRun(k: nat, m0: Mem, m1: Mem, out: bool, depth: nat) returns (run: seq<Sys>)
    requires Sized(m0, |m0.a|) && CommonPrefix(m0.a, depth)
    requires LeafOk(Work(|m0.a|, depth, false, m0.a, false), out, m0, m1)
    ensures SysRun(k, run, m0, out, depth) && run[|run| - 1].w.mem == m1
    ensures run[|run| - 1].jobs != [] && run[|run| - 1].jobs[0].ctl.pc == T.Finished
  {
    hide SysRun, LeafOk, T.Step, SysStep, IsDone, CommonPrefix;
    var c0 := FreshJob(0, NO_PARENT, 0, 0).ctl;
    var w;
    run, w := WorkPart(k, m0, m1, out, depth, c0);
    var c1 := StartsAlone(k, c0);
    var c2 := ReleasesAlone(k, c1);
    var c3 := ClosesAlone(k, c2);
    var c4 := LeavesAlone(k, c3);
    OnlyJob(k, w, c0, c1, T.Nothing);
    RunOn(k, run, Alone(w, c1), m0, out, depth);
    run := run + [Alone(w, c1)];
    OnlyJob(k, w, c1, c2, T.Tau);
    RunOn(k, run, Alone(w, c2), m0, out, depth);
    run := run + [Alone(w, c2)];
    OnlyJob(k, w, c2, c3, T.Tau);
    RunOn(k, run, Alone(w, c3), m0, out, depth);
    run := run + [Alone(w, c3)];
    OnlyJob(k, w, c3, c4, T.Leave);
    RunOn(k, run, Alone(w, c4), m0, out, depth);
    run := run + [Alone(w, c4)];
  }

  function Alone(w: State, c: T.State): Sys {
    Sys(w, [Job(0, NO_PARENT, 0, 0, c, [])])
  }
}
