/** From every state that the parallel sorter can reach it can go on to its end: nothing is stuck, and
    what is left to do gets less. */
module Completion {
  import opened Strings
  import opened SharedMemory
  import opened Tasks
  import opened WorkTree
  import opened ParallelSort
  import opened Ownership
  import T = TwoStacks
  import Attainable
  import EntryPoints
  import LcpOutput

  // ---- what is left to do ----------------------------------------------------------------------------

  /** Below task t, when its pieces from number idx on are left. */
  ghost function Rest(w: State, t: nat, idx: nat): nat
    decreases |w.tasks| - t, if t < |w.tasks| && w.tasks[t].phase.Split? then Pieces(w.tasks[t].phase.info) - idx else 0
  {
    if t < |w.tasks| && w.tasks[t].phase.Split? && t < w.tasks[t].phase.first && idx < Pieces(w.tasks[t].phase.info)
    then 40 + Rest(w, w.tasks[t].phase.first + idx, 0) + Rest(w, t, idx + 1)
    else 0
  }

  ghost function FrameRest(w: State, tk: seq<nat>, fr: T.Frame): nat {
    6 + if fr.id < |tk| then Rest(w, tk[fr.id], fr.idx) else 0
  }

  ghost function StackRest(w: State, tk: seq<nat>, st: seq<T.Frame>): nat {
    if st == [] then 0 else StackRest(w, tk, st[..|st| - 1]) + FrameRest(w, tk, st[|st| - 1])
  }

  function PcRest(pc: T.Pc): nat {
    match pc
    case Begin => 30
    case SsLoop => 5
    case SsPoll => 6
    case MsLoop(_) => 8
    case MsPoll(_) => 9
    case Freeing(_, left, _) => 10 + left
    case RunEnded => 4
    case Released => 3
    case Closing => 2
    case Closed => 1
    case Finished => 0
  }

  ghost function StacksRest(w: State, tk: seq<nat>, c: T.State): nat {
    StackRest(w, tk, c.ss) + StackRest(w, tk, c.ms)
  }

  ghost function JobRest(w: State, job: Job): nat {
    PcRest(job.ctl.pc) + if job.ctl.pc == T.Begin then Rest(w, job.root, 0) else StacksRest(w, job.tk, job.ctl)
  }

  ghost function JobsRest(w: State, jobs: seq<Job>): nat {
    if jobs == [] then 0 else JobsRest(w, jobs[..|jobs| - 1]) + JobRest(w, jobs[|jobs| - 1])
  }

  function PhaseRest(ph: Phase): nat {
    match ph
    case Waiting => 4
    case Working(_) => 3
    case Split(_, _) => 2
    case Closing(_, _) => 1
    case Done => 0
  }

  function TasksRest(tasks: seq<Task>): nat {
    if tasks == [] then 0 else TasksRest(tasks[..|tasks| - 1]) + PhaseRest(tasks[|tasks| - 1].phase)
  }

  /** There is less to do for the jobs, or as much for them and less for the workers. */
  ghost predicate Less(s': Sys, s: Sys) {
    || JobsRest(s'.w, s'.jobs) < JobsRest(s.w, s.jobs)
    || (JobsRest(s'.w, s'.jobs) == JobsRest(s.w, s.jobs) && TasksRest(s'.w.tasks) < TasksRest(s.w.tasks))
  }

  // ---- sums ------------------------------------------------------------------------------------------

  lemma {:induction false} TasksUpdate(tasks: seq<Task>, t: nat, x: Task)
    requires t < |tasks|
    ensures TasksRest(tasks[t := x]) == TasksRest(tasks) - PhaseRest(tasks[t].phase) + PhaseRest(x.phase)
  {
    var n := |tasks| - 1;
    if t < n {
      assert tasks[t := x][..n] == tasks[..n][t := x];
      TasksUpdate(tasks[..n], t, x);
    } else {
      assert tasks[t := x][..n] == tasks[..n];
    }
  }

  lemma {:induction false} JobsUpdate(w: State, jobs: seq<Job>, x: nat, job: Job)
    requires x < |jobs|
    ensures JobsRest(w, jobs[x := job]) == JobsRest(w, jobs) - JobRest(w, jobs[x]) + JobRest(w, job)
  {
    hide JobRest;
    var n := |jobs| - 1;
    if x < n {
      assert jobs[x := job][..n] == jobs[..n][x := job];
      JobsUpdate(w, jobs[..n], x, job);
    } else {
      assert jobs[x := job][..n] == jobs[..n];
    }
  }

  lemma {:induction false} StackUpdate(w: State, tk: seq<nat>, st: seq<T.Frame>, p: nat, fr: T.Frame)
    requires p < |st|
    ensures StackRest(w, tk, st[p := fr]) == StackRest(w, tk, st) - FrameRest(w, tk, st[p]) + FrameRest(w, tk, fr)
  {
    hide FrameRest;
    var n := |st| - 1;
    if p < n {
      assert st[p := fr][..n] == st[..n][p := fr];
      StackUpdate(w, tk, st[..n], p, fr);
    } else {
      assert st[p := fr][..n] == st[..n];
    }
  }

  lemma StackPush(w: State, tk: seq<nat>, st: seq<T.Frame>, fr: T.Frame)
    ensures StackRest(w, tk, st + [fr]) == StackRest(w, tk, st) + FrameRest(w, tk, fr)
  {
    assert (st + [fr])[..|st|] == st;
  }

  lemma {:induction false} StackSame(w: State, tk: seq<nat>, t: nat, st: seq<T.Frame>)
    requires forall p :: 0 <= p < |st| ==> st[p].id < |tk|
    ensures StackRest(w, tk + [t], st) == StackRest(w, tk, st)
  {
    if st != [] { StackSame(w, tk, t, st[..|st| - 1]); }
  }

  // ---- work leaves no more to do --------------------------------------------------------------------------

  /** The same tasks, none of them newly split. */
  ghost predicate NoneSplit(w: State, w': State) {
    |w'.tasks| == |w.tasks| && forall t :: 0 <= t < |w.tasks| && w'.tasks[t].phase.Split? ==> w'.tasks[t].phase == w.tasks[t].phase
  }

  lemma {:induction false} RestLess(w: State, w': State, t: nat, idx: nat)
    requires NoneSplit(w, w')
    ensures Rest(w', t, idx) <= Rest(w, t, idx)
    decreases |w.tasks| - t, if t < |w.tasks| && w.tasks[t].phase.Split? then Pieces(w.tasks[t].phase.info) - idx else 0
  {
    if t < |w.tasks| && w'.tasks[t].phase.Split? && t < w.tasks[t].phase.first && idx < Pieces(w.tasks[t].phase.info) {
      RestLess(w, w', w.tasks[t].phase.first + idx, 0);
      RestLess(w, w', t, idx + 1);
    }
  }

  lemma {:induction false} StackLess(w: State, w': State, tk: seq<nat>, st: seq<T.Frame>)
    requires NoneSplit(w, w')
    ensures StackRest(w', tk, st) <= StackRest(w, tk, st)
  {
    hide NoneSplit, Rest;
    if st != [] {
      var fr := st[|st| - 1];
      StackLess(w, w', tk, st[..|st| - 1]);
      if fr.id < |tk| { RestLess(w, w', tk[fr.id], fr.idx); }
    }
  }

  lemma {:induction false} JobsLess(w: State, w': State, jobs: seq<Job>)
    requires NoneSplit(w, w')
    ensures JobsRest(w', jobs) <= JobsRest(w, jobs)
  {
    hide NoneSplit, Rest, StackRest;
    if jobs != [] {
      var job := jobs[|jobs| - 1];
      JobsLess(w, w', jobs[..|jobs| - 1]);
      RestLess(w, w', job.root, 0);
      StackLess(w, w', job.tk, job.ctl.ss);
      StackLess(w, w', job.tk, job.ctl.ms);
    }
  }

  /** Another phase for one task, nothing newly split. */
  lemma PhaseLess(s: Sys, s': Sys, t: nat, ph: Phase)
    requires t < |s.w.tasks| && !ph.Split? && PhaseRest(ph) < PhaseRest(s.w.tasks[t].phase)
    requires s'.jobs == s.jobs && s'.w.tasks == s.w.tasks[t := s.w.tasks[t].(phase := ph)]
    ensures Less(s', s)
  {
    hide PhaseRest, JobsRest;
    JobsLess(s.w, s'.w, s.jobs);
    TasksUpdate(s.w.tasks, t, s.w.tasks[t].(phase := ph));
  }

  // ---- a worker brings its operation to an end ---------------------------------------------------------------

  lemma BusyReady(w: State, m0: Mem, out: bool, depth: nat, t: nat)
    requires Inv(w, m0, out, depth) && t < |w.tasks| && (w.tasks[t].phase.Working? || w.tasks[t].phase.Closing?)
    ensures InMemory(w, t) && WorkOk(w.tasks[t].work)
    ensures w.tasks[t].phase.Working? ==> Sized(w.tasks[t].phase.snap, w.tasks[t].work.n)
    ensures w.tasks[t].phase.Closing? ==> CloseReady(w.tasks[t].work, w.tasks[t].phase.info, out, w.tasks[t].phase.snap)
  {
    hide CloseReady, FirstOk, SplitLinked;
    UndoneLive(w, t);
    assert TaskOk(w, t) && MemOk(w, out, t);
    hide TaskOk;
  }

  lemma WaitingThere(w: State, m0: Mem, out: bool, depth: nat, t: nat)
    requires Inv(w, m0, out, depth) && t < |w.tasks|
    ensures InMemory(w, t)
  {
    hide FirstOk, AllMemOk, SplitLinked;
    assert TaskOk(w, t);
    hide TaskOk;
  }

  /** Taken up. */
  lemma BeginOnward(k: nat, s: Sys, m0: Mem, out: bool, depth: nat, t: nat) returns (s': Sys)
    requires SysInv(k, s, m0, out, depth) && t < |s.w.tasks| && s.w.tasks[t].phase.Waiting?
    ensures SysStep(k, s, s', out) && Less(s', s)
  {
    hide Inv, JobsOk, SysStep, Less, Local;
    WaitingThere(s.w, m0, out, depth, t);
    s' := s.(w := WithPhase(s.w, t, Working(Local(s.w, t))));
    assert Begin(s.w, s'.w, t);
    WorkStepOf(k, s, s', out, t);
    PhaseLess(s, s', t, Working(Local(s.w, t)));
  }

  /** Written and done. */
  lemma EndOnward(k: nat, s: Sys, m0: Mem, out: bool, depth: nat, t: nat) returns (s1: Sys, s2: Sys)
    requires SysInv(k, s, m0, out, depth) && t < |s.w.tasks| && (s.w.tasks[t].phase.Working? || s.w.tasks[t].phase.Closing?)
    ensures SysStep(k, s, s1, out) && SysStep(k, s1, s2, out) && Less(s2, s)
  {
    hide Inv, JobsOk, SysStep, Less, LeafOk, CloseOk, CloseReady, WorkOk, Local;
    BusyReady(s.w, m0, out, depth, t);
    var k0 := s.w.tasks[t];
    var l: Mem;
    if k0.phase.Working? {
      l := Attainable.LeafExists(k0.work, out, k0.phase.snap);
      LeafSized(k0.work, out, k0.phase.snap, l);
    } else {
      l := Attainable.CloseExists(k0.work, k0.phase.info, out, k0.phase.snap);
      CloseSized(k0.work, out, k0.phase.snap, l);
    }
    var w1 := Attainable.WriteExists(s.w, t, l);
    s1, s2 := s.(w := w1), s.(w := WithPhase(w1, t, Done));
    WorkStepOf(k, s, s1, out, t);
    assert EndLeaf(w1, s2.w, out, t) || EndClose(w1, s2.w, out, t);
    WorkStepOf(k, s1, s2, out, t);
    PhaseLess(s, s2, t, Done);
  }

  lemma LeafSized(w: Work, out: bool, l: Mem, l': Mem)
    requires LeafOk(w, out, l, l')
    ensures Sized(l', w.n)
  {
  }

  lemma CloseSized(w: Work, out: bool, l: Mem, l': Mem)
    requires CloseOk(w, out, l, l')
    ensures Sized(l', w.n)
  {
  }

  // ---- the job with the highest number goes on ---------------------------------------------------------------

  /** All tasks have been split or are done. */
  ghost predicate Settled(w: State) {
    forall t :: 0 <= t < |w.tasks| ==> w.tasks[t].phase.Split? || w.tasks[t].phase == Done
  }

  /** Everything known of a state in which no worker is at work. */
  ghost predicate Quiet(k: nat, s: Sys, m0: Mem, out: bool, depth: nat) {
    SysInv(k, s, m0, out, depth) && Owners(k, s) && Settled(s.w)
  }

  /** Its control makes a step, and there is less to do. */
  ghost predicate Onward(k: nat, s: Sys, s': Sys, out: bool) {
    SysStep(k, s, s', out) && Less(s', s)
  }

  lemma StepOf(k: nat, c: T.State, c': T.State, e: T.Event)
    requires || T.Start(c, c', e) || T.Round(k, c, c', true, e) || T.Round(k, c, c', false, e) || T.Exit(c, c', e) || T.Poll(c, c', e)
             || T.FreePart(k, c, c', e) || T.FreePop(k, c, c', e) || T.Release(c, c', e) || T.Close(c, c', e) || T.Gone(c, c', e)
    ensures T.Step(k, c, c', e)
  {
    hide T.Start, T.Round, T.Exit, T.Poll, T.FreePart, T.FreePop, T.Release, T.Return, T.Close, T.Gone;
  }

  lemma ControlOnward(k: nat, s: Sys, s': Sys, out: bool, x: nat, e: T.Event)
    requires ControlStep(k, s, s', x, e) && s'.jobs == s.jobs[x := s'.jobs[x]] && |s'.jobs| == |s.jobs|
    requires JobRest(s.w, s'.jobs[x]) < JobRest(s.w, s.jobs[x])
    ensures Onward(k, s, s', out)
  {
    hide JobRest, T.Step, SplitAs, IsDone, PartTask;
    assert SysStep(k, s, s', out) by { hide ControlStep; }
    JobsUpdate(s.w, s.jobs, x, s'.jobs[x]);
  }

  lemma JobFacts(k: nat, s: Sys, m0: Mem, out: bool, depth: nat, x: nat)
    requires Quiet(k, s, m0, out, depth) && x < |s.jobs|
    ensures T.Inv(k, s.jobs[x].ctl) && T.PcOk(s.jobs[x].ctl) && JobOk(k, s.w, s.jobs[x]) && DealtOk(k, s.w, s.jobs[x])
    ensures Tree(s.w) && KindsOk(k, s.w) && s.jobs[x].root < |s.w.tasks| && |s.jobs[x].tk| == |s.jobs[x].ctl.isSs|
    ensures s.jobs[x].ctl.handle ==> s.jobs[x].ctl.working > 0
  {
    hide T.Inv, T.PcOk, DealtOk, TaskOk, SplitLinked, ChildOk, KindsOk, Origins, TakenOnce, OpenOwned, FirstOk, AllMemOk, StepTaskOk, Settled;
    JobAt(k, s, x);
    T.CounterIs(k, s.jobs[x].ctl);
  }

  /** Its task is done already. */
  lemma BeginDone(k: nat, s: Sys, out: bool, x: nat) returns (s': Sys)
    requires x < |s.jobs| && s.jobs[x].ctl.pc == T.Begin && T.PcOk(s.jobs[x].ctl) && IsDone(s.w, s.jobs[x].root)
    ensures Onward(k, s, s', out)
  {
    hide Onward, ControlStep, T.Step, Rest;
    var job, c := s.jobs[x], s.jobs[x].ctl;
    var c' := c.(handle := true, working := c.working + 1, pc := T.RunEnded);
    s' := s.(jobs := s.jobs[x := job.(ctl := c')]);
    StepOf(k, c, c', T.Nothing);
    NothingStep(k, s, s', x);
    ControlOnward(k, s, s', out, x, T.Nothing);
  }

  /** Its task has been split. */
  lemma BeginSplit(k: nat, s: Sys, out: bool, x: nat, ss: bool) returns (s': Sys)
    requires x < |s.jobs| && s.jobs[x].ctl.pc == T.Begin && T.PcOk(s.jobs[x].ctl) && SplitAs(k, s.w, s.jobs[x].root, ss)
    ensures Onward(k, s, s', out)
  {
    hide Onward, ControlStep, T.Step, Rest, SplitAs, StacksRest;
    var job, c := s.jobs[x], s.jobs[x].ctl;
    var c' := T.New(c.(handle := true, working := c.working + 1), ss).(pc := if ss then T.SsLoop else T.MsLoop(false));
    s' := s.(jobs := s.jobs[x := job.(ctl := c', tk := [job.root])]);
    StepOf(k, c, c', T.First(ss));
    FirstStep(k, s, s', x, ss);
    FirstRest(s.w, job.root, c', ss);
    ControlOnward(k, s, s', out, x, T.First(ss));
  }

  lemma BeginJob(k: nat, s: Sys, m0: Mem, out: bool, depth: nat, x: nat) returns (s': Sys)
    requires Quiet(k, s, m0, out, depth) && x < |s.jobs| && s.jobs[x].ctl.pc == T.Begin
    ensures Onward(k, s, s', out)
  {
    hide Quiet, Onward, T.Inv, JobOk, DealtOk, Tree, KindsOk, T.PcOk, SplitAs;
    JobFacts(k, s, m0, out, depth, x);
    SettledRoot(k, s, m0, out, depth, x);
    if s.w.tasks[s.jobs[x].root].phase == Done {
      s' := BeginDone(k, s, out, x);
    } else {
      s' := BeginSplit(k, s, out, x, s.w.tasks[s.jobs[x].root].phase.info.ByBuckets?);
    }
  }

  lemma FirstRest(w: State, t: nat, c: T.State, ss: bool)
    requires c.ss == (if ss then [T.Frame(0, 0)] else []) && c.ms == (if ss then [] else [T.Frame(0, 0)])
    ensures StacksRest(w, [t], c) == 6 + Rest(w, t, 0)
  {
    assert [T.Frame(0, 0)][..0] == [];
  }

  /** A task that a job takes on has pieces as its control expects them. */
  lemma SplitKind(k: nat, w: State, t: nat)
    requires KindsOk(k, w) && t < |w.tasks| && w.tasks[t].phase.Split?
    ensures SplitAs(k, w, t, w.tasks[t].phase.info.ByBuckets?)
    ensures w.tasks[t].phase.info.ByBuckets? ==> !BelowPivot(w, t)
  {
    assert KindOk(k, w, t);
  }

  lemma SettledRoot(k: nat, s: Sys, m0: Mem, out: bool, depth: nat, x: nat)
    requires Quiet(k, s, m0, out, depth) && x < |s.jobs|
    ensures s.jobs[x].root < |s.w.tasks|
    ensures var t := s.jobs[x].root;
            s.w.tasks[t].phase == Done || (s.w.tasks[t].phase.Split? && SplitAs(k, s.w, t, s.w.tasks[t].phase.info.ByBuckets?))
  {
    hide SysInv, KindsOk, SplitAs, Owners;
    JobFacts(k, s, m0, out, depth, x);
    if s.w.tasks[s.jobs[x].root].phase.Split? { SplitKind(k, s.w, s.jobs[x].root); }
  }

  lemma NothingStep(k: nat, s: Sys, s': Sys, x: nat)
    requires x < |s.jobs| == |s'.jobs| && IsDone(s.w, s.jobs[x].root)
    requires s' == s.(jobs := s.jobs[x := s.jobs[x].(ctl := s'.jobs[x].ctl)]) && T.Step(k, s.jobs[x].ctl, s'.jobs[x].ctl, T.Nothing)
    ensures ControlStep(k, s, s', x, T.Nothing)
  {
    hide T.Step;
  }

  lemma FirstStep(k: nat, s: Sys, s': Sys, x: nat, ss: bool)
    requires x < |s.jobs| && SplitAs(k, s.w, s.jobs[x].root, ss) && |s'.jobs| == |s.jobs|
    requires s' == s.(jobs := s.jobs[x := s.jobs[x].(ctl := s'.jobs[x].ctl, tk := [s.jobs[x].root])])
    requires T.Step(k, s.jobs[x].ctl, s'.jobs[x].ctl, T.First(ss))
    ensures ControlStep(k, s, s', x, T.First(ss))
  {
    hide T.Step, SplitAs;
  }

  // ---- parts of a step ------------------------------------------------------------------------------------------

  /** One part of the step at position p is dealt with. */
  lemma DealtRest(w: State, tk: seq<nat>, c: T.State, ss: bool, p: nat, how: T.How)
    requires p < |T.Stack(c, ss)| && T.Stack(c, ss)[p].id < |tk|
    requires var t, idx := tk[T.Stack(c, ss)[p].id], T.Stack(c, ss)[p].idx;
             t < |w.tasks| && w.tasks[t].phase.Split? && t < w.tasks[t].phase.first && idx < Pieces(w.tasks[t].phase.info)
    ensures var t, idx := tk[T.Stack(c, ss)[p].id], T.Stack(c, ss)[p].idx;
            StacksRest(w, tk, T.DealtAt(c, ss, p, how)) + 40 + Rest(w, w.tasks[t].phase.first + idx, 0) == StacksRest(w, tk, c)
  {
    hide StackRest;
    var st := T.Stack(c, ss);
    StackUpdate(w, tk, st, p, T.Frame(st[p].id, st[p].idx + 1));
  }

  lemma PushedRest(w: State, tk: seq<nat>, t: nat, c: T.State, kind: bool)
    requires |c.isSs| == |tk|
    requires forall p :: 0 <= p < |c.ss| ==> c.ss[p].id < |tk|
    requires forall p :: 0 <= p < |c.ms| ==> c.ms[p].id < |tk|
    ensures StacksRest(w, tk + [t], T.New(c, kind)) == StacksRest(w, tk, c) + 6 + Rest(w, t, 0)
  {
    hide Rest, StackRest;
    StackSame(w, tk, t, c.ss);
    StackSame(w, tk, t, c.ms);
    StackPush(w, tk + [t], T.Stack(c, kind), T.Frame(|c.isSs|, 0));
  }

  /** Whether the part of a frame is there, and how its task is numbered. */
  ghost predicate PartThere(w: State, job: Job, fr: T.Frame) {
    && fr.id < |job.tk| == |job.ctl.isSs| && job.tk[fr.id] < |w.tasks|
    && w.tasks[job.tk[fr.id]].phase.Split? && job.tk[fr.id] < w.tasks[job.tk[fr.id]].phase.first
    && fr.idx < Pieces(w.tasks[job.tk[fr.id]].phase.info)
    && PartTask(w, job, fr.id, fr.idx) == w.tasks[job.tk[fr.id]].phase.first + fr.idx
  }

  /** The part that the step at position p comes to next, and its task. */
  lemma NextPart(k: nat, s: Sys, m0: Mem, out: bool, depth: nat, x: nat, ss: bool, p: nat)
    requires Quiet(k, s, m0, out, depth) && x < |s.jobs| && p < |T.Stack(s.jobs[x].ctl, ss)|
    requires T.Stack(s.jobs[x].ctl, ss)[p].idx < T.Parts(k, ss)
    ensures var job, fr := s.jobs[x], T.Stack(s.jobs[x].ctl, ss)[p];
            && PartThere(s.w, job, fr) && PartTask(s.w, job, fr.id, fr.idx) < |s.w.tasks|
            && var part := PartTask(s.w, job, fr.id, fr.idx);
               || s.w.tasks[part].phase == Done
               || (s.w.tasks[part].phase.Split? && SplitAs(k, s.w, part, s.w.tasks[part].phase.info.ByBuckets?)
                   && (s.w.tasks[part].phase.info.ByBuckets? ==> ss))
  {
    hide T.Inv, JobOk, DealtOk, Tree, KindsOk, SysInv, Owners, PartTask;
    JobFacts(k, s, m0, out, depth, x);
    var job, fr := s.jobs[x], T.Stack(s.jobs[x].ctl, ss)[p];
    T.FrameAt(k, job.ctl, ss, p);
    DealSplit(k, s.w, job, fr.id, fr.idx);
    FirstAfter(s.w, job.tk[fr.id]);
    var part := PartTask(s.w, job, fr.id, fr.idx);
    if s.w.tasks[part].phase.Split? { SplitKind(k, s.w, part); }
  }

  lemma FirstAfter(w: State, t: nat)
    requires Tree(w) && t < |w.tasks| && w.tasks[t].phase.Split?
    ensures t < w.tasks[t].phase.first
  {
    assert SplitLinked(w, t);
    hide TaskOk;
  }

  lemma FramesThere(k: nat, c: T.State, tk: seq<nat>)
    requires T.Inv(k, c) && |tk| == |c.isSs|
    ensures forall p :: 0 <= p < |c.ss| ==> c.ss[p].id < |tk|
    ensures forall p :: 0 <= p < |c.ms| ==> c.ms[p].id < |tk|
  {
    hide T.Inv;
    forall p | 0 <= p < |c.ss| ensures c.ss[p].id < |tk| { T.FrameAt(k, c, true, p); }
    forall p | 0 <= p < |c.ms| ensures c.ms[p].id < |tk| { T.FrameAt(k, c, false, p); }
  }

  ghost predicate TopDue(k: nat, c: T.State, ss: bool) {
    && (if ss then c.pc == T.SsLoop else c.pc.MsLoop?) && T.Active(c, ss)
    && T.Stack(c, ss)[|T.Stack(c, ss)| - 1].idx < T.Parts(k, ss)
  }

  /** The next part of the top step is done. */
  lemma TopDone(k: nat, s: Sys, out: bool, x: nat, ss: bool) returns (s': Sys)
    requires x < |s.jobs| && TopDue(k, s.jobs[x].ctl, ss)
    requires var fr := T.Stack(s.jobs[x].ctl, ss)[|T.Stack(s.jobs[x].ctl, ss)| - 1];
             PartThere(s.w, s.jobs[x], fr) && IsDone(s.w, PartTask(s.w, s.jobs[x], fr.id, fr.idx))
    ensures Onward(k, s, s', out)
  {
    hide Onward, ControlStep, T.Step, Rest, PartTask, T.DealtAt, StacksRest, IsDone;
    var job, c := s.jobs[x], s.jobs[x].ctl;
    var p := |T.Stack(c, ss)| - 1;
    var fr := T.Stack(c, ss)[p];
    var c' := T.DealtAt(c, ss, p, T.Local).(pc := T.PollPc(c.pc));
    s' := s.(jobs := s.jobs[x := job.(ctl := c')]);
    StepOf(k, c, c', T.Deal(fr.id, fr.idx, T.Local, false));
    LocalStep(k, s, s', x, fr.id, fr.idx);
    DealtRest(s.w, job.tk, c, ss, p, T.Local);
    SameStacks(s.w, job.tk, T.DealtAt(c, ss, p, T.Local), c');
    ControlOnward(k, s, s', out, x, T.Deal(fr.id, fr.idx, T.Local, false));
  }

  /** It has been split. */
  lemma TopPushed(k: nat, s: Sys, out: bool, x: nat, ss: bool, kind: bool) returns (s': Sys)
    requires x < |s.jobs| && TopDue(k, s.jobs[x].ctl, ss) && T.Inv(k, s.jobs[x].ctl) && (kind ==> ss)
    requires var fr := T.Stack(s.jobs[x].ctl, ss)[|T.Stack(s.jobs[x].ctl, ss)| - 1];
             PartThere(s.w, s.jobs[x], fr) && SplitAs(k, s.w, PartTask(s.w, s.jobs[x], fr.id, fr.idx), kind)
    ensures Onward(k, s, s', out)
  {
    hide Onward, ControlStep, T.Inv, T.Step, Rest, PartTask, T.DealtAt, T.New, SplitAs, StacksRest;
    var job, c := s.jobs[x], s.jobs[x].ctl;
    var p, how := |T.Stack(c, ss)| - 1, T.Pushed(|c.isSs|);
    var fr := T.Stack(c, ss)[p];
    var part, c1 := PartTask(s.w, job, fr.id, fr.idx), T.DealtAt(c, ss, p, how);
    var c' := T.New(c1, kind).(pc := if ss && !kind then T.MsLoop(true) else T.PollPc(c.pc));
    s' := s.(jobs := s.jobs[x := job.(ctl := c', tk := job.tk + [part])]);
    StepOf(k, c, c', T.Deal(fr.id, fr.idx, how, kind));
    PushStep(k, s, s', x, fr.id, fr.idx, kind);
    DealtRest(s.w, job.tk, c, ss, p, how);
    FramesThere(k, c, job.tk);
    DealtFrames(c, ss, p, how);
    PushedRest(s.w, job.tk, part, c1, kind);
    SameStacks(s.w, job.tk + [part], T.New(c1, kind), c');
    ControlOnward(k, s, s', out, x, T.Deal(fr.id, fr.idx, how, kind));
  }

  /** The next part of the top step is done, or has been split. */
  lemma DealTop(k: nat, s: Sys, m0: Mem, out: bool, depth: nat, x: nat, ss: bool) returns (s': Sys)
    requires Quiet(k, s, m0, out, depth) && x < |s.jobs| && TopDue(k, s.jobs[x].ctl, ss)
    ensures Onward(k, s, s', out)
  {
    hide Quiet, Onward, T.Inv, JobOk, DealtOk, Tree, KindsOk, T.PcOk, PartTask, SplitAs;
    JobFacts(k, s, m0, out, depth, x);
    var p := |T.Stack(s.jobs[x].ctl, ss)| - 1;
    NextPart(k, s, m0, out, depth, x, ss, p);
    var fr := T.Stack(s.jobs[x].ctl, ss)[p];
    var part := PartTask(s.w, s.jobs[x], fr.id, fr.idx);
    if s.w.tasks[part].phase == Done {
      s' := TopDone(k, s, out, x, ss);
    } else {
      s' := TopPushed(k, s, out, x, ss, s.w.tasks[part].phase.info.ByBuckets?);
    }
  }

  lemma DealtFrames(c: T.State, ss: bool, p: nat, how: T.How)
    requires p < |T.Stack(c, ss)|
    ensures var c' := T.DealtAt(c, ss, p, how);
            && c'.isSs == c.isSs && |c'.ss| == |c.ss| && |c'.ms| == |c.ms|
            && (forall i :: 0 <= i < |c.ss| ==> c'.ss[i].id == c.ss[i].id) && (forall i :: 0 <= i < |c.ms| ==> c'.ms[i].id == c.ms[i].id)
  {
  }

  lemma SameStacks(w: State, tk: seq<nat>, c: T.State, c': T.State)
    requires c'.ss == c.ss && c'.ms == c.ms
    ensures StacksRest(w, tk, c') == StacksRest(w, tk, c)
  {
  }

  lemma LocalStep(k: nat, s: Sys, s': Sys, x: nat, f: nat, j: nat)
    requires x < |s.jobs| == |s'.jobs| && IsDone(s.w, PartTask(s.w, s.jobs[x], f, j))
    requires s' == s.(jobs := s.jobs[x := s.jobs[x].(ctl := s'.jobs[x].ctl)])
    requires T.Step(k, s.jobs[x].ctl, s'.jobs[x].ctl, T.Deal(f, j, T.Local, false))
    ensures ControlStep(k, s, s', x, T.Deal(f, j, T.Local, false))
  {
    hide T.Step, PartTask;
  }

  lemma PushStep(k: nat, s: Sys, s': Sys, x: nat, f: nat, j: nat, kind: bool)
    requires x < |s.jobs| == |s'.jobs| && SplitAs(k, s.w, PartTask(s.w, s.jobs[x], f, j), kind)
    requires s' == s.(jobs := s.jobs[x := s.jobs[x].(ctl := s'.jobs[x].ctl, tk := s.jobs[x].tk + [PartTask(s.w, s.jobs[x], f, j)])])
    requires T.Step(k, s.jobs[x].ctl, s'.jobs[x].ctl, T.Deal(f, j, T.Pushed(|s.jobs[x].ctl.isSs|), kind))
    ensures ControlStep(k, s, s', x, T.Deal(f, j, T.Pushed(|s.jobs[x].ctl.isSs|), kind))
  {
    hide T.Step, PartTask, SplitAs;
  }

  // ---- a step is complete, a loop goes on, a part is given away ---------------------------------------------------

  /** The LCPs of a step are due: they have been calculated, or the calculation begins. */
  lemma LcpOnward(k: nat, s: Sys, m0: Mem, out: bool, depth: nat, x: nat, f: nat, c': T.State) returns (s': Sys)
    requires Quiet(k, s, m0, out, depth) && x < |s.jobs| && f < |s.jobs[x].tk|
    requires T.Step(k, s.jobs[x].ctl, c', T.Lcp(f)) && JobRest(s.w, s.jobs[x].(ctl := c')) < JobRest(s.w, s.jobs[x])
    ensures Onward(k, s, s', out)
  {
    hide Quiet, Onward, ControlStep, CloseStep, T.Step, JobRest, Local, Less, SysStep, MayClose, SplitAs;
    var t := s.jobs[x].tk[f];
    StepTask(k, s, m0, out, depth, x, f);
    if s.w.tasks[t].phase == Done {
      s' := s.(jobs := s.jobs[x := s.jobs[x].(ctl := c')]);
      LcpStep(k, s, s', x, f);
      ControlOnward(k, s, s', out, x, T.Lcp(f));
    } else {
      var ph := Closing(Local(s.w, t), s.w.tasks[t].phase.info);
      s' := s.(w := WithPhase(s.w, t, ph));
      CloseNow(k, s, s', x, f, c');
      PhaseLess(s, s', t, ph);
      CloseOnward(k, s, s', out, x, f);
    }
  }

  lemma StepTask(k: nat, s: Sys, m0: Mem, out: bool, depth: nat, x: nat, f: nat)
    requires Quiet(k, s, m0, out, depth) && x < |s.jobs| && f < |s.jobs[x].tk|
    ensures s.jobs[x].tk[f] < |s.w.tasks| && InMemory(s.w, s.jobs[x].tk[f])
    ensures s.w.tasks[s.jobs[x].tk[f]].phase == Done || s.w.tasks[s.jobs[x].tk[f]].phase.Split?
  {
    hide T.Inv, JobOk, KindsOk, Inv, Owners, JobsOk, Tree, AllParts;
    JobFacts(k, s, m0, out, depth, x);
    assert DealtAt(k, s.w, s.jobs[x], f);
    WaitingThere(s.w, m0, out, depth, s.jobs[x].tk[f]);
  }

  lemma LcpStep(k: nat, s: Sys, s': Sys, x: nat, f: nat)
    requires x < |s.jobs| == |s'.jobs| && f < |s.jobs[x].tk| && IsDone(s.w, s.jobs[x].tk[f])
    requires s' == s.(jobs := s.jobs[x := s.jobs[x].(ctl := s'.jobs[x].ctl)])
    requires T.Step(k, s.jobs[x].ctl, s'.jobs[x].ctl, T.Lcp(f))
    ensures ControlStep(k, s, s', x, T.Lcp(f))
  {
    hide T.Step;
  }

  lemma CloseNow(k: nat, s: Sys, s': Sys, x: nat, f: nat, c': T.State)
    requires x < |s.jobs| && f < |s.jobs[x].tk| && T.Step(k, s.jobs[x].ctl, c', T.Lcp(f)) && s'.jobs == s.jobs
    requires StartClose(s.w, s'.w, s.jobs[x].tk[f])
    ensures CloseStep(k, s, s', x, f)
  {
    hide T.Step, StartClose;
  }

  lemma CloseOnward(k: nat, s: Sys, s': Sys, out: bool, x: nat, f: nat)
    requires CloseStep(k, s, s', x, f) && Less(s', s)
    ensures Onward(k, s, s', out)
  {
    hide CloseStep, Less;
  }

  /** A silent step of the control. */
  lemma TauOnward(k: nat, s: Sys, out: bool, x: nat, c': T.State) returns (s': Sys)
    requires x < |s.jobs| && T.Step(k, s.jobs[x].ctl, c', T.Tau)
    requires JobRest(s.w, s.jobs[x].(ctl := c')) < JobRest(s.w, s.jobs[x])
    ensures Onward(k, s, s', out)
  {
    hide Onward, T.Step, JobRest;
    s' := s.(jobs := s.jobs[x := s.jobs[x].(ctl := c')]);
    ControlOnward(k, s, s', out, x, T.Tau);
  }

  lemma PcOnward(w: State, job: Job, c': T.State)
    requires job.ctl.pc != T.Begin && c'.pc != T.Begin && c'.ss == job.ctl.ss && c'.ms == job.ctl.ms && PcRest(c'.pc) < PcRest(job.ctl.pc)
    ensures JobRest(w, job.(ctl := c')) < JobRest(w, job)
  {
  }

  lemma TopOnward(w: State, job: Job, c: T.State, ss: bool, c': T.State)
    requires job.ctl.pc != T.Begin && c'.pc != T.Begin && c.ss == job.ctl.ss && c.ms == job.ctl.ms
    requires T.Stack(c, ss) != [] && c'.ss == T.TopClosed(c, ss).ss && c'.ms == T.TopClosed(c, ss).ms
    requires PcRest(c'.pc) <= PcRest(job.ctl.pc) + 5
    ensures JobRest(w, job.(ctl := c')) < JobRest(w, job)
  {
    hide Rest, StackRest;
    TopLess(w, job.tk, c, ss);
  }

  lemma TopLess(w: State, tk: seq<nat>, c: T.State, ss: bool)
    requires T.Stack(c, ss) != []
    ensures StacksRest(w, tk, T.TopClosed(c, ss)) + 6 <= StacksRest(w, tk, c)
  {
    hide Rest;
  }

  lemma LeaveLoop(k: nat, s: Sys, out: bool, x: nat, ss: bool) returns (s': Sys)
    requires x < |s.jobs| && (if ss then s.jobs[x].ctl.pc == T.SsLoop else s.jobs[x].ctl.pc.MsLoop?) && !T.Active(s.jobs[x].ctl, ss)
    ensures Onward(k, s, s', out)
  {
    hide Onward, T.Step, JobRest;
    var c := s.jobs[x].ctl;
    var c' := c.(pc := if c.pc.MsLoop? && c.pc.nested then T.SsPoll else T.RunEnded);
    StepOf(k, c, c', T.Tau);
    PcOnward(s.w, s.jobs[x], c');
    s' := TauOnward(k, s, out, x, c');
  }

  /** The control of a job whose top step is complete. */
  lemma TopComplete(k: nat, c: T.State, ss: bool) returns (c': T.State)
    requires (if ss then c.pc == T.SsLoop else c.pc.MsLoop?) && T.Active(c, ss) && T.Stack(c, ss)[|T.Stack(c, ss)| - 1].idx >= T.Parts(k, ss)
    ensures T.Step(k, c, c', T.Lcp(T.Stack(c, ss)[|T.Stack(c, ss)| - 1].id))
    ensures c'.pc == T.PollPc(c.pc) && c'.ss == T.TopClosed(c, ss).ss && c'.ms == T.TopClosed(c, ss).ms
  {
    hide T.Step, T.TopClosed;
    c' := T.TopClosed(c, ss).(pc := T.PollPc(c.pc));
    StepOf(k, c, c', T.Lcp(T.Stack(c, ss)[|T.Stack(c, ss)| - 1].id));
  }

  lemma LoopJob(k: nat, s: Sys, m0: Mem, out: bool, depth: nat, x: nat, ss: bool) returns (s': Sys)
    requires Quiet(k, s, m0, out, depth) && x < |s.jobs| && (if ss then s.jobs[x].ctl.pc == T.SsLoop else s.jobs[x].ctl.pc.MsLoop?)
    ensures Onward(k, s, s', out)
  {
    hide Quiet, Onward, T.Inv, JobOk, DealtOk, Tree, KindsOk, T.Step, JobRest, T.PcOk, T.TopClosed;
    JobFacts(k, s, m0, out, depth, x);
    var c := s.jobs[x].ctl;
    var st := T.Stack(c, ss);
    if !T.Active(c, ss) {
      s' := LeaveLoop(k, s, out, x, ss);
    } else if st[|st| - 1].idx < T.Parts(k, ss) {
      s' := DealTop(k, s, m0, out, depth, x, ss);
    } else {
      T.FrameAt(k, c, ss, |st| - 1);
      var c' := TopComplete(k, c, ss);
      TopOnward(s.w, s.jobs[x], c, ss, c');
      s' := LcpOnward(k, s, m0, out, depth, x, st[|st| - 1].id, c');
    }
  }

  lemma PollJob(k: nat, s: Sys, m0: Mem, out: bool, depth: nat, x: nat) returns (s': Sys)
    requires Quiet(k, s, m0, out, depth) && x < |s.jobs| && (s.jobs[x].ctl.pc.SsPoll? || s.jobs[x].ctl.pc.MsPoll?)
    ensures Onward(k, s, s', out)
  {
    hide Quiet, Onward, T.Step, JobRest;
    var c := s.jobs[x].ctl;
    var c' := c.(pc := T.BackPc(T.BackOf(c.pc)));
    StepOf(k, c, c', T.Tau);
    PcOnward(s.w, s.jobs[x], c');
    s' := TauOnward(k, s, out, x, c');
  }

  /** A job is given away: it has less to do than its parent had. */
  lemma GiveOnward(k: nat, s: Sys, s': Sys, out: bool, x: nat, f: nat, j: nat, t: nat)
    requires x < |s.jobs| && |s'.jobs| == |s.jobs| + 1 && t == PartTask(s.w, s.jobs[x], f, j)
    requires s' == s.(jobs := s.jobs[x := s.jobs[x].(ctl := s'.jobs[x].ctl)] + [FreshJob(t, x, f, j)])
    requires T.Step(k, s.jobs[x].ctl, s'.jobs[x].ctl, T.Deal(f, j, T.Given, false))
    requires JobRest(s.w, s'.jobs[x]) + 40 + Rest(s.w, t, 0) <= JobRest(s.w, s.jobs[x])
    ensures Onward(k, s, s', out)
  {
    hide T.Step, PartTask, StacksRest, Rest;
    assert ControlStep(k, s, s', x, T.Deal(f, j, T.Given, false));
    GivenRest(s.w, s.jobs, x, s'.jobs[x], t, f, j);
  }

  lemma GivenRest(w: State, jobs: seq<Job>, x: nat, job: Job, t: nat, f: nat, j: nat)
    requires x < |jobs|
    ensures JobsRest(w, jobs[x := job] + [FreshJob(t, x, f, j)]) == JobsRest(w, jobs) - JobRest(w, jobs[x]) + JobRest(w, job) + 30 + Rest(w, t, 0)
  {
    hide Rest, StacksRest;
    JobsUpdate(w, jobs, x, job);
    assert (jobs[x := job] + [FreshJob(t, x, f, j)])[..|jobs|] == jobs[x := job];
  }

  /** The next part of the bottom step is done, or is given away. */
  lemma FreeBottom(k: nat, s: Sys, m0: Mem, out: bool, depth: nat, x: nat) returns (s': Sys)
    requires Quiet(k, s, m0, out, depth) && x < |s.jobs|
    requires var c := s.jobs[x].ctl;
             && c.pc.Freeing? && T.Active(c, c.pc.ss) && (c.pc.ss || c.pc.left > 0)
             && T.Stack(c, c.pc.ss)[T.Popped(c, c.pc.ss)].idx < T.Parts(k, c.pc.ss)
    ensures Onward(k, s, s', out)
  {
    hide Quiet, Onward, ControlStep, T.Step, Rest, PartTask, SplitAs, StacksRest, T.DealtAt;
    var job, c := s.jobs[x], s.jobs[x].ctl;
    var ss, p := c.pc.ss, T.Popped(c, c.pc.ss);
    var fr := T.Stack(c, ss)[p];
    NextPart(k, s, m0, out, depth, x, ss, p);
    var part := PartTask(s.w, job, fr.id, fr.idx);
    var how := if s.w.tasks[part].phase == Done then T.Local else T.Given;
    var c' := T.DealtAt(c, ss, p, how);
    StepOf(k, c, c', T.Deal(fr.id, fr.idx, how, false));
    DealtRest(s.w, job.tk, c, ss, p, how);
    T.DealtPc(c, ss, p, how);
    if how == T.Local {
      s' := s.(jobs := s.jobs[x := job.(ctl := c')]);
      LocalStep(k, s, s', x, fr.id, fr.idx);
      ControlOnward(k, s, s', out, x, T.Deal(fr.id, fr.idx, how, false));
    } else {
      s' := s.(jobs := s.jobs[x := job.(ctl := c')] + [FreshJob(part, x, fr.id, fr.idx)]);
      GiveOnward(k, s, s', out, x, fr.id, fr.idx, part);
    }
  }

  /** The bottom step has nothing left. */
  lemma PopBottom(k: nat, s: Sys, out: bool, x: nat) returns (s': Sys)
    requires x < |s.jobs|
    requires var c := s.jobs[x].ctl;
             && c.pc.Freeing? && T.Active(c, c.pc.ss) && (c.pc.ss || c.pc.left > 0)
             && T.Stack(c, c.pc.ss)[T.Popped(c, c.pc.ss)].idx >= T.Parts(k, c.pc.ss)
    ensures Onward(k, s, s', out)
  {
    hide Onward, T.Step, JobRest;
    var c := s.jobs[x].ctl;
    var ss := c.pc.ss;
    var c' := T.WithPopped(c, ss, T.Popped(c, ss) + 1).(pc := if ss then T.BackPc(c.pc.back) else T.Freeing(false, c.pc.left - 1, c.pc.back));
    StepOf(k, c, c', T.Tau);
    PcOnward(s.w, s.jobs[x], c');
    s' := TauOnward(k, s, out, x, c');
  }

  lemma FreeJob(k: nat, s: Sys, m0: Mem, out: bool, depth: nat, x: nat) returns (s': Sys)
    requires Quiet(k, s, m0, out, depth) && x < |s.jobs| && s.jobs[x].ctl.pc.Freeing?
    ensures Onward(k, s, s', out)
  {
    hide Quiet, Onward, T.Step, JobRest;
    var c := s.jobs[x].ctl;
    var ss, p := c.pc.ss, T.Popped(c, c.pc.ss);
    if !T.Active(c, ss) || (!ss && c.pc.left == 0) {
      var c' := c.(pc := T.BackPc(c.pc.back));
      StepOf(k, c, c', T.Tau);
      PcOnward(s.w, s.jobs[x], c');
      s' := TauOnward(k, s, out, x, c');
    } else if T.Stack(c, ss)[p].idx < T.Parts(k, ss) {
      s' := FreeBottom(k, s, m0, out, depth, x);
    } else {
      s' := PopBottom(k, s, out, x);
    }
  }

  // ---- the end of a job ----------------------------------------------------------------------------------------------

  lemma ReleaseJob(k: nat, s: Sys, m0: Mem, out: bool, depth: nat, x: nat) returns (s': Sys)
    requires Quiet(k, s, m0, out, depth) && x < |s.jobs| && s.jobs[x].ctl.pc == T.RunEnded
    ensures Onward(k, s, s', out)
  {
    hide Quiet, Onward, T.Step, JobRest, T.Inv, JobOk, DealtOk, Tree, KindsOk;
    JobFacts(k, s, m0, out, depth, x);
    var c := s.jobs[x].ctl;
    var c' := c.(handle := false, working := c.working - 1, pc := if c.working - 1 == 0 then T.Closing else T.Released);
    StepOf(k, c, c', T.Tau);
    PcOnward(s.w, s.jobs[x], c');
    s' := TauOnward(k, s, out, x, c');
  }

  lemma AllClosed(k: nat, s: Sys, out: bool, x: nat) returns (s': Sys)
    requires x < |s.jobs| && s.jobs[x].ctl.pc == T.Closing && s.jobs[x].ctl.msPop == 0 && s.jobs[x].ctl.ssPop == 0
    ensures Onward(k, s, s', out)
  {
    hide Onward, T.Step, JobRest;
    var c := s.jobs[x].ctl;
    var c' := c.(pc := T.Closed);
    StepOf(k, c, c', T.Tau);
    PcOnward(s.w, s.jobs[x], c');
    s' := TauOnward(k, s, out, x, c');
  }

  /** The control of a job that closes the step it popped last. */
  lemma CloseTop(k: nat, c: T.State, ss: bool) returns (c': T.State)
    requires c.pc == T.Closing && T.PcOk(c) && ss == (c.msPop == 0) && T.Popped(c, ss) > 0
    ensures T.Stack(c, ss) != [] && T.Step(k, c, c', T.Lcp(T.Stack(c, ss)[|T.Stack(c, ss)| - 1].id)) && c'.pc == c.pc
    ensures c'.ss == T.TopClosed(c, ss).ss && c'.ms == T.TopClosed(c, ss).ms
  {
    hide T.Step;
    assert c.ms[..|c.ms|] == c.ms && c.ss[..|c.ss|] == c.ss;
    c' := if ss then T.TopClosed(c, true).(ssPop := c.ssPop - 1) else T.TopClosed(c, false).(msPop := c.msPop - 1);
    StepOf(k, c, c', T.Lcp(T.Stack(c, ss)[|T.Stack(c, ss)| - 1].id));
  }

  lemma ClosingJob(k: nat, s: Sys, m0: Mem, out: bool, depth: nat, x: nat) returns (s': Sys)
    requires Quiet(k, s, m0, out, depth) && x < |s.jobs| && s.jobs[x].ctl.pc == T.Closing
    ensures Onward(k, s, s', out)
  {
    hide Quiet, Onward, T.Step, JobRest, T.Inv, JobOk, DealtOk, Tree, KindsOk, T.PcOk, T.TopClosed;
    JobFacts(k, s, m0, out, depth, x);
    var c := s.jobs[x].ctl;
    if c.msPop == 0 && c.ssPop == 0 {
      s' := AllClosed(k, s, out, x);
    } else {
      var ss := c.msPop == 0;
      var c' := CloseTop(k, c, ss);
      T.FrameAt(k, c, ss, |T.Stack(c, ss)| - 1);
      TopOnward(s.w, s.jobs[x], c, ss, c');
      s' := LcpOnward(k, s, m0, out, depth, x, T.Stack(c, ss)[|T.Stack(c, ss)| - 1].id, c');
    }
  }

  lemma LeavingRest(w: State, jobs: seq<Job>, y: nat, job: Job, x: nat, p: Job)
    requires y < |jobs| && x < |jobs| && x != y && JobRest(w, job) < JobRest(w, jobs[y]) && JobRest(w, p) <= JobRest(w, jobs[x])
    ensures JobsRest(w, jobs[y := job][x := p]) < JobsRest(w, jobs)
  {
    hide JobRest;
    JobsUpdate(w, jobs, y, job);
    JobsUpdate(w, jobs[y := job], x, p);
  }

  /** The notified job. */
  lemma ReturnsTo(k: nat, w: State, p: Job, f: nat, j: nat) returns (c': T.State)
    requires T.PcOk(p.ctl) && (f, j) in p.ctl.open && p.ctl.working > 0
    ensures T.Step(k, p.ctl, c', T.Returned(f, j)) && JobRest(w, p.(ctl := c')) <= JobRest(w, p)
  {
    var c := p.ctl;
    c' := c.(open := c.open - {(f, j)}, working := c.working - 1, pc := if c.working - 1 == 0 then T.Closing else c.pc);
    assert T.Return(c, c', T.Returned(f, j));
    hide T.Step, Rest, StackRest;
    ReturnStep(k, c, c', f, j);
  }

  lemma ReturnStep(k: nat, c: T.State, c': T.State, f: nat, j: nat)
    requires T.Return(c, c', T.Returned(f, j))
    ensures T.Step(k, c, c', T.Returned(f, j))
  {
    hide T.Start, T.Round, T.Exit, T.Poll, T.FreePart, T.FreePop, T.Release, T.Return, T.Close, T.Gone;
  }

  lemma LeaveJob(k: nat, s: Sys, m0: Mem, out: bool, depth: nat, y: nat) returns (s': Sys)
    requires Quiet(k, s, m0, out, depth) && y < |s.jobs| && s.jobs[y].ctl.pc == T.Closed
    ensures Onward(k, s, s', out)
  {
    hide T.Step, T.Inv, JobOk, DealtOk, Tree, KindsOk, Owners, JobRest, Inv, JobsOk, T.PcOk, Settled;
    var job := s.jobs[y];
    var c' := job.ctl.(pc := T.Finished);
    StepOf(k, job.ctl, c', T.Leave);
    PcOnward(s.w, job, c');
    JobAt(k, s, y);
    if y == 0 {
      s' := s.(jobs := s.jobs[y := job.(ctl := c')]);
      assert LeaveStep(k, s, s', y);
      JobsUpdate(s.w, s.jobs, y, s'.jobs[y]);
    } else {
      NotifyEnabled(k, s, m0, out, depth, y);
      JobFacts(k, s, m0, out, depth, job.px);
      var p := s.jobs[job.px];
      var c1 := ReturnsTo(k, s.w, p, job.pf, job.pj);
      s' := s.(jobs := s.jobs[y := job.(ctl := c')][job.px := p.(ctl := c1)]);
      assert LeaveStep(k, s, s', y);
      LeavingRest(s.w, s.jobs, y, job.(ctl := c'), job.px, p.(ctl := c1));
    }
    hide LeaveStep, JobsRest;
  }

  // ---- every run can be completed --------------------------------------------------------------------------------------

  lemma {:induction false} Highest(jobs: seq<Job>) returns (x: nat)
    requires exists y :: 0 <= y < |jobs| && jobs[y].ctl.pc != T.Finished
    ensures x < |jobs| && jobs[x].ctl.pc != T.Finished && forall y :: x < y < |jobs| ==> jobs[y].ctl.pc == T.Finished
  {
    var n := |jobs| - 1;
    if jobs[n].ctl.pc != T.Finished {
      x := n;
    } else {
      var y :| 0 <= y < |jobs| && jobs[y].ctl.pc != T.Finished;
      assert jobs[..n][y] == jobs[y];
      x := Highest(jobs[..n]);
      assert forall z :: x < z < n ==> jobs[z] == jobs[..n][z];
    }
  }

  lemma OwnerAbove(s: Sys, x: nat, f: nat, j: nat)
    requires OpenOwned(s) && x < |s.jobs| && (f, j) in s.jobs[x].ctl.open
    ensures exists y :: x < y < |s.jobs| && s.jobs[y].ctl.pc != T.Finished
  {
    assert Owned(s, x, f, j);
  }

  /** Whoever waits for a part waits for a job with a higher number. */
  lemma NotWaiting(k: nat, s: Sys, m0: Mem, out: bool, depth: nat, x: nat)
    requires Quiet(k, s, m0, out, depth) && x < |s.jobs| && forall y :: x < y < |s.jobs| ==> s.jobs[y].ctl.pc == T.Finished
    ensures s.jobs[x].ctl.pc != T.Released
  {
    hide T.Inv, JobOk, DealtOk, Tree, KindsOk, SysInv, Origins, TakenOnce, Settled, OpenOwned;
    JobFacts(k, s, m0, out, depth, x);
    if s.jobs[x].ctl.pc == T.Released {
      var p :| p in s.jobs[x].ctl.open;
      OwnerAbove(s, x, p.0, p.1);
    }
  }

  lemma JobOnward(k: nat, s: Sys, m0: Mem, out: bool, depth: nat) returns (s': Sys)
    requires Quiet(k, s, m0, out, depth) && s.jobs != [] && s.jobs[0].ctl.pc != T.Finished
    ensures Onward(k, s, s', out)
  {
    hide Quiet, Onward;
    var x := Highest(s.jobs);
    NotWaiting(k, s, m0, out, depth, x);
    match s.jobs[x].ctl.pc
    case Begin => s' := BeginJob(k, s, m0, out, depth, x);
    case SsLoop => s' := LoopJob(k, s, m0, out, depth, x, true);
    case SsPoll => s' := PollJob(k, s, m0, out, depth, x);
    case MsLoop(_) => s' := LoopJob(k, s, m0, out, depth, x, false);
    case MsPoll(_) => s' := PollJob(k, s, m0, out, depth, x);
    case Freeing(_, _, _) => s' := FreeJob(k, s, m0, out, depth, x);
    case RunEnded => s' := ReleaseJob(k, s, m0, out, depth, x);
    case Closing => s' := ClosingJob(k, s, m0, out, depth, x);
    case Closed => s' := LeaveJob(k, s, m0, out, depth, x);
  }

  /** As long as the first job has not ended something can be done that leaves less to do. */
  lemma Continues(k: nat, run: seq<Sys>, m0: Mem, out: bool, depth: nat) returns (run': seq<Sys>)
    requires SysRun(k, run, m0, out, depth) && run[|run| - 1].jobs != [] && run[|run| - 1].jobs[0].ctl.pc != T.Finished
    ensures SysRun(k, run', m0, out, depth) && run <= run' && run' != [] && Less(run'[|run'| - 1], run[|run| - 1])
  {
    hide SysRun, SysInv, Owners, SysStep, Less;
    RunReaches(k, run, m0, out, depth);
    var s := run[|run| - 1];
    if t :| 0 <= t < |s.w.tasks| && s.w.tasks[t].phase.Waiting? {
      var s1 := BeginOnward(k, s, m0, out, depth, t);
      RunOn(k, run, s1, m0, out, depth);
      run' := run + [s1];
    } else if t :| 0 <= t < |s.w.tasks| && (s.w.tasks[t].phase.Working? || s.w.tasks[t].phase.Closing?) {
      var s1, s2 := EndOnward(k, s, m0, out, depth, t);
      RunOn(k, run, s1, m0, out, depth);
      RunOn(k, run + [s1], s2, m0, out, depth);
      run' := run + [s1] + [s2];
    } else {
      var s1 := JobOnward(k, s, m0, out, depth);
      RunOn(k, run, s1, m0, out, depth);
      run' := run + [s1];
    }
  }

  lemma RunReaches(k: nat, run: seq<Sys>, m0: Mem, out: bool, depth: nat)
    requires SysRun(k, run, m0, out, depth)
    ensures run != [] && SysInv(k, run[|run| - 1], m0, out, depth) && Owners(k, run[|run| - 1]) && run[|run| - 1].jobs != []
  {
    SysRunInv(k, run, m0, out, depth, |run| - 1);
    RunOwners(k, run, m0, out, depth, |run| - 1);
    hide SysStep, Start, Inv, JobOk, ChildOk, Owners, GivenOnce;
  }

  /** However far a run has come - whatever the workers have written, however the work has been split and
      given away, whatever the jobs wait for - it can be completed. */
  lemma {:induction false} CanComplete(k: nat, run: seq<Sys>, m0: Mem, out: bool, depth: nat) returns (run': seq<Sys>)
    requires SysRun(k, run, m0, out, depth)
    ensures SysRun(k, run', m0, out, depth) && run <= run' && run' != []
    ensures run'[|run'| - 1].jobs != [] && run'[|run'| - 1].jobs[0].ctl.pc == T.Finished
    decreases JobsRest(run[|run| - 1].w, run[|run| - 1].jobs), TasksRest(run[|run| - 1].w.tasks)
  {
    hide SysRun, JobsRest, TasksRest, SysInv, Owners;
    RunReaches(k, run, m0, out, depth);
    if run[|run| - 1].jobs[0].ctl.pc == T.Finished {
      run' := run;
    } else {
      run' := Continues(k, run, m0, out, depth);
      run' := CanComplete(k, run', m0, out, depth);
    }
  }
}
