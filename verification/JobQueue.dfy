/** The worker loop around the shared job queue, and why all workers leave only when every job
    has been run. Any number of threads, atomic steps in any order. */
module JobQueue {

  /** Where a worker stands: before the upper pop, running a job, before the increment, before the
      lower pop, before the comparison of the idle count, before the decrement, or returned. */
  datatype Pc = Top | Running(job: nat) | Inc | Idle | Check | Dec(job: nat) | Done

  /** Jobs are numbered in the order of their creation. */
  datatype State = State(queue: seq<nat>, idle: int, threads: seq<Pc>, created: nat, ran: seq<nat>)

  /** Some jobs have been enqueued before the workers start. */
  ghost predicate Init(s: State) {
    && s.queue == seq(s.created, j => j) && s.idle == 0 && s.ran == []
    && forall t :: 0 <= t < |s.threads| ==> s.threads[t] == Top
  }

  // ---- atomic steps of thread t ------------------------------------------------------

  ghost predicate PopTop(s: State, s': State, t: nat) {
    && t < |s.threads| && s.threads[t] == Top && s.queue != []
    && s' == s.(queue := s.queue[1..], threads := s.threads[t := Running(s.queue[0])])
  }

  ghost predicate PopTopFails(s: State, s': State, t: nat) {
    t < |s.threads| && s.threads[t] == Top && s.queue == [] && s' == s.(threads := s.threads[t := Inc])
  }

  /** A running job may create further jobs. */
  ghost predicate Enqueue(s: State, s': State, t: nat) {
    && t < |s.threads| && s.threads[t].Running?
    && s' == s.(queue := s.queue + [s.created], created := s.created + 1)
  }

  ghost predicate Return(s: State, s': State, t: nat) {
    && t < |s.threads| && s.threads[t].Running?
    && s' == s.(ran := s.ran + [s.threads[t].job], threads := s.threads[t := Top])
  }

  ghost predicate Increment(s: State, s': State, t: nat) {
    t < |s.threads| && s.threads[t] == Inc && s' == s.(idle := s.idle + 1, threads := s.threads[t := Idle])
  }

  ghost predicate PopIdle(s: State, s': State, t: nat) {
    && t < |s.threads| && s.threads[t] == Idle && s.queue != []
    && s' == s.(queue := s.queue[1..], threads := s.threads[t := Dec(s.queue[0])])
  }

  ghost predicate PopIdleFails(s: State, s': State, t: nat) {
    t < |s.threads| && s.threads[t] == Idle && s.queue == [] && s' == s.(threads := s.threads[t := Check])
  }

  ghost predicate AllIdle(s: State, s': State, t: nat) {
    t < |s.threads| && s.threads[t] == Check && s.idle == |s.threads| && s' == s.(threads := s.threads[t := Done])
  }

  ghost predicate NotAllIdle(s: State, s': State, t: nat) {
    t < |s.threads| && s.threads[t] == Check && s.idle != |s.threads| && s' == s.(threads := s.threads[t := Idle])
  }

  ghost predicate Decrement(s: State, s': State, t: nat) {
    && t < |s.threads| && s.threads[t].Dec?
    && s' == s.(idle := s.idle - 1, threads := s.threads[t := Running(s.threads[t].job)])
  }

  ghost predicate ThreadStep(s: State, s': State, t: nat) {
    || PopTop(s, s', t) || PopTopFails(s, s', t) || Enqueue(s, s', t) || Return(s, s', t) || Increment(s, s', t)
    || PopIdle(s, s', t) || PopIdleFails(s, s', t) || AllIdle(s, s', t) || NotAllIdle(s, s', t) || Decrement(s, s', t)
  }

  ghost predicate Step(s: State, s': State) {
    exists t: nat :: ThreadStep(s, s', t)
  }

  ghost predicate Run(run: seq<State>) {
    run != [] && Init(run[0]) && forall i :: 0 <= i < |run| - 1 ==> Step(run[i], run[i + 1])
  }

  // ---- invariant -------------------------------------------------------------------------

  predicate CountsIdle(pc: Pc) {
    pc.Idle? || pc.Check? || pc.Dec? || pc.Done?
  }

  function NumIdle(threads: seq<Pc>): nat {
    if threads == [] then 0
    else NumIdle(threads[..|threads| - 1]) + (if CountsIdle(threads[|threads| - 1]) then 1 else 0)
  }

  /** The worker has popped job j and not finished it. */
  predicate HoldsJob(pc: Pc, j: nat) {
    (pc.Running? || pc.Dec?) && pc.job == j
  }

  function NumHolding(threads: seq<Pc>, j: nat): nat {
    if threads == [] then 0
    else NumHolding(threads[..|threads| - 1], j) + (if HoldsJob(threads[|threads| - 1], j) then 1 else 0)
  }

  /** Every job is queued, in hand or finished, and only once. */
  ghost predicate JobConserved(s: State, j: nat) {
    multiset(s.queue)[j] + NumHolding(s.threads, j) + multiset(s.ran)[j] == if j < s.created then 1 else 0
  }

  /** A worker that will look at the queue again before it can count itself idle. */
  predicate Busy(pc: Pc) {
    pc.Top? || pc.Running? || pc.Dec?
  }

  ghost predicate Inv(s: State) {
    && s.idle == NumIdle(s.threads)
    && (s.queue != [] && s.threads != [] ==> exists t :: 0 <= t < |s.threads| && Busy(s.threads[t]))
    && (forall j: nat :: JobConserved(s, j))
  }

  lemma {:induction false} NumIdleUpdate(threads: seq<Pc>, t: nat, pc: Pc)
    requires t < |threads|
    ensures NumIdle(threads[t := pc])
            == NumIdle(threads) - (if CountsIdle(threads[t]) then 1 else 0) + (if CountsIdle(pc) then 1 else 0)
  {
    var n := |threads| - 1;
    if t < n {
      assert threads[t := pc][..n] == threads[..n][t := pc];
      NumIdleUpdate(threads[..n], t, pc);
    } else {
      assert threads[t := pc][..n] == threads[..n];
    }
  }

  lemma {:induction false} NumHoldingUpdate(threads: seq<Pc>, t: nat, pc: Pc, j: nat)
    requires t < |threads|
    ensures NumHolding(threads[t := pc], j)
            == NumHolding(threads, j) - (if HoldsJob(threads[t], j) then 1 else 0) + (if HoldsJob(pc, j) then 1 else 0)
  {
    var n := |threads| - 1;
    if t < n {
      assert threads[t := pc][..n] == threads[..n][t := pc];
      NumHoldingUpdate(threads[..n], t, pc, j);
    } else {
      assert threads[t := pc][..n] == threads[..n];
    }
  }

  lemma {:induction false} NothingIdle(threads: seq<Pc>, j: nat)
    requires forall t :: 0 <= t < |threads| ==> threads[t] == Top
    ensures NumIdle(threads) == 0 && NumHolding(threads, j) == 0
  {
    if threads != [] { NothingIdle(threads[..|threads| - 1], j); }
  }

  lemma {:induction false} FirstJobs(n: nat, j: nat)
    ensures multiset(seq(n, i => i))[j] == if j < n then 1 else 0
  {
    if n > 0 {
      FirstJobs(n - 1, j);
      assert seq(n, i => i) == seq(n - 1, i => i) + [n - 1];
    }
  }

  lemma InitInv(s: State)
    requires Init(s)
    ensures Inv(s)
  {
    NothingIdle(s.threads, 0);
    forall j: nat ensures JobConserved(s, j) {
      NothingIdle(s.threads, j);
      FirstJobs(s.created, j);
    }
    if s.threads != [] { assert Busy(s.threads[0]); }
  }

  /** Whoever stays or becomes busy keeps the queue guarded; a worker stops being busy only
      after it has seen the queue empty. */
  lemma StillBusy(s: State, s': State, t: nat)
    requires Inv(s) && ThreadStep(s, s', t) && s'.queue != []
    ensures exists u :: 0 <= u < |s'.threads| && Busy(s'.threads[u])
  {
    if Busy(s'.threads[t]) {
    } else {
      assert s'.queue == s.queue;
      var u :| 0 <= u < |s.threads| && Busy(s.threads[u]);
      assert u != t;
      assert Busy(s'.threads[u]);
    }
  }

  /** Every step pops a job, finishes a job, creates a job, or leaves the jobs alone. */
  lemma Effect(s: State, s': State, t: nat)
    requires ThreadStep(s, s', t)
    ensures t < |s.threads| == |s'.threads| && s'.threads == s.threads[t := s'.threads[t]]
    ensures var x, y := s.threads[t], s'.threads[t];
            || (s.queue != [] && s'.queue == s.queue[1..] && s'.ran == s.ran && s'.created == s.created
                && !x.Running? && !x.Dec? && (y == Running(s.queue[0]) || y == Dec(s.queue[0])))
            || (s'.queue == s.queue && s'.created == s.created && x.Running? && y == Top && s'.ran == s.ran + [x.job])
            || (s'.queue == s.queue + [s.created] && s'.created == s.created + 1 && s'.ran == s.ran && x == y)
            || (s'.queue == s.queue && s'.created == s.created && s'.ran == s.ran
                && forall j: nat :: HoldsJob(x, j) == HoldsJob(y, j))
  {
  }

  /** A worker at a pop comes away without a job only if the queue is empty, and looks at the queue again
      unless it returns or has the idle count to correct or to compare. */
  lemma PopMisses(s: State, s': State, t: nat)
    requires ThreadStep(s, s', t)
    ensures var x, y := s.threads[t], s'.threads[t];
            && (x == Top || x == Idle ==> (y.Running? || y.Dec? <==> s.queue != []))
            && (x == Check ==> y == Idle || y == Done)
            && (x == Inc ==> y == Idle)
            && s'.idle - s.idle == (if CountsIdle(y) then 1 else 0) - (if CountsIdle(x) then 1 else 0)
  {
  }

  lemma Conserved(s: State, s': State, t: nat, j: nat)
    requires ThreadStep(s, s', t) && JobConserved(s, j)
    ensures JobConserved(s', j)
  {
    Effect(s, s', t);
    NumHoldingUpdate(s.threads, t, s'.threads[t], j);
    hide ThreadStep, NumHolding;
    if s.queue != [] { assert s.queue == [s.queue[0]] + s.queue[1..]; }
  }

  lemma CountConserved(s: State, s': State, t: nat)
    requires Inv(s) && ThreadStep(s, s', t)
    ensures s'.idle == NumIdle(s'.threads)
  {
    NumIdleUpdate(s.threads, t, s'.threads[t]);
    assert s'.threads == s.threads[t := s'.threads[t]];
  }

  lemma StepInv(s: State, s': State, t: nat)
    requires Inv(s) && ThreadStep(s, s', t)
    ensures Inv(s')
  {
    CountConserved(s, s', t);
    forall j: nat ensures JobConserved(s', j) {
      assert JobConserved(s, j);
      Conserved(s, s', t, j);
    }
    if s'.queue != [] { StillBusy(s, s', t); }
    hide NumIdle, JobConserved, ThreadStep;
  }

  lemma {:induction false} RunInv(run: seq<State>, i: nat)
    requires Run(run) && i < |run|
    ensures Inv(run[i]) && |run[i].threads| == |run[0].threads|
    decreases i
  {
    hide Inv, ThreadStep;
    if i == 0 {
      InitInv(run[0]);
    } else {
      RunInv(run, i - 1);
      assert Step(run[i - 1], run[i - 1 + 1]);
      var t: nat :| ThreadStep(run[i - 1], run[i], t);
      StepInv(run[i - 1], run[i], t);
      SameThreads(run[i - 1], run[i], t);
    }
  }

  lemma SameThreads(s: State, s': State, t: nat)
    requires ThreadStep(s, s', t)
    ensures |s'.threads| == |s.threads|
  {
  }

  // ---- what every run achieves ----------------------------------------------------------

  lemma {:induction false} NobodyHolds(threads: seq<Pc>, j: nat)
    requires forall t :: 0 <= t < |threads| ==> !threads[t].Running? && !threads[t].Dec?
    ensures NumHolding(threads, j) == 0
  {
    if threads != [] { NobodyHolds(threads[..|threads| - 1], j); }
  }

  /** When no worker is busy, nothing is left to do: the queue is empty and every job that was
      ever enqueued has been run exactly once. */
  lemma QuietState(s: State)
    requires Inv(s) && s.threads != [] && forall t :: 0 <= t < |s.threads| ==> !Busy(s.threads[t])
    ensures s.queue == [] && forall j: nat :: multiset(s.ran)[j] == if j < s.created then 1 else 0
  {
    assert s.queue == [];
    forall j: nat ensures multiset(s.ran)[j] == if j < s.created then 1 else 0 {
      assert JobConserved(s, j);
      NobodyHolds(s.threads, j);
    }
  }

  /** The assertion behind the parallel region. */
  lemma AllReturned(run: seq<State>)
    requires Run(run) && run[0].threads != []
    requires var s := run[|run| - 1]; forall t :: 0 <= t < |s.threads| ==> s.threads[t] == Done
    ensures var s := run[|run| - 1];
            s.queue == [] && forall j: nat :: multiset(s.ran)[j] == if j < s.created then 1 else 0
  {
    RunInv(run, |run| - 1);
    QuietState(run[|run| - 1]);
  }

  /** A worker returns only when everyone counts as idle: no one is about to pop at the top, running a job, or
      between the failed pop and the increment. What may still be queued belongs to a worker that holds a job it
      has popped while idle and has not counted itself back for; without such a worker, every job has been run
      exactly once. */
  lemma LeavingState(s: State, s': State, t: nat)
    requires Inv(s) && ThreadStep(s, s', t) && s.threads[t] != Done && s'.threads[t] == Done
    ensures forall u :: 0 <= u < |s.threads| ==> s.threads[u] != Top && !s.threads[u].Running? && s.threads[u] != Inc
    ensures s.queue != [] ==> exists u :: 0 <= u < |s.threads| && s.threads[u].Dec?
    ensures (forall u :: 0 <= u < |s.threads| ==> !s.threads[u].Dec?) ==>
              s.queue == [] && forall j: nat :: multiset(s.ran)[j] == if j < s.created then 1 else 0
  {
    AllCountIdle(s.threads);
    hide NumIdle, JobConserved;
    assert forall u :: 0 <= u < |s.threads| ==> CountsIdle(s.threads[u]);
    if forall u :: 0 <= u < |s.threads| ==> !s.threads[u].Dec? { QuietState(s); }
  }

  /** The same along a run, whichever worker makes the step. */
  lemma LeavesLast(run: seq<State>, i: nat, t: nat)
    requires Run(run) && i + 1 < |run| && t < |run[i].threads| && t < |run[i + 1].threads|
    requires run[i].threads[t] != Done && run[i + 1].threads[t] == Done
    ensures var s := run[i];
            && (forall u :: 0 <= u < |s.threads| ==> s.threads[u] != Top && !s.threads[u].Running? && s.threads[u] != Inc)
            && (s.queue != [] ==> exists u :: 0 <= u < |s.threads| && s.threads[u].Dec?)
            && ((forall u :: 0 <= u < |s.threads| ==> !s.threads[u].Dec?) ==>
                  s.queue == [] && forall j: nat :: multiset(s.ran)[j] == if j < s.created then 1 else 0)
  {
    RunInv(run, i);
    hide ThreadStep, Inv;
    assert Step(run[i], run[i + 1]);
    var u: nat :| ThreadStep(run[i], run[i + 1], u);
    Effect(run[i], run[i + 1], u);
    assert u == t;
    LeavingState(run[i], run[i + 1], t);
  }

  lemma {:induction false} AllCountIdle(threads: seq<Pc>)
    ensures NumIdle(threads) <= |threads|
    ensures NumIdle(threads) == |threads| ==> forall u :: 0 <= u < |threads| ==> CountsIdle(threads[u])
  {
    if threads != [] { AllCountIdle(threads[..|threads| - 1]); }
  }

  lemma {:induction false} DecCounted(threads: seq<Pc>, t: nat)
    requires t < |threads| && CountsIdle(threads[t])
    ensures NumIdle(threads) >= 1
  {
    if t < |threads| - 1 { DecCounted(threads[..|threads| - 1], t); }
  }

  lemma DecrementSafe(s: State, s': State, t: nat)
    requires Inv(s) && Decrement(s, s', t)
    ensures s'.idle >= 0
  {
    DecCounted(s.threads, t);
  }

  // ---- every worker can go on, and all can return ---------------------------------------

  /** What is left to do if no further jobs are created: each queued job takes a worker from the pop back to
      the top, and each worker has its way to the end. */
  function Left(s: State): nat {
    10 * |s.queue| + Ways(s.threads)
  }

  function Way(pc: Pc): nat {
    match pc
    case Dec(_) => 7
    case Running(_) => 6
    case Top => 5
    case Inc => 4
    case Idle => 3
    case Check => 2
    case Done => 0
  }

  function Ways(threads: seq<Pc>): nat {
    if threads == [] then 0 else Ways(threads[..|threads| - 1]) + Way(threads[|threads| - 1])
  }

  lemma {:induction false} WaysUpdate(threads: seq<Pc>, t: nat, pc: Pc)
    requires t < |threads|
    ensures Ways(threads[t := pc]) == Ways(threads) - Way(threads[t]) + Way(pc)
  {
    var n := |threads| - 1;
    if t < n {
      assert threads[t := pc][..n] == threads[..n][t := pc];
      WaysUpdate(threads[..n], t, pc);
    } else {
      assert threads[t := pc][..n] == threads[..n];
    }
  }

  /** The step a worker makes next; one that runs a job may also create another. */
  function Next(s: State, t: nat): State
    requires t < |s.threads|
  {
    match s.threads[t]
    case Top => if s.queue == [] then s.(threads := s.threads[t := Inc])
                else s.(queue := s.queue[1..], threads := s.threads[t := Running(s.queue[0])])
    case Running(job) => s.(ran := s.ran + [job], threads := s.threads[t := Top])
    case Inc => s.(idle := s.idle + 1, threads := s.threads[t := Idle])
    case Idle => if s.queue == [] then s.(threads := s.threads[t := Check])
                 else s.(queue := s.queue[1..], threads := s.threads[t := Dec(s.queue[0])])
    case Check => s.(threads := s.threads[t := if s.idle == |s.threads| then Done else Idle])
    case Dec(job) => s.(idle := s.idle - 1, threads := s.threads[t := Running(job)])
    case Done => s
  }

  /** Nobody ever waits for another: a worker that has not returned can make a step, and moves on by it. */
  lemma AlwaysGoes(s: State, t: nat) returns (s': State)
    requires t < |s.threads| && s.threads[t] != Done
    ensures ThreadStep(s, s', t) && s'.threads[t] != s.threads[t] && s'.created == s.created
    ensures s' == Next(s, t)
  {
    s' := Next(s, t);
  }

  /** Of the workers that have not returned, one can make a step that leaves less to do. */
  lemma SomeoneAdvances(s: State) returns (t: nat, s': State)
    requires Inv(s) && exists t :: 0 <= t < |s.threads| && s.threads[t] != Done
    ensures ThreadStep(s, s', t) && s'.created == s.created && Left(s') < Left(s)
  {
    hide ThreadStep, Ways, Next, Inv;
    t :| 0 <= t < |s.threads| && s.threads[t] != Done;
    if u :| 0 <= u < |s.threads| && !CountsIdle(s.threads[u]) {
      t := u;
    } else if u :| 0 <= u < |s.threads| && s.threads[u].Dec? {
      t := u;
    } else {
      AllIdleNow(s);
    }
    s' := AlwaysGoes(s, t);
    NextLeft(s, t);
  }

  lemma AllIdleNow(s: State)
    requires Inv(s) && forall u :: 0 <= u < |s.threads| ==> CountsIdle(s.threads[u]) && !s.threads[u].Dec?
    ensures s.threads != [] ==> s.queue == []
    ensures s.idle == |s.threads|
  {
    EveryoneCounted(s.threads);
  }

  lemma {:induction false} EveryoneCounted(threads: seq<Pc>)
    requires forall u :: 0 <= u < |threads| ==> CountsIdle(threads[u])
    ensures NumIdle(threads) == |threads|
  {
    if threads != [] { EveryoneCounted(threads[..|threads| - 1]); }
  }

  lemma NextLeft(s: State, t: nat)
    requires t < |s.threads| && s.threads[t] != Done
    requires s.threads[t] == Check ==> s.idle == |s.threads|
    ensures Left(Next(s, t)) < Left(s)
  {
    WaysUpdate(s.threads, t, Next(s, t).threads[t]);
    assert Next(s, t).threads == s.threads[t := Next(s, t).threads[t]];
    hide Ways;
  }

  lemma RunOn(run: seq<State>, s': State)
    requires Run(run) && Step(run[|run| - 1], s')
    ensures Run(run + [s'])
  {
    hide Step, Init;
    var more := run + [s'];
    forall i | 0 <= i < |more| - 1 ensures Step(more[i], more[i + 1]) {
      if i < |run| - 1 { assert Step(run[i], run[i + 1]); }
    }
  }

  /** Every run has a continuation, in which no further job is created, to a state in which all workers have
      returned; every job has then been run exactly once. */
  lemma {:induction false} CanReturn(run: seq<State>) returns (all: seq<State>)
    requires Run(run)
    ensures Run(all) && |run| <= |all| && all[..|run|] == run
    ensures var s, z := run[|run| - 1], all[|all| - 1];
            && z.created == s.created && |z.threads| == |s.threads|
            && (forall t :: 0 <= t < |z.threads| ==> z.threads[t] == Done)
            && (z.threads != [] ==>
                  z.queue == [] && forall j: nat :: multiset(z.ran)[j] == if j < z.created then 1 else 0)
    decreases Left(run[|run| - 1])
  {
    var s := run[|run| - 1];
    hide Inv, ThreadStep, Init, Left;
    RunInv(run, |run| - 1);
    if t :| 0 <= t < |s.threads| && s.threads[t] != Done {
      var u, s' := SomeoneAdvances(s);
      assert Step(s, s');
      RunOn(run, s');
      SameThreads(s, s', u);
      hide Run;
      all := CanReturn(run + [s']);
      assert all[..|run|] == all[..|run| + 1][..|run|] == run;
    } else {
      all := run;
      if s.threads != [] { QuietState(s); }
    }
  }

  /** A worker can leave while another one still has a job in hand, which may create more: the other
      one has popped while idle and not yet decremented the count. */
  lemma EarlyLeaver() returns (run: seq<State>)
    ensures Run(run)
    ensures var s := run[|run| - 1]; |s.threads| == 2 && s.threads[0] == Done && s.threads[1] == Dec(1)
  {
    assert seq(1, j => j) == [0];
    assert Init(EarlyState(0));
    run := seq(11, i requires 0 <= i => EarlyState(i));
    hide ThreadStep;
    forall i | 0 <= i < |run| - 1 ensures Step(run[i], run[i + 1]) {
      if i < 5 { EarlySteps(i); } else { LateSteps(i); }
    }
  }

  function EarlyState(i: nat): State {
    if i == 0 then State([0], 0, [Top, Top], 1, [])
    else if i == 1 then State([], 0, [Running(0), Top], 1, [])
    else if i == 2 then State([], 0, [Running(0), Inc], 1, [])
    else if i == 3 then State([], 1, [Running(0), Idle], 1, [])
    else if i == 4 then State([1], 1, [Running(0), Idle], 2, [])
    else if i == 5 then State([1], 1, [Top, Idle], 2, [0])
    else if i == 6 then State([], 1, [Top, Dec(1)], 2, [0])
    else if i == 7 then State([], 1, [Inc, Dec(1)], 2, [0])
    else if i == 8 then State([], 2, [Idle, Dec(1)], 2, [0])
    else if i == 9 then State([], 2, [Check, Dec(1)], 2, [0])
    else State([], 2, [Done, Dec(1)], 2, [0])
  }

  lemma EarlySteps(i: nat)
    requires i < 5
    ensures Step(EarlyState(i), EarlyState(i + 1))
  {
    var t := if i == 1 || i == 2 then 1 else 0;
    assert ThreadStep(EarlyState(i), EarlyState(i + 1), t);
  }

  lemma LateSteps(i: nat)
    requires 5 <= i < 10
    ensures Step(EarlyState(i), EarlyState(i + 1))
  {
    var t := if i == 5 then 1 else 0;
    assert ThreadStep(EarlyState(i), EarlyState(i + 1), t);
  }
}
