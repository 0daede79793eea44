/** A small sort job: its stack of sample sort steps, its stack of multikey quicksort steps, the work
    it gives away from the bottom of either whenever some worker is idle, and its substep counter. */
module TwoStacks {

  /** A step on a stack, by number, with the part it works on next. */
  datatype Frame = Frame(id: nat, idx: nat)

  /** A part is dealt with on the spot, becomes a step on a stack, or is enqueued as a job of its own. */
  datatype How = Local | Pushed(child: nat) | Given

  /** The loop that polled for idle workers. */
  datatype Back = ToSs | ToMs(nested: bool)

  /** The job stands before its choice of algorithm, at the head or the idle poll of the sample sort
      loop or of the quicksort loop (which may have been entered from the former), gives away the
      bottom step of one stack (of at most so many quicksort steps), has ended its loops, has released
      its anonymous handle, executes substep_all_done, has nothing left to do there, or is gone. */
  datatype Pc =
    | Begin | SsLoop | SsPoll | MsLoop(nested: bool) | MsPoll(nested: bool)
    | Freeing(ss: bool, left: nat, back: Back) | RunEnded | Released | Closing | Closed | Finished

  /** Both stacks, with the number of steps popped at the front, and m_substep_working. Recorded are the
      kind of every step, what was done with every part, for which steps the LCPs were calculated, which
      of the enqueued jobs have not notified yet, whether the anonymous handle is held, and whether any
      part or any LCP calculation came up twice. */
  datatype State = State(
    ss: seq<Frame>, ssPop: nat, ms: seq<Frame>, msPop: nat, pc: Pc, working: nat,
    isSs: seq<bool>, log: map<(nat, nat), How>, lcps: set<nat>, open: set<(nat, nat)>, handle: bool,
    twice: bool, twiceLcp: bool)

  /** What a step of the job does to its parts. */
  datatype Event =
    | Tau | First(ss: bool) | Nothing | Deal(f: nat, j: nat, how: How, ss: bool) | Lcp(f: nat)
    | Returned(f: nat, j: nat) | Leave

  ghost predicate Init(s: State) {
    s == State([], 0, [], 0, Begin, 0, [], map[], {}, {}, false, false, false)
  }

  /** Buckets of a sample sort step, or smaller, equal and larger part. */
  function Parts(k: nat, ss: bool): nat {
    if ss then k else 3
  }

  function Stack(s: State, ss: bool): seq<Frame> {
    if ss then s.ss else s.ms
  }

  function Popped(s: State, ss: bool): nat {
    if ss then s.ssPop else s.msPop
  }

  function WithStack(s: State, ss: bool, st: seq<Frame>): State {
    if ss then s.(ss := st) else s.(ms := st)
  }

  function WithPopped(s: State, ss: bool, n: nat): State {
    if ss then s.(ssPop := n) else s.(msPop := n)
  }

  /** A new step on top of its stack. */
  function New(s: State, ss: bool): State {
    WithStack(s, ss, Stack(s, ss) + [Frame(|s.isSs|, 0)]).(isSs := s.isSs + [ss])
  }

  /** Part j of step f is dealt with; an enqueued job is counted before it is enqueued. */
  function Logged(s: State, f: nat, j: nat, how: How): State {
    s.(log := s.log[(f, j) := how], twice := s.twice || (f, j) in s.log,
       open := if how == Given then s.open + {(f, j)} else s.open,
       working := if how == Given then s.working + 1 else s.working)
  }

  /** The step at position p of a stack goes on to its next part. */
  function Advanced(s: State, ss: bool, p: nat): State
    requires p < |Stack(s, ss)|
  {
    var st := Stack(s, ss);
    WithStack(s, ss, st[p := Frame(st[p].id, st[p].idx + 1)])
  }

  /** The part at the index of the step at position p. */
  function DealtAt(s: State, ss: bool, p: nat, how: How): State
    requires p < |Stack(s, ss)|
  {
    var fr := Stack(s, ss)[p];
    Logged(Advanced(s, ss, p), fr.id, fr.idx, how)
  }

  /** The step on top of a stack has its LCPs calculated and is gone. */
  function TopClosed(s: State, ss: bool): State
    requires Stack(s, ss) != []
  {
    var st := Stack(s, ss);
    var f := st[|st| - 1].id;
    WithStack(s, ss, st[..|st| - 1]).(lcps := s.lcps + {f}, twiceLcp := s.twiceLcp || f in s.lcps)
  }

  ghost predicate Active(s: State, ss: bool) {
    |Stack(s, ss)| > Popped(s, ss)
  }

  // ---- steps of the job -------------------------------------------------------------------

  /** run: the anonymous handle, then one of the algorithms, or nothing but insertion sort. The parallel
      step is a job that gives all its buckets away at once. */
  ghost predicate Start(s: State, s': State, e: Event) {
    && s.pc == Begin
    && var s0 := s.(handle := true, working := s.working + 1);
       || (e == First(true) && (s' == New(s0, true).(pc := SsLoop) || s' == New(s0, true).(pc := Freeing(true, 0, ToSs))))
       || (e == First(false) && s' == New(s0, false).(pc := MsLoop(false)))
       || (e == Nothing && s' == s0.(pc := RunEnded))
  }

  function PollPc(pc: Pc): Pc {
    match pc
    case MsLoop(nested) => MsPoll(nested)
    case _ => SsPoll
  }

  /** One round of either loop: the next part of the top step is sorted on the spot or becomes a step,
      which below quicksort is quicksort; or the step is complete. */
  ghost predicate Round(k: nat, s: State, s': State, ss: bool, e: Event) {
    && (if ss then s.pc == SsLoop else s.pc.MsLoop?) && Active(s, ss)
    && var p := |Stack(s, ss)| - 1;
       var f, i := Stack(s, ss)[p].id, Stack(s, ss)[p].idx;
       if i < Parts(k, ss) then
         || (e == Deal(f, i, Local, false) && s' == DealtAt(s, ss, p, Local).(pc := PollPc(s.pc)))
         || (e.Deal? && e == Deal(f, i, Pushed(|s.isSs|), e.ss) && (e.ss ==> ss)
             && s' == New(DealtAt(s, ss, p, Pushed(|s.isSs|)), e.ss).(pc := if ss && !e.ss then MsLoop(true) else PollPc(s.pc)))
       else e == Lcp(f) && s' == TopClosed(s, ss).(pc := PollPc(s.pc))
  }

  ghost predicate Exit(s: State, s': State, e: Event) {
    && e == Tau && (s.pc == SsLoop || s.pc.MsLoop?) && !Active(s, s.pc == SsLoop)
    && s' == s.(pc := if s.pc.MsLoop? && s.pc.nested then SsPoll else RunEnded)
  }

  function BackPc(back: Back): Pc {
    match back
    case ToSs => SsLoop
    case ToMs(nested) => MsLoop(nested)
  }

  function BackOf(pc: Pc): Back {
    match pc
    case MsPoll(nested) => ToMs(nested)
    case _ => ToSs
  }

  /** Whether a worker is idle is up to the others. Sample sort steps are given away first. */
  ghost predicate Poll(s: State, s': State, e: Event) {
    && e == Tau && (s.pc.SsPoll? || s.pc.MsPoll?)
    && (s' == s.(pc := BackPc(BackOf(s.pc)))
        || s' == s.(pc := if Active(s, true) then Freeing(true, 0, BackOf(s.pc)) else Freeing(false, 8, BackOf(s.pc))))
  }

  /** The next part of the bottom step is enqueued, or dealt with on the spot if there is nothing to sort. */
  ghost predicate FreePart(k: nat, s: State, s': State, e: Event) {
    && s.pc.Freeing? && Active(s, s.pc.ss) && (s.pc.ss || s.pc.left > 0)
    && var p := Popped(s, s.pc.ss);
       var fr := Stack(s, s.pc.ss)[p];
       && fr.idx < Parts(k, s.pc.ss) && e.Deal? && (e.how == Local || e.how == Given)
       && e == Deal(fr.id, fr.idx, e.how, false) && s' == DealtAt(s, s.pc.ss, p, e.how)
  }

  /** The bottom step has nothing left and is popped at the front; up to eight quicksort steps. */
  ghost predicate FreePop(k: nat, s: State, s': State, e: Event) {
    && e == Tau && s.pc.Freeing?
    && var ss, p := s.pc.ss, Popped(s, s.pc.ss);
       if !Active(s, ss) || (!ss && s.pc.left == 0) then s' == s.(pc := BackPc(s.pc.back))
       else
         && Stack(s, ss)[p].idx >= Parts(k, ss)
         && s' == WithPopped(s, ss, p + 1).(pc := if ss then BackPc(s.pc.back) else Freeing(false, s.pc.left - 1, s.pc.back))
  }

  /** substep_notify_done for the anonymous handle. */
  ghost predicate Release(s: State, s': State, e: Event) {
    && e == Tau && s.pc == RunEnded && s.working > 0
    && s' == s.(handle := false, working := s.working - 1, pc := if s.working - 1 == 0 then Closing else Released)
  }

  /** substep_notify_done by an enqueued job; whoever reaches zero executes substep_all_done. */
  ghost predicate Return(s: State, s': State, e: Event) {
    && e.Returned? && (e.f, e.j) in s.open && s.working > 0
    && s' == s.(open := s.open - {(e.f, e.j)}, working := s.working - 1, pc := if s.working - 1 == 0 then Closing else s.pc)
  }

  /** substep_all_done: the steps popped at the front, quicksort before sample sort, top to bottom. */
  ghost predicate Close(s: State, s': State, e: Event) {
    && s.pc == Closing && s.msPop <= |s.ms| && s.ssPop <= |s.ss|
    && if s.msPop > 0 then
         e == Lcp(s.ms[s.msPop - 1].id) && s' == TopClosed(s.(ms := s.ms[..s.msPop]), false).(msPop := s.msPop - 1)
       else if s.ssPop > 0 then
         e == Lcp(s.ss[s.ssPop - 1].id) && s' == TopClosed(s.(ss := s.ss[..s.ssPop]), true).(ssPop := s.ssPop - 1)
       else e == Tau && s' == s.(pc := Closed)
  }

  /** The parent step is notified and the job deleted. */
  ghost predicate Gone(s: State, s': State, e: Event) {
    e == Leave && s.pc == Closed && s' == s.(pc := Finished)
  }

  ghost predicate Step(k: nat, s: State, s': State, e: Event) {
    || Start(s, s', e) || Round(k, s, s', true, e) || Round(k, s, s', false, e) || Exit(s, s', e) || Poll(s, s', e)
    || FreePart(k, s, s', e) || FreePop(k, s, s', e) || Release(s, s', e) || Return(s, s', e) || Close(s, s', e) || Gone(s, s', e)
  }

  ghost predicate SomeStep(k: nat, s: State, s': State) {
    exists e :: Step(k, s, s', e)
  }

  ghost predicate Run(k: nat, run: seq<State>) {
    && run != [] && Init(run[0])
    && forall i, j :: 0 <= i < |run| && j == i + 1 && j < |run| ==> SomeStep(k, run[i], run[j])
  }

  // ---- invariant ---------------------------------------------------------------------------

  /** A step on a stack: exactly the parts in front of its index have been dealt with, and none was
      given away unless it is, or is about to be, popped at the front. */
  ghost predicate FrameOk(k: nat, s: State, fr: Frame, ss: bool, given: bool) {
    && fr.id < |s.isSs| && s.isSs[fr.id] == ss && fr.id !in s.lcps && fr.idx <= Parts(k, ss)
    && (forall j: nat :: (fr.id, j) in s.log <==> j < fr.idx)
    && (!given ==> forall j: nat :: (fr.id, j) in s.log ==> s.log[(fr.id, j)] != Given)
  }

  /** Only the lowest lim steps may have given parts away. */
  ghost predicate StackOk(k: nat, s: State, ss: bool, lim: nat) {
    && Popped(s, ss) <= |Stack(s, ss)|
    && (forall x :: 0 <= x < |Stack(s, ss)| ==> FrameOk(k, s, Stack(s, ss)[x], ss, x < lim))
    && (forall x :: 0 <= x < Popped(s, ss) ==> Stack(s, ss)[x].idx >= Parts(k, ss))
    && (forall x, y :: 0 <= x < y < |Stack(s, ss)| ==> Stack(s, ss)[x].id < Stack(s, ss)[y].id)
  }

  predicate On(st: seq<Frame>, f: nat) {
    exists x :: 0 <= x < |st| && st[x].id == f
  }

  /** Every step is on its stack or has its LCPs, and then all its parts have been dealt with. */
  ghost predicate StepOk(k: nat, s: State, f: nat)
    requires f < |s.isSs|
  {
    && (f in s.lcps || On(Stack(s, s.isSs[f]), f))
    && (f in s.lcps ==> forall j: nat :: j < Parts(k, s.isSs[f]) ==> (f, j) in s.log)
  }

  /** Only existing parts are dealt with; what is pushed comes later, and below quicksort only quicksort. */
  ghost predicate LogOk(k: nat, s: State) {
    && (forall f: nat, j: nat :: (f, j) in s.log ==>
          && f < |s.isSs| && j < Parts(k, s.isSs[f])
          && (s.log[(f, j)].Pushed? ==>
                f < s.log[(f, j)].child < |s.isSs| && (s.isSs[s.log[(f, j)].child] ==> s.isSs[f])))
    && (forall p :: p in s.open ==> p in s.log && s.log[p] == Given)
  }

  ghost predicate Core(k: nat, s: State, ls: nat, lm: nat) {
    && !s.twice && !s.twiceLcp && LogOk(k, s) && (forall f :: f in s.lcps ==> f < |s.isSs|)
    && StackOk(k, s, true, ls) && StackOk(k, s, false, lm)
    && (s.msPop > 0 ==> |s.ss| == s.ssPop)
    && (forall f :: 0 <= f < |s.isSs| ==> StepOk(k, s, f))
    && s.working == |s.open| + (if s.handle then 1 else 0)
  }

  ghost predicate PcOk(s: State) {
    match s.pc
    case Begin => s.ss == [] && s.ms == [] && s.ssPop == s.msPop == 0 && s.isSs == [] && s.log == map[] && s.open == {} && !s.handle
    case SsLoop => |s.ms| == s.msPop && s.handle
    case SsPoll => |s.ms| == s.msPop && s.handle
    case MsLoop(nested) => (nested || s.ss == []) && s.handle
    case MsPoll(nested) => (nested || s.ss == []) && s.handle
    case Freeing(ss, left, back) => s.handle && (if ss then Active(s, true) else |s.ss| == s.ssPop) && PcOkBack(s, back)
    case RunEnded => |s.ms| == s.msPop && |s.ss| == s.ssPop && s.handle
    case Released => |s.ms| == s.msPop && |s.ss| == s.ssPop && !s.handle && s.open != {}
    case Closing => |s.ms| == s.msPop && |s.ss| == s.ssPop && !s.handle && s.open == {}
    case Closed => s.ms == [] && s.ss == [] && !s.handle && s.open == {}
    case Finished => s.ms == [] && s.ss == [] && !s.handle && s.open == {}
  }

  ghost predicate PcOkBack(s: State, back: Back) {
    match back
    case ToSs => |s.ms| == s.msPop
    case ToMs(nested) => nested || s.ss == []
  }

  function Lim(s: State, ss: bool): nat {
    Popped(s, ss) + (if s.pc.Freeing? && s.pc.ss == ss && (ss || s.pc.left > 0) then 1 else 0)
  }

  ghost predicate Inv(k: nat, s: State) {
    Core(k, s, Lim(s, true), Lim(s, false)) && PcOk(s)
  }

  // ---- one part is dealt with -------------------------------------------------------------------

  lemma FrameElsewhere(k: nat, s: State, s': State, fr: Frame, ss: bool, given: bool, f: nat, j: nat, how: How)
    requires FrameOk(k, s, fr, ss, given) && fr.id != f
    requires s'.isSs == s.isSs && s'.lcps == s.lcps && s'.log == s.log[(f, j) := how]
    ensures FrameOk(k, s', fr, ss, given)
  {
  }

  lemma FrameAdvanced(k: nat, s: State, s': State, fr: Frame, ss: bool, given: bool, how: How)
    requires FrameOk(k, s, fr, ss, given) && fr.idx < Parts(k, ss) && (how == Given ==> given)
    requires s'.isSs == s.isSs && s'.lcps == s.lcps && s'.log == s.log[(fr.id, fr.idx) := how]
    ensures FrameOk(k, s', Frame(fr.id, fr.idx + 1), ss, given)
  {
  }

  /** A step on one stack is not on the other. */
  lemma OtherStack(k: nat, s: State, ss: bool, l: nat, m: nat, x: nat, y: nat)
    requires StackOk(k, s, ss, l) && StackOk(k, s, !ss, m) && x < |Stack(s, ss)| && y < |Stack(s, !ss)|
    ensures Stack(s, ss)[x].id != Stack(s, !ss)[y].id
  {
    assert FrameOk(k, s, Stack(s, ss)[x], ss, x < l);
    assert FrameOk(k, s, Stack(s, !ss)[y], !ss, y < m);
  }

  lemma DealOwn(k: nat, s: State, ss: bool, l: nat, p: nat, how: How)
    requires StackOk(k, s, ss, l) && p < |Stack(s, ss)| && Stack(s, ss)[p].idx < Parts(k, ss) && (how == Given ==> p < l)
    ensures StackOk(k, DealtAt(s, ss, p, how), ss, l)
  {
    var st, s' := Stack(s, ss), DealtAt(s, ss, p, how);
    var st' := Stack(s', ss);
    assert st' == st[p := Frame(st[p].id, st[p].idx + 1)];
    hide FrameOk;
    forall x | 0 <= x < |st'| ensures FrameOk(k, s', st'[x], ss, x < l) {
      assert FrameOk(k, s, st[x], ss, x < l);
      if x == p {
        FrameAdvanced(k, s, s', st[p], ss, p < l, how);
      } else {
        assert st[if x < p then x else p].id < st[if x < p then p else x].id;
        FrameElsewhere(k, s, s', st[x], ss, x < l, st[p].id, st[p].idx, how);
      }
    }
  }

  lemma DealOther(k: nat, s: State, ss: bool, l: nat, m: nat, p: nat, how: How)
    requires StackOk(k, s, ss, l) && StackOk(k, s, !ss, m) && p < |Stack(s, ss)|
    ensures StackOk(k, DealtAt(s, ss, p, how), !ss, m)
  {
    var s' := DealtAt(s, ss, p, how);
    var other := Stack(s', !ss);
    hide FrameOk;
    forall y | 0 <= y < |other| ensures FrameOk(k, s', other[y], !ss, y < m) {
      assert FrameOk(k, s, Stack(s, !ss)[y], !ss, y < m);
      OtherStack(k, s, ss, l, m, p, y);
      FrameElsewhere(k, s, s', other[y], !ss, y < m, Stack(s, ss)[p].id, Stack(s, ss)[p].idx, how);
    }
  }

  lemma StaysOn(st: seq<Frame>, p: nat, fr: Frame, f: nat)
    requires p < |st| && fr.id == st[p].id && On(st, f)
    ensures On(st[p := fr], f)
  {
    var x :| 0 <= x < |st| && st[x].id == f;
    assert st[p := fr][x].id == f;
  }

  lemma DealSteps(k: nat, s: State, ss: bool, p: nat, how: How, f: nat)
    requires p < |Stack(s, ss)| && f < |s.isSs| && StepOk(k, s, f)
    ensures StepOk(k, DealtAt(s, ss, p, how), f)
  {
    var st := Stack(s, ss);
    if s.isSs[f] == ss && On(st, f) { StaysOn(st, p, Frame(st[p].id, st[p].idx + 1), f); }
  }

  /** What the frame says of the part about to be dealt with. */
  lemma FrontFresh(k: nat, s: State, ss: bool, l: nat, p: nat)
    requires StackOk(k, s, ss, l) && p < |Stack(s, ss)| && Stack(s, ss)[p].idx < Parts(k, ss)
    ensures var fr := Stack(s, ss)[p];
            fr.id < |s.isSs| && s.isSs[fr.id] == ss && (fr.id, fr.idx) !in s.log && fr.id !in s.lcps
  {
    assert FrameOk(k, s, Stack(s, ss)[p], ss, p < l);
  }

  lemma DealLog(k: nat, s: State, f: nat, j: nat, how: How)
    requires LogOk(k, s) && f < |s.isSs| && j < Parts(k, s.isSs[f]) && (f, j) !in s.log && !how.Pushed?
    ensures LogOk(k, Logged(s, f, j, how))
  {
  }

  lemma LogSame(k: nat, s: State, s': State)
    requires LogOk(k, s) && s'.log == s.log && s'.isSs == s.isSs && s'.open <= s.open
    ensures LogOk(k, s')
  {
  }

  /** On the spot, or enqueued. */
  lemma DealCore(k: nat, s: State, ls: nat, lm: nat, ss: bool, p: nat, how: How)
    requires Core(k, s, ls, lm) && p < |Stack(s, ss)| && Stack(s, ss)[p].idx < Parts(k, ss) && !how.Pushed?
    requires how == Given ==> p < if ss then ls else lm
    ensures Core(k, DealtAt(s, ss, p, how), ls, lm)
  {
    var s', fr := DealtAt(s, ss, p, how), Stack(s, ss)[p];
    var l, m := if ss then ls else lm, if ss then lm else ls;
    FrontFresh(k, s, ss, l, p);
    DealOwn(k, s, ss, l, p, how);
    DealOther(k, s, ss, l, m, p, how);
    LogSame(k, s, Advanced(s, ss, p));
    DealLog(k, Advanced(s, ss, p), fr.id, fr.idx, how);
    assert (fr.id, fr.idx) !in s.open;
    forall f | 0 <= f < |s.isSs| ensures StepOk(k, s', f) { DealSteps(k, s, ss, p, how, f); }
    hide StackOk, StepOk, LogOk;
    assert StackOk(k, s', ss, l) && StackOk(k, s', !ss, m);
  }

  // ---- a part becomes a step --------------------------------------------------------------------

  /** By number behind all others. */
  lemma NewStack(k: nat, s: State, ss: bool, kind: bool, l: nat)
    requires StackOk(k, s, ss, l) && l <= |Stack(s, ss)|
    requires forall f :: f in s.lcps ==> f < |s.isSs|
    requires forall j: nat :: (|s.isSs|, j) !in s.log
    ensures StackOk(k, New(s, kind), ss, l)
  {
    var s' := New(s, kind);
    var st, st' := Stack(s, ss), Stack(s', ss);
    forall x | 0 <= x < |st'| ensures FrameOk(k, s', st'[x], ss, x < l) {
      if x < |st| { assert FrameOk(k, s, st[x], ss, x < l); }
    }
    forall x, y | 0 <= x < y < |st'| ensures st'[x].id < st'[y].id {
      assert FrameOk(k, s, st[x], ss, x < l);
    }
  }

  lemma NewSteps(k: nat, s: State, kind: bool, f: nat)
    requires f <= |s.isSs| && (f < |s.isSs| ==> StepOk(k, s, f)) && (f in s.lcps ==> f < |s.isSs|)
    ensures StepOk(k, New(s, kind), f)
  {
    var s' := New(s, kind);
    if f == |s.isSs| {
      assert Stack(s', kind)[|Stack(s, kind)|].id == f;
    } else {
      var st, st' := Stack(s, s.isSs[f]), Stack(s', s.isSs[f]);
      if On(st, f) {
        var x :| 0 <= x < |st| && st[x].id == f;
        assert st'[x].id == f;
      }
    }
  }

  lemma NewLog(k: nat, s: State, f: nat, j: nat, kind: bool)
    requires LogOk(k, s) && f < |s.isSs| && j < Parts(k, s.isSs[f]) && (f, j) !in s.log && (kind ==> s.isSs[f])
    ensures LogOk(k, New(Logged(s, f, j, Pushed(|s.isSs|)), kind))
  {
  }

  lemma NoSuchStep(k: nat, s: State)
    requires LogOk(k, s)
    ensures forall j: nat :: (|s.isSs|, j) !in s.log
  {
  }

  /** The limits do not reach the top of a stack that is at work. */
  ghost predicate LimsFit(s: State, ls: nat, lm: nat) {
    ls <= |s.ss| && lm <= |s.ms|
  }

  lemma PushStacks(k: nat, s: State, ss: bool, l: nat, m: nat, p: nat, kind: bool)
    requires StackOk(k, s, ss, l) && StackOk(k, s, !ss, m) && l <= |Stack(s, ss)| && m <= |Stack(s, !ss)|
    requires p < |Stack(s, ss)| && Stack(s, ss)[p].idx < Parts(k, ss) && LogOk(k, s)
    requires forall f :: f in s.lcps ==> f < |s.isSs|
    ensures var s' := New(DealtAt(s, ss, p, Pushed(|s.isSs|)), kind); StackOk(k, s', ss, l) && StackOk(k, s', !ss, m)
  {
    FrontFresh(k, s, ss, l, p);
    DealOwn(k, s, ss, l, p, Pushed(|s.isSs|));
    DealOther(k, s, ss, l, m, p, Pushed(|s.isSs|));
    NoSuchStep(k, s);
    var s1 := DealtAt(s, ss, p, Pushed(|s.isSs|));
    assert |Stack(s1, ss)| == |Stack(s, ss)| && |Stack(s1, !ss)| == |Stack(s, !ss)|;
    hide StackOk, LogOk, New;
    NewStack(k, s1, ss, kind, l);
    NewStack(k, s1, !ss, kind, m);
  }

  lemma PushSteps(k: nat, s: State, ss: bool, p: nat, kind: bool)
    requires p < |Stack(s, ss)| && (forall f :: 0 <= f < |s.isSs| ==> StepOk(k, s, f)) && (forall f :: f in s.lcps ==> f < |s.isSs|)
    ensures var s' := New(DealtAt(s, ss, p, Pushed(|s.isSs|)), kind);
            |s'.isSs| == |s.isSs| + 1 && forall f :: 0 <= f < |s'.isSs| ==> StepOk(k, s', f)
  {
    var s1 := DealtAt(s, ss, p, Pushed(|s.isSs|));
    var s' := New(s1, kind);
    assert s1.isSs == s.isSs && s1.lcps == s.lcps && |s'.isSs| == |s.isSs| + 1;
    hide StepOk, DealtAt, New;
    forall f | 0 <= f < |s'.isSs| ensures StepOk(k, s', f) {
      if f < |s.isSs| { DealSteps(k, s, ss, p, Pushed(|s.isSs|), f); }
      NewSteps(k, s1, kind, f);
    }
  }

  lemma PushLog(k: nat, s: State, ss: bool, l: nat, p: nat, kind: bool)
    requires LogOk(k, s) && StackOk(k, s, ss, l) && p < |Stack(s, ss)| && Stack(s, ss)[p].idx < Parts(k, ss) && (kind ==> ss)
    ensures LogOk(k, New(DealtAt(s, ss, p, Pushed(|s.isSs|)), kind)) && (Stack(s, ss)[p].id, Stack(s, ss)[p].idx) !in s.log
  {
    FrontFresh(k, s, ss, l, p);
    var fr, s1 := Stack(s, ss)[p], Advanced(s, ss, p);
    LogSame(k, s, s1);
    hide StackOk;
    NewLog(k, s1, fr.id, fr.idx, kind);
    LogSame(k, New(Logged(s1, fr.id, fr.idx, Pushed(|s.isSs|)), kind), New(DealtAt(s, ss, p, Pushed(|s.isSs|)), kind));
  }

  lemma PushCore(k: nat, s: State, ls: nat, lm: nat, ss: bool, p: nat, kind: bool)
    requires Core(k, s, ls, lm) && LimsFit(s, ls, lm) && p < |Stack(s, ss)| && Stack(s, ss)[p].idx < Parts(k, ss)
    requires (kind ==> ss) && (kind ==> s.msPop == 0)
    ensures Core(k, New(DealtAt(s, ss, p, Pushed(|s.isSs|)), kind), ls, lm)
  {
    hide StackOk, StepOk, LogOk;
    var s' := New(DealtAt(s, ss, p, Pushed(|s.isSs|)), kind);
    var l, m := if ss then ls else lm, if ss then lm else ls;
    PushStacks(k, s, ss, l, m, p, kind);
    PushSteps(k, s, ss, p, kind);
    PushLog(k, s, ss, l, p, kind);
    assert StackOk(k, s', ss, l) && StackOk(k, s', !ss, m);
  }

  /** The first step. */
  lemma FirstCore(k: nat, s: State, kind: bool)
    requires Core(k, s, 0, 0) && s.isSs == [] && s.ss == [] && s.ms == [] && s.log == map[] && s.open == {} && !s.handle
    ensures Core(k, New(s.(handle := true, working := s.working + 1), kind), 0, 0)
  {
    var s0 := s.(handle := true, working := s.working + 1);
    var s' := New(s0, kind);
    FirstStack(k, s0, true, kind);
    FirstStack(k, s0, false, kind);
    assert StepOk(k, s', 0) by { assert Stack(s', kind)[0].id == 0; }
    LogSame(k, New(s, kind), s');
    hide StackOk, StepOk, LogOk;
  }

  lemma FirstStack(k: nat, s: State, ss: bool, kind: bool)
    requires StackOk(k, s, ss, 0) && Stack(s, ss) == [] && s.isSs == [] && s.log == map[] && s.lcps == {}
    ensures StackOk(k, New(s, kind), ss, 0)
  {
  }

  // ---- a step is complete ----------------------------------------------------------------------------

  /** Every part was sorted by this job, has become a step that is complete, or was given to a job
      that is complete. */
  ghost predicate PartsReady(k: nat, s: State, f: nat) {
    && f < |s.isSs|
    && forall j: nat :: j < Parts(k, s.isSs[f]) ==>
         && (f, j) in s.log
         && match s.log[(f, j)] {
              case Local => true
              case Pushed(c) => c in s.lcps
              case Given => (f, j) !in s.open
            }
  }

  lemma NotAboveTop(k: nat, s: State, ss: bool, l: nat, c: nat)
    requires StackOk(k, s, ss, l) && Stack(s, ss) != [] && (ss ==> s.ms == []) && c < |s.isSs| && c !in s.lcps
    requires s.isSs[c] ==> ss
    requires StepOk(k, s, c)
    requires s.isSs[c] != ss ==> Stack(s, s.isSs[c]) == []
    ensures c <= Stack(s, ss)[|Stack(s, ss)| - 1].id
  {
    hide FrameOk;
    var st := Stack(s, s.isSs[c]);
    var x :| 0 <= x < |st| && st[x].id == c;
    assert x < |st| - 1 ==> st[x].id < st[|st| - 1].id;
  }

  /** The step on top of a stack with all parts dealt with: its LCPs may be calculated. */
  lemma TopReady(k: nat, s: State, ls: nat, lm: nat, ss: bool)
    requires Core(k, s, ls, lm) && Stack(s, ss) != [] && (ss ==> s.ms == [])
    requires Stack(s, ss)[|Stack(s, ss)| - 1].idx >= Parts(k, ss)
    requires |Stack(s, ss)| > (if ss then ls else lm) || s.open == {}
    ensures var f := Stack(s, ss)[|Stack(s, ss)| - 1].id; PartsReady(k, s, f) && f !in s.lcps
  {
    var n, l := |Stack(s, ss)| - 1, if ss then ls else lm;
    var fr := Stack(s, ss)[n];
    assert FrameOk(k, s, fr, ss, n < l);
    forall j: nat | j < Parts(k, ss)
      ensures (fr.id, j) in s.log
      ensures s.log[(fr.id, j)] == Given ==> (fr.id, j) !in s.open
      ensures s.log[(fr.id, j)].Pushed? ==> s.log[(fr.id, j)].child in s.lcps
    {
      if s.log[(fr.id, j)].Pushed? {
        var c := s.log[(fr.id, j)].child;
        assert StepOk(k, s, c);
        if c !in s.lcps { NotAboveTop(k, s, ss, l, c); }
      }
    }
  }

  lemma ClosedFrames(k: nat, s: State, ss: bool, l: nat)
    requires StackOk(k, s, ss, l) && |Stack(s, ss)| > Popped(s, ss)
    ensures StackOk(k, TopClosed(s, ss), ss, l)
  {
    var s', st := TopClosed(s, ss), Stack(s, ss);
    var n := |st| - 1;
    forall x | 0 <= x < n ensures FrameOk(k, s', st[x], ss, x < l) {
      assert FrameOk(k, s, st[x], ss, x < l);
      assert st[x].id < st[n].id;
    }
  }

  lemma ClosedOther(k: nat, s: State, ss: bool, l: nat, m: nat)
    requires StackOk(k, s, ss, l) && StackOk(k, s, !ss, m) && Stack(s, ss) != []
    ensures StackOk(k, TopClosed(s, ss), !ss, m)
  {
    var s', other := TopClosed(s, ss), Stack(s, !ss);
    forall y | 0 <= y < |other| ensures FrameOk(k, s', other[y], !ss, y < m) {
      assert FrameOk(k, s, other[y], !ss, y < m);
      OtherStack(k, s, ss, l, m, |Stack(s, ss)| - 1, y);
    }
  }

  lemma ClosedSteps(k: nat, s: State, ss: bool, g: nat)
    requires Stack(s, ss) != [] && g < |s.isSs| && StepOk(k, s, g)
    requires g == Stack(s, ss)[|Stack(s, ss)| - 1].id ==> forall j: nat :: j < Parts(k, s.isSs[g]) ==> (g, j) in s.log
    ensures StepOk(k, TopClosed(s, ss), g)
  {
    var st, s' := Stack(s, ss), TopClosed(s, ss);
    if s.isSs[g] == ss && On(st, g) {
      var x :| 0 <= x < |st| && st[x].id == g;
      assert x < |st| - 1 ==> Stack(s', ss)[x].id == g;
    }
  }

  lemma CloseCore(k: nat, s: State, ls: nat, lm: nat, ss: bool)
    requires Core(k, s, ls, lm) && Active(s, ss) && (ss ==> s.msPop == 0)
    requires Stack(s, ss)[|Stack(s, ss)| - 1].idx >= Parts(k, ss)
    ensures Core(k, TopClosed(s, ss), ls, lm)
  {
    var s', fr := TopClosed(s, ss), Stack(s, ss)[|Stack(s, ss)| - 1];
    var l, m := if ss then ls else lm, if ss then lm else ls;
    assert FrameOk(k, s, fr, ss, |Stack(s, ss)| - 1 < l);
    ClosedFrames(k, s, ss, l);
    ClosedOther(k, s, ss, l, m);
    LogSame(k, s, s');
    forall g | 0 <= g < |s.isSs| ensures StepOk(k, s', g) { ClosedSteps(k, s, ss, g); }
    hide StackOk, StepOk, LogOk, FrameOk;
    assert StackOk(k, s', ss, l) && StackOk(k, s', !ss, m);
  }

  // ---- other changes ----------------------------------------------------------------------------------

  lemma StackSame(k: nat, s: State, s': State, ss: bool, l: nat, l': nat)
    requires StackOk(k, s, ss, l) && l <= l'
    requires s'.isSs == s.isSs && s'.lcps == s.lcps && s'.log == s.log && Stack(s', ss) == Stack(s, ss)
    requires Popped(s', ss) <= |Stack(s, ss)|
    requires forall x :: 0 <= x < Popped(s', ss) ==> Stack(s, ss)[x].idx >= Parts(k, ss)
    ensures StackOk(k, s', ss, l')
  {
    var st := Stack(s, ss);
    forall x | 0 <= x < |st| ensures FrameOk(k, s', st[x], ss, x < l') {
      assert FrameOk(k, s, st[x], ss, x < l);
    }
  }

  /** Neither stacks nor parts change; more steps may have given parts away, fewer jobs may be open. */
  lemma SameCore(k: nat, s: State, s': State, ls: nat, lm: nat, ls': nat, lm': nat)
    requires Core(k, s, ls, lm) && ls <= ls' && lm <= lm'
    requires s'.isSs == s.isSs && s'.lcps == s.lcps && s'.log == s.log && s'.ss == s.ss && s'.ms == s.ms
    requires s'.open <= s.open && s'.working == |s'.open| + (if s'.handle then 1 else 0)
    requires s'.twice == s.twice && s'.twiceLcp == s.twiceLcp
    requires s'.ssPop == s.ssPop || (s'.ssPop == s.ssPop + 1 <= |s.ss| && s.ss[s.ssPop].idx >= k)
    requires s'.msPop == s.msPop || (s'.msPop == s.msPop + 1 <= |s.ms| && s.ms[s.msPop].idx >= 3)
    requires s'.msPop > 0 ==> |s.ss| == s'.ssPop
    ensures Core(k, s', ls', lm')
  {
    StackSame(k, s, s', true, ls, ls');
    StackSame(k, s, s', false, lm, lm');
    LogSame(k, s, s');
    forall f | 0 <= f < |s.isSs| ensures StepOk(k, s', f) { assert StepOk(k, s, f); }
    hide StackOk, StepOk, LogOk;
  }

  // ---- every step keeps the invariant ------------------------------------------------------------

  lemma StartInv(k: nat, s: State, s': State, e: Event)
    requires Inv(k, s) && Start(s, s', e)
    ensures Inv(k, s')
  {
    hide Core;
    var s0 := s.(handle := true, working := s.working + 1);
    if e == Nothing {
      SameAll(k, s, s0, 0, 0);
      LimUp(k, s0, s', 0, 0);
    } else {
      NoSteps(k, s);
      FirstCore(k, s, e.ss);
      LimUp(k, New(s0, e.ss), s', 0, 0);
    }
  }

  lemma NoSteps(k: nat, s: State)
    requires Core(k, s, Lim(s, true), Lim(s, false)) && s.pc == Begin && PcOk(s)
    ensures Core(k, s, 0, 0)
  {
    hide StackOk, StepOk, LogOk;
  }

  lemma SameAll(k: nat, s: State, s': State, ls: nat, lm: nat)
    requires Core(k, s, ls, lm) && s' == s.(handle := true, working := s.working + 1) && !s.handle
    ensures Core(k, s', ls, lm)
  {
    hide StackOk, StepOk, LogOk;
    assert s.msPop > 0 ==> |s.ss| == s.ssPop;
    SameCore(k, s, s', ls, lm, ls, lm);
  }

  /** Another place in the program, with at least as much given away. */
  lemma LimUp(k: nat, s: State, s': State, ls: nat, lm: nat)
    requires Core(k, s, ls, lm) && s' == s.(pc := s'.pc) && ls <= Lim(s', true) && lm <= Lim(s', false)
    ensures Core(k, s', Lim(s', true), Lim(s', false))
  {
    hide StackOk, StepOk, LogOk;
    SameCore(k, s, s', ls, lm, Lim(s', true), Lim(s', false));
  }

  lemma PoppedFits(k: nat, s: State, ls: nat, lm: nat)
    requires Core(k, s, ls, lm)
    ensures s.ssPop <= |s.ss| && s.msPop <= |s.ms| && (s.msPop > 0 ==> |s.ss| == s.ssPop)
  {
  }

  /** The assertions at the entry of sort_mkqs_cache: whoever comes from the sample sort loop finds
      the quicksort stack empty, because quicksort steps are only given away when no sample sort step
      is left. */
  lemma EntryAssertions(k: nat, s: State)
    requires Inv(k, s) && s.pc == SsLoop && Active(s, true)
    ensures s.msPop == 0 && s.ms == []
  {
    PoppedFits(k, s, Lim(s, true), Lim(s, false));
  }

  lemma RoundLooping(k: nat, s: State, s': State, ss: bool, e: Event)
    requires Inv(k, s) && Round(k, s, s', ss, e)
    ensures Looping(s, ss) && Core(k, s, s.ssPop, s.msPop)
  {
    hide Core, DealtAt, New, TopClosed;
    PoppedFits(k, s, Lim(s, true), Lim(s, false));
    if ss { EntryAssertions(k, s); }
  }

  lemma RoundInv(k: nat, s: State, s': State, ss: bool, e: Event)
    requires Inv(k, s) && Round(k, s, s', ss, e)
    ensures Inv(k, s')
  {
    hide Core, Inv, DealtAt, New, TopClosed, PcOk, PollPc, Looping;
    RoundLooping(k, s, s', ss, e);
    if Stack(s, ss)[|Stack(s, ss)| - 1].idx >= Parts(k, ss) {
      RoundClose(k, s, s', ss);
    } else if e.how == Local {
      RoundDeal(k, s, s', ss);
    } else {
      RoundPush(k, s, s', ss, e.ss);
    }
  }

  /** A round is made where the loop is and does not free anything. */
  ghost predicate Looping(s: State, ss: bool) {
    && PcOk(s) && (if ss then s.pc == SsLoop && s.ms == [] && s.msPop == 0 else s.pc.MsLoop?)
    && Active(s, ss) && s.ssPop <= |s.ss| && s.msPop <= |s.ms|
  }

  lemma RoundClose(k: nat, s: State, s': State, ss: bool)
    requires Core(k, s, s.ssPop, s.msPop) && Looping(s, ss) && Stack(s, ss)[|Stack(s, ss)| - 1].idx >= Parts(k, ss)
    requires s' == TopClosed(s, ss).(pc := PollPc(s.pc))
    ensures Inv(k, s')
  {
    hide Core;
    CloseCore(k, s, s.ssPop, s.msPop, ss);
    LimUp(k, TopClosed(s, ss), s', s.ssPop, s.msPop);
  }

  lemma RoundDeal(k: nat, s: State, s': State, ss: bool)
    requires Core(k, s, s.ssPop, s.msPop) && Looping(s, ss) && Stack(s, ss)[|Stack(s, ss)| - 1].idx < Parts(k, ss)
    requires s' == DealtAt(s, ss, |Stack(s, ss)| - 1, Local).(pc := PollPc(s.pc))
    ensures Inv(k, s')
  {
    hide Core;
    DealCore(k, s, s.ssPop, s.msPop, ss, |Stack(s, ss)| - 1, Local);
    LimUp(k, DealtAt(s, ss, |Stack(s, ss)| - 1, Local), s', s.ssPop, s.msPop);
  }

  lemma RoundPush(k: nat, s: State, s': State, ss: bool, kind: bool)
    requires Core(k, s, s.ssPop, s.msPop) && Looping(s, ss) && Stack(s, ss)[|Stack(s, ss)| - 1].idx < Parts(k, ss)
    requires kind ==> ss
    requires s' == New(DealtAt(s, ss, |Stack(s, ss)| - 1, Pushed(|s.isSs|)), kind)
                     .(pc := if ss && !kind then MsLoop(true) else PollPc(s.pc))
    ensures Inv(k, s')
  {
    hide Core;
    PushCore(k, s, s.ssPop, s.msPop, ss, |Stack(s, ss)| - 1, kind);
    LimUp(k, New(DealtAt(s, ss, |Stack(s, ss)| - 1, Pushed(|s.isSs|)), kind), s', s.ssPop, s.msPop);
  }

  lemma MoveInv(k: nat, s: State, s': State, e: Event)
    requires Inv(k, s) && (Exit(s, s', e) || Poll(s, s', e))
    ensures Inv(k, s')
  {
    PoppedFits(k, s, Lim(s, true), Lim(s, false));
    hide Core;
    LimUp(k, s, s', Lim(s, true), Lim(s, false));
  }

  lemma FreePartInv(k: nat, s: State, s': State, e: Event)
    requires Inv(k, s) && FreePart(k, s, s', e)
    ensures Inv(k, s')
  {
    var ls, lm := Lim(s, true), Lim(s, false);
    hide Core;
    DealCore(k, s, ls, lm, s.pc.ss, Popped(s, s.pc.ss), e.how);
  }

  lemma NothingFreed(k: nat, s: State, ls: nat, lm: nat)
    requires Core(k, s, ls, lm) && !Active(s, false)
    ensures Core(k, s, ls, s.msPop)
  {
    assert StackOk(k, s, false, s.msPop) by {
      forall x | 0 <= x < |s.ms| ensures FrameOk(k, s, s.ms[x], false, x < s.msPop) {
        assert FrameOk(k, s, s.ms[x], false, x < lm);
        assert x < s.msPop;
      }
    }
    hide StackOk, StepOk, LogOk;
  }

  lemma FreeEnds(k: nat, s: State, s': State, e: Event)
    requires Inv(k, s) && FreePop(k, s, s', e) && (!Active(s, s.pc.ss) || (!s.pc.ss && s.pc.left == 0))
    ensures Inv(k, s')
  {
    hide Core;
    var ls, lm := Lim(s, true), Lim(s, false);
    PoppedFits(k, s, ls, lm);
    if !Active(s, s.pc.ss) { NothingFreed(k, s, ls, lm); }
    LimUp(k, s, s', s.ssPop, s.msPop);
  }

  lemma FreePops(k: nat, s: State, s': State, e: Event)
    requires Inv(k, s) && FreePop(k, s, s', e) && Active(s, s.pc.ss) && (s.pc.ss || s.pc.left > 0)
    ensures Inv(k, s')
  {
    hide StackOk, StepOk, LogOk;
    SameCore(k, s, s', Lim(s, true), Lim(s, false), Lim(s', true), Lim(s', false));
  }

  lemma FreePopInv(k: nat, s: State, s': State, e: Event)
    requires Inv(k, s) && FreePop(k, s, s', e)
    ensures Inv(k, s')
  {
    hide Inv;
    if !Active(s, s.pc.ss) || (!s.pc.ss && s.pc.left == 0) { FreeEnds(k, s, s', e); } else { FreePops(k, s, s', e); }
  }

  lemma ReleaseInv(k: nat, s: State, s': State, e: Event)
    requires Inv(k, s) && Release(s, s', e)
    ensures Inv(k, s')
  {
    hide StackOk, StepOk, LogOk;
    assert |s.open| == 0 ==> s.open == {};
    assert s.msPop > 0 ==> |s.ss| == s.ssPop;
    SameCore(k, s, s', Lim(s, true), Lim(s, false), Lim(s', true), Lim(s', false));
  }

  lemma HandleHeld(s: State)
    requires PcOk(s) && s.open != {}
    ensures s.handle || s.pc == Released
  {
  }

  lemma ReturnInv(k: nat, s: State, s': State, e: Event)
    requires Inv(k, s) && Return(s, s', e)
    ensures Inv(k, s')
  {
    hide StackOk, StepOk, LogOk;
    HandleHeld(s);
    assert |s'.open| == |s.open| - 1;
    assert |s'.open| == 0 <==> s'.open == {};
    assert s.msPop > 0 ==> |s.ss| == s.ssPop;
    SameCore(k, s, s', Lim(s, true), Lim(s, false), Lim(s', true), Lim(s', false));
  }

  lemma LessPopped(k: nat, s: State, ls: nat, lm: nat, ss: bool)
    requires Core(k, s, ls, lm) && Popped(s, ss) > 0 && (ss ==> s.msPop == 0)
    ensures Core(k, WithPopped(s, ss, Popped(s, ss) - 1), ls, lm)
  {
    var s' := WithPopped(s, ss, Popped(s, ss) - 1);
    StackSame(k, s, s', true, ls, ls);
    StackSame(k, s, s', false, lm, lm);
    LogSame(k, s, s');
    forall f | 0 <= f < |s.isSs| ensures StepOk(k, s', f) { assert StepOk(k, s, f); }
    hide StackOk, StepOk, LogOk;
  }

  lemma ClosingTop(k: nat, s: State, ls: nat, lm: nat, ss: bool)
    requires Core(k, s, ls, lm) && Popped(s, ss) == |Stack(s, ss)| > 0
    ensures Stack(s, ss)[|Stack(s, ss)| - 1].idx >= Parts(k, ss)
  {
    hide StepOk, LogOk, FrameOk;
  }

  lemma ClosingInv(k: nat, s: State, s': State, ls: nat, lm: nat, ss: bool)
    requires Core(k, s, ls, lm) && PcOk(s) && s.pc == Closing && ls == s.ssPop && lm == s.msPop
    requires Popped(s, ss) > 0 && (ss ==> s.msPop == 0)
    requires s' == WithPopped(TopClosed(s, ss), ss, Popped(s, ss) - 1)
    ensures Inv(k, s')
  {
    hide Core;
    ClosingTop(k, s, ls, lm, ss);
    LessPopped(k, s, ls, lm, ss);
    var s0 := WithPopped(s, ss, Popped(s, ss) - 1);
    CloseCore(k, s0, ls, lm, ss);
    assert TopClosed(s0, ss) == s';
    TrimLims(k, s', ls, lm);
  }

  lemma TrimLims(k: nat, s: State, ls: nat, lm: nat)
    requires Core(k, s, ls, lm) && |s.ss| == s.ssPop && |s.ms| == s.msPop
    ensures Core(k, s, s.ssPop, s.msPop)
  {
    TrimStack(k, s, true, ls);
    TrimStack(k, s, false, lm);
    hide StackOk, StepOk, LogOk;
  }

  lemma TrimStack(k: nat, s: State, ss: bool, l: nat)
    requires StackOk(k, s, ss, l)
    ensures StackOk(k, s, ss, |Stack(s, ss)|)
  {
    forall x | 0 <= x < |Stack(s, ss)| ensures FrameOk(k, s, Stack(s, ss)[x], ss, true) {
      assert FrameOk(k, s, Stack(s, ss)[x], ss, x < l);
    }
  }

  lemma CloseInv(k: nat, s: State, s': State, e: Event)
    requires Inv(k, s) && Close(s, s', e)
    ensures Inv(k, s')
  {
    hide Core;
    assert s.ms[..|s.ms|] == s.ms && s.ss[..|s.ss|] == s.ss;
    if s.msPop > 0 {
      ClosingInv(k, s, s', s.ssPop, s.msPop, false);
    } else if s.ssPop > 0 {
      ClosingInv(k, s, s', s.ssPop, s.msPop, true);
    } else {
      LimUp(k, s, s', s.ssPop, s.msPop);
    }
  }

  lemma GoneInv(k: nat, s: State, s': State, e: Event)
    requires Inv(k, s) && Gone(s, s', e)
    ensures Inv(k, s')
  {
    hide Core;
    LimUp(k, s, s', Lim(s, true), Lim(s, false));
  }

  lemma StepInv(k: nat, s: State, s': State, e: Event)
    requires Inv(k, s) && Step(k, s, s', e)
    ensures Inv(k, s')
  {
    hide Inv, Start, Round, Exit, Poll, FreePart, FreePop, Release, Return, Close, Gone;
    if Start(s, s', e) { StartInv(k, s, s', e); }
    else if Round(k, s, s', true, e) { RoundInv(k, s, s', true, e); }
    else if Round(k, s, s', false, e) { RoundInv(k, s, s', false, e); }
    else if Exit(s, s', e) || Poll(s, s', e) { MoveInv(k, s, s', e); }
    else if FreePart(k, s, s', e) { FreePartInv(k, s, s', e); }
    else if FreePop(k, s, s', e) { FreePopInv(k, s, s', e); }
    else if Release(s, s', e) { ReleaseInv(k, s, s', e); }
    else if Return(s, s', e) { ReturnInv(k, s, s', e); }
    else if Close(s, s', e) { CloseInv(k, s, s', e); }
    else { GoneInv(k, s, s', e); }
  }

  lemma InitInv(k: nat, s: State)
    requires Init(s)
    ensures Inv(k, s)
  {
  }

  lemma {:induction false} RunInv(k: nat, run: seq<State>, i: nat)
    requires Run(k, run) && i < |run|
    ensures Inv(k, run[i])
    decreases i
  {
    hide Inv, Step, Init;
    if i == 0 {
      InitInv(k, run[0]);
    } else {
      RunInv(k, run, i - 1);
      assert SomeStep(k, run[i - 1], run[i]);
      var e :| Step(k, run[i - 1], run[i], e);
      StepInv(k, run[i - 1], run[i], e);
    }
  }

  // ---- what every run achieves -------------------------------------------------------------------

  lemma LcpSteps(k: nat, s: State, s': State, e: Event)
    requires Step(k, s, s', e) && e.Lcp?
    ensures Round(k, s, s', true, e) || Round(k, s, s', false, e) || Close(s, s', e)
  {
    hide Round, Close;
  }

  lemma RoundReady(k: nat, s: State, s': State, ss: bool, e: Event)
    requires Inv(k, s) && Round(k, s, s', ss, e) && e.Lcp?
    ensures PartsReady(k, s, e.f) && e.f !in s.lcps && e.f in s'.lcps
  {
    RoundLooping(k, s, s', ss, e);
    hide Core, Inv, PartsReady, PcOk;
    TopReady(k, s, s.ssPop, s.msPop, ss);
  }

  lemma ClosingNow(k: nat, s: State)
    requires Inv(k, s) && s.pc == Closing
    ensures Core(k, s, s.ssPop, s.msPop) && |s.ms| == s.msPop && |s.ss| == s.ssPop && s.open == {}
    ensures s.ms[..s.msPop] == s.ms && s.ss[..s.ssPop] == s.ss
  {
    hide Core;
  }

  lemma CloseReady(k: nat, s: State, s': State, e: Event)
    requires Inv(k, s) && Close(s, s', e) && e.Lcp?
    ensures PartsReady(k, s, e.f) && e.f !in s.lcps && e.f in s'.lcps
  {
    hide Core, Inv, PartsReady, Lim;
    ClosingNow(k, s);
    var ss := s.msPop == 0;
    ClosingTop(k, s, s.ssPop, s.msPop, ss);
    TopReady(k, s, s.ssPop, s.msPop, ss);
  }

  /** calculate_lcp is called for a step only once, and only when all its parts are sorted: on the spot,
      by a step that is complete, or by an enqueued job that has notified. This holds for steps that end
      on top of their stack and for those popped at the front alike. */
  lemma LcpAfterParts(k: nat, s: State, s': State, e: Event)
    requires Inv(k, s) && Step(k, s, s', e) && e.Lcp?
    ensures PartsReady(k, s, e.f) && e.f !in s.lcps && e.f in s'.lcps
  {
    LcpSteps(k, s, s', e);
    hide Inv, Round, Close, Step, PartsReady;
    if Round(k, s, s', true, e) { RoundReady(k, s, s', true, e); }
    else if Round(k, s, s', false, e) { RoundReady(k, s, s', false, e); }
    else { CloseReady(k, s, s', e); }
  }

  /** A step on a stack, whatever it has given away. */
  lemma FrameAt(k: nat, s: State, ss: bool, p: nat)
    requires Inv(k, s) && p < |Stack(s, ss)|
    ensures var fr := Stack(s, ss)[p];
            && fr.id < |s.isSs| && s.isSs[fr.id] == ss && fr.idx <= Parts(k, ss)
            && forall j: nat :: (fr.id, j) in s.log <==> j < fr.idx
  {
    hide StepOk, LogOk, PcOk;
    assert FrameOk(k, s, Stack(s, ss)[p], ss, p < Lim(s, ss));
  }

  lemma CounterIs(k: nat, s: State)
    requires Inv(k, s)
    ensures s.working == |s.open| + (if s.handle then 1 else 0) && PcOk(s)
  {
    hide StackOk, StepOk, LogOk;
  }

  lemma DealtPc(s: State, ss: bool, p: nat, how: How)
    requires p < |Stack(s, ss)|
    ensures DealtAt(s, ss, p, how).pc == s.pc
  {
  }

  /** How the job moves from place to place. */
  ghost predicate PcMoves(s: State, s': State, e: Event) {
    && s'.pc != Begin && s.pc != Finished && (s'.pc == Finished ==> e == Leave)
    && (s.pc != Closing && s'.pc == Closing ==> Release(s, s', e) || Return(s, s', e))
    && (s.pc == Closing ==> s'.pc in {Closing, Closed} || Return(s, s', e))
    && (s.pc == Closed ==> s'.pc == Finished || Return(s, s', e))
  }

  lemma RoundPc(k: nat, s: State, s': State, ss: bool, e: Event)
    requires Round(k, s, s', ss, e)
    ensures PcMoves(s, s', e)
  {
    hide DealtAt, New, TopClosed, Return, Release;
  }

  lemma FreePartPc(k: nat, s: State, s': State, e: Event)
    requires FreePart(k, s, s', e)
    ensures PcMoves(s, s', e)
  {
    DealtPc(s, s.pc.ss, Popped(s, s.pc.ss), e.how);
    hide DealtAt, Return, Release;
  }

  lemma StartPc(s: State, s': State, e: Event)
    requires Start(s, s', e)
    ensures PcMoves(s, s', e)
  {
    hide New, Return, Release;
  }

  lemma MovePc(k: nat, s: State, s': State, e: Event)
    requires Exit(s, s', e) || Poll(s, s', e) || FreePop(k, s, s', e)
    ensures PcMoves(s, s', e)
  {
    hide Return, Release;
  }

  lemma DonePc(s: State, s': State, e: Event)
    requires Release(s, s', e) || Return(s, s', e) || Close(s, s', e) || Gone(s, s', e)
    requires s.pc in {Begin, Finished} ==> s.open == {}
    ensures PcMoves(s, s', e)
  {
  }

  lemma StepPc(k: nat, s: State, s': State, e: Event)
    requires Step(k, s, s', e) && (s.pc in {Begin, Finished} ==> s.open == {})
    ensures PcMoves(s, s', e)
  {
    hide Start, Round, Exit, Poll, FreePart, FreePop, Release, Return, Close, Gone, PcMoves;
    if Start(s, s', e) { StartPc(s, s', e); }
    else if Round(k, s, s', true, e) { RoundPc(k, s, s', true, e); }
    else if Round(k, s, s', false, e) { RoundPc(k, s, s', false, e); }
    else if FreePart(k, s, s', e) { FreePartPc(k, s, s', e); }
    else if Exit(s, s', e) || Poll(s, s', e) || FreePop(k, s, s', e) { MovePc(k, s, s', e); }
    else { DonePc(s, s', e); }
  }

  lemma NothingOpen(k: nat, s: State)
    requires Inv(k, s) && s.pc in {Begin, Closed, Finished}
    ensures s.open == {}
  {
    hide Core;
  }

  /** substep_all_done is entered once, when the loops have ended and every enqueued job has notified;
      the counter is positive whenever someone is about to decrement it. */
  lemma AllDoneOnce(k: nat, s: State, s': State, e: Event)
    requires Inv(k, s) && Step(k, s, s', e)
    ensures s.pc != Closing && s'.pc == Closing ==>
              (s.pc == RunEnded || s.pc == Released) && s'.open == {} && !s'.handle && s'.working == 0
    ensures s.pc in {Closing, Closed, Finished} ==> s'.pc in {Closing, Closed, Finished}
    ensures s.open != {} || s.pc == RunEnded ==> s.working > 0
  {
    StepInv(k, s, s', e);
    CounterIs(k, s);
    CounterIs(k, s');
    if s.pc in {Begin, Finished} { NothingOpen(k, s); }
    StepPc(k, s, s', e);
    hide Inv, Core, Step;
    if s.open != {} { HandleHeld(s); }
    if Return(s, s', e) { HandleHeld(s); }
  }

  /** Whatever the idle polls say, when the job has completed every part of every step was dealt with
      exactly once - on the spot, by a step of its own, or by an enqueued job that has notified - and the
      LCPs of every step were calculated exactly once. */
  lemma EachOnce(k: nat, run: seq<State>)
    requires Run(k, run) && run[|run| - 1].pc in {Closed, Finished}
    ensures var s := run[|run| - 1];
            && !s.twice && !s.twiceLcp && s.open == {} && s.working == 0
            && (forall f :: f in s.lcps <==> 0 <= f < |s.isSs|)
            && (forall f: nat, j: nat :: (f, j) in s.log <==> f < |s.isSs| && j < Parts(k, s.isSs[f]))
  {
    RunInv(k, run, |run| - 1);
    AllClosed(k, run[|run| - 1]);
  }

  lemma AllClosed(k: nat, s: State)
    requires Inv(k, s) && s.pc in {Closed, Finished}
    ensures !s.twice && !s.twiceLcp && s.open == {} && s.working == 0
    ensures forall f :: f in s.lcps <==> 0 <= f < |s.isSs|
    ensures forall f: nat, j: nat :: (f, j) in s.log <==> f < |s.isSs| && j < Parts(k, s.isSs[f])
  {
    forall f | 0 <= f < |s.isSs| ensures f in s.lcps { assert StepOk(k, s, f); }
    forall f: nat, j: nat | f < |s.isSs| && j < Parts(k, s.isSs[f]) ensures (f, j) in s.log { assert StepOk(k, s, f); }
  }

  // ---- what one step changes -----------------------------------------------------------------------

  /** The effect of a step on what is recorded, whatever the stacks look like. */
  ghost predicate Effect(k: nat, s: State, s': State, e: Event) {
    match e
    case Tau => s'.log == s.log && s'.lcps == s.lcps && s'.isSs == s.isSs && s'.open == s.open && s.pc != Begin
    case First(ss) => s.isSs == [] && s'.isSs == [ss] && s'.log == s.log == map[] && s'.lcps == s.lcps && s'.open == s.open == {}
    case Nothing => s.isSs == s'.isSs == [] && s'.log == s.log && s'.lcps == s.lcps && s'.open == s.open
    case Deal(f, j, how, ss) =>
      && f < |s.isSs| && j < Parts(k, s.isSs[f]) && (f, j) !in s.log && f !in s.lcps
      && s'.log == s.log[(f, j) := how] && s'.lcps == s.lcps
      && s'.open == (if how == Given then s.open + {(f, j)} else s.open)
      && (how.Pushed? ==> how.child == |s.isSs|) && s'.isSs == (if how.Pushed? then s.isSs + [ss] else s.isSs)
    case Lcp(f) => f < |s.isSs| && s'.lcps == s.lcps + {f} && s'.log == s.log && s'.isSs == s.isSs && s'.open == s.open
    case Returned(f, j) =>
      (f, j) in s.open && s'.open == s.open - {(f, j)} && s'.log == s.log && s'.lcps == s.lcps && s'.isSs == s.isSs
    case Leave => s'.log == s.log && s'.lcps == s.lcps && s'.isSs == s.isSs && s'.open == s.open && s.pc == Closed
  }

  lemma DealEffect(k: nat, s: State, ss: bool, l: nat, p: nat, how: How, kind: bool)
    requires StackOk(k, s, ss, l) && p < |Stack(s, ss)| && Stack(s, ss)[p].idx < Parts(k, ss)
    requires how.Pushed? ==> how.child == |s.isSs|
    ensures var fr := Stack(s, ss)[p];
            Effect(k, s, if how.Pushed? then New(DealtAt(s, ss, p, how), kind) else DealtAt(s, ss, p, how),
                   Deal(fr.id, fr.idx, how, if how.Pushed? then kind else false))
  {
    FrontFresh(k, s, ss, l, p);
    hide StackOk;
  }

  lemma EffectPc(k: nat, s: State, s': State, pc: Pc, e: Event)
    requires Effect(k, s, s', e)
    ensures Effect(k, s, s'.(pc := pc), e)
  {
  }

  lemma TopEffect(k: nat, s: State, ss: bool, l: nat)
    requires StackOk(k, s, ss, l) && Stack(s, ss) != []
    ensures Effect(k, s, TopClosed(s, ss), Lcp(Stack(s, ss)[|Stack(s, ss)| - 1].id))
  {
    TopStep(k, s, ss, l);
    hide StackOk;
  }

  lemma CoreStack(k: nat, s: State, ls: nat, lm: nat, ss: bool)
    requires Core(k, s, ls, lm)
    ensures StackOk(k, s, ss, if ss then ls else lm)
  {
    hide StackOk, StepOk, LogOk;
  }

  lemma RoundEffect(k: nat, s: State, s': State, ss: bool, e: Event)
    requires Inv(k, s) && Round(k, s, s', ss, e)
    ensures Effect(k, s, s', e)
  {
    hide Core, Inv, PcOk, StackOk, Effect, DealtAt, New, TopClosed, PollPc;
    RoundLooping(k, s, s', ss, e);
    CoreStack(k, s, s.ssPop, s.msPop, ss);
    var l := if ss then s.ssPop else s.msPop;
    if Stack(s, ss)[|Stack(s, ss)| - 1].idx >= Parts(k, ss) {
      CloseRound(k, s, s', ss, l);
    } else if e.how == Local {
      DealRound(k, s, s', ss, l);
    } else {
      PushRound(k, s, s', ss, l, e.ss);
    }
  }

  lemma CloseRound(k: nat, s: State, s': State, ss: bool, l: nat)
    requires StackOk(k, s, ss, l) && Stack(s, ss) != [] && s' == TopClosed(s, ss).(pc := s'.pc)
    ensures Effect(k, s, s', Lcp(Stack(s, ss)[|Stack(s, ss)| - 1].id))
  {
    hide StackOk, Effect, TopClosed;
    TopEffect(k, s, ss, l);
    EffectPc(k, s, TopClosed(s, ss), s'.pc, Lcp(Stack(s, ss)[|Stack(s, ss)| - 1].id));
  }

  lemma DealRound(k: nat, s: State, s': State, ss: bool, l: nat)
    requires StackOk(k, s, ss, l) && Stack(s, ss) != [] && Stack(s, ss)[|Stack(s, ss)| - 1].idx < Parts(k, ss)
    requires s' == DealtAt(s, ss, |Stack(s, ss)| - 1, Local).(pc := s'.pc)
    ensures var fr := Stack(s, ss)[|Stack(s, ss)| - 1]; Effect(k, s, s', Deal(fr.id, fr.idx, Local, false))
  {
    hide StackOk, Effect, DealtAt;
    var p := |Stack(s, ss)| - 1;
    DealEffect(k, s, ss, l, p, Local, false);
    EffectPc(k, s, DealtAt(s, ss, p, Local), s'.pc, Deal(Stack(s, ss)[p].id, Stack(s, ss)[p].idx, Local, false));
  }

  lemma PushRound(k: nat, s: State, s': State, ss: bool, l: nat, kind: bool)
    requires StackOk(k, s, ss, l) && Stack(s, ss) != [] && Stack(s, ss)[|Stack(s, ss)| - 1].idx < Parts(k, ss)
    requires s' == New(DealtAt(s, ss, |Stack(s, ss)| - 1, Pushed(|s.isSs|)), kind).(pc := s'.pc)
    ensures var fr := Stack(s, ss)[|Stack(s, ss)| - 1]; Effect(k, s, s', Deal(fr.id, fr.idx, Pushed(|s.isSs|), kind))
  {
    hide StackOk, Effect, DealtAt, New;
    var p, how := |Stack(s, ss)| - 1, Pushed(|s.isSs|);
    DealEffect(k, s, ss, l, p, how, kind);
    EffectPc(k, s, New(DealtAt(s, ss, p, how), kind), s'.pc, Deal(Stack(s, ss)[p].id, Stack(s, ss)[p].idx, how, kind));
  }

  lemma TopStep(k: nat, s: State, ss: bool, l: nat)
    requires StackOk(k, s, ss, l) && Stack(s, ss) != []
    ensures Stack(s, ss)[|Stack(s, ss)| - 1].id < |s.isSs|
  {
    assert FrameOk(k, s, Stack(s, ss)[|Stack(s, ss)| - 1], ss, |Stack(s, ss)| - 1 < l);
  }

  lemma FreePartEffect(k: nat, s: State, s': State, e: Event)
    requires Inv(k, s) && FreePart(k, s, s', e)
    ensures Effect(k, s, s', e)
  {
    var ss := s.pc.ss;
    assert StackOk(k, s, ss, Lim(s, ss)) by { hide StackOk, StepOk, LogOk; }
    hide Core, Inv, PcOk, StackOk;
    DealEffect(k, s, ss, Lim(s, ss), Popped(s, ss), e.how, false);
  }

  lemma CloseEffect(k: nat, s: State, s': State, e: Event)
    requires Inv(k, s) && Close(s, s', e)
    ensures Effect(k, s, s', e)
  {
    ClosingNow(k, s);
    var ss := s.msPop == 0;
    if s.msPop > 0 || s.ssPop > 0 {
      assert StackOk(k, s, ss, Lim(s, ss)) by { hide StackOk, StepOk, LogOk; }
      TopStep(k, s, ss, Lim(s, ss));
    }
    hide Core, Inv, StackOk;
  }

  lemma OtherEffect(k: nat, s: State, s': State, e: Event)
    requires Inv(k, s)
    requires Start(s, s', e) || Exit(s, s', e) || Poll(s, s', e) || FreePop(k, s, s', e) || Release(s, s', e) || Return(s, s', e) || Gone(s, s', e)
    ensures Effect(k, s, s', e)
  {
    hide StackOk, StepOk, LogOk;
  }

  lemma StepEffect(k: nat, s: State, s': State, e: Event)
    requires Inv(k, s) && Step(k, s, s', e)
    ensures Effect(k, s, s', e)
  {
    hide Inv, Start, Round, Exit, Poll, FreePart, FreePop, Release, Return, Close, Gone, Effect;
    if Round(k, s, s', true, e) { RoundEffect(k, s, s', true, e); }
    else if Round(k, s, s', false, e) { RoundEffect(k, s, s', false, e); }
    else if FreePart(k, s, s', e) { FreePartEffect(k, s, s', e); }
    else if Close(s, s', e) { CloseEffect(k, s, s', e); }
    else { OtherEffect(k, s, s', e); }
  }

  /** Nothing leads back to the beginning; only Leave reaches the end, and nothing happens there. */
  lemma StepEnds(k: nat, s: State, s': State, e: Event)
    requires Inv(k, s) && Step(k, s, s', e)
    ensures s'.pc != Begin && s.pc != Finished
    ensures s'.pc == Finished <==> e == Leave
  {
    if s.pc in {Begin, Finished} { NothingOpen(k, s); }
    StepPc(k, s, s', e);
    if e == Leave { LeaveEnds(k, s, s', e); }
    hide Inv, Step;
  }

  lemma LeaveEnds(k: nat, s: State, s': State, e: Event)
    requires Step(k, s, s', e) && e == Leave
    ensures s.pc == Closed && s'.pc == Finished
  {
  }

  /** At the beginning there is nothing to do but start. */
  lemma BeginOnly(k: nat, s: State, s': State, e: Event)
    requires Inv(k, s) && Step(k, s, s', e) && s.pc == Begin
    ensures e.First? || e.Nothing?
  {
    NothingOpen(k, s);
    hide Core, DealtAt, New, TopClosed;
  }

  /** A step that is new has no part dealt with and no LCPs. */
  lemma DealsLater(k: nat, s: State, s': State, e: Event)
    requires Inv(k, s) && Step(k, s, s', e) && (e.Deal? || e.First?)
    ensures s.pc != Begin || e.First?
    ensures |s.isSs| !in s'.lcps && forall j: nat :: (|s.isSs|, j) !in s'.log
  {
    if s.pc == Begin { BeginOnly(k, s, s', e); }
    StepEffect(k, s, s', e);
    CoreLog(k, s, Lim(s, true), Lim(s, false));
    hide Core, Inv, Step;
  }

  lemma CoreLog(k: nat, s: State, ls: nat, lm: nat)
    requires Core(k, s, ls, lm)
    ensures |s.isSs| !in s.lcps && forall j: nat :: (|s.isSs|, j) !in s.log
  {
    hide StackOk, StepOk;
    NoSuchStep(k, s);
  }
}
