/** What a small sort job can give away when it finds a worker idle: all that is left of its lowest sample sort
    step, or, when no such step is left, of its lowest quicksort steps, at most eight of them. */
module WorkSharing {
  import opened TwoStacks

  /** Steps of the job, one after the other. */
  ghost predicate Path(k: nat, p: seq<State>) {
    p != [] && forall i, j :: 0 <= i < |p| && j == i + 1 && j < |p| ==> SomeStep(k, p[i], p[j])
  }

  lemma Longer(k: nat, s: State, e: Event, p: seq<State>) returns (q: seq<State>)
    requires Path(k, p) && Step(k, s, p[0], e)
    ensures Path(k, q) && q[0] == s && q[|q| - 1] == p[|p| - 1]
  {
    hide Step;
    q := [s] + p;
    assert SomeStep(k, s, p[0]);
    forall i, j | 0 <= i < |q| && j == i + 1 && j < |q| ensures SomeStep(k, q[i], q[j]) {
      if i > 0 { assert SomeStep(k, p[i - 1], p[j - 1]); }
    }
  }

  /** Where there is something left to sort, the part has been enqueued and not come back. */
  ghost predicate DealtAs(z: State, x: (nat, nat), give: set<(nat, nat)>) {
    x in z.log && if x in give then z.log[x] == Given && x in z.open else z.log[x] == Local
  }

  /** This holds of every part of the step from its index on. */
  ghost predicate GivenFrom(k: nat, z: State, fr: Frame, ss: bool, give: set<(nat, nat)>) {
    forall j: nat :: fr.idx <= j < Parts(k, ss) ==> DealtAs(z, (fr.id, j), give)
  }

  /** What is known of other parts stays, and nothing else is given away. */
  ghost predicate OnlyGave(s: State, z: State, give: set<(nat, nat)>) {
    && s.open <= z.open <= s.open + give && z.isSs == s.isSs && z.lcps == s.lcps && z.handle == s.handle
    && (forall x :: x in s.log ==> x in z.log && z.log[x] == s.log[x])
  }

  ghost predicate MayFree(s: State) {
    s.pc.Freeing? && Active(s, s.pc.ss) && (s.pc.ss || s.pc.left > 0)
  }

  /** No part from the index on has been dealt with. */
  ghost predicate Untouched(s: State, fr: Frame) {
    && (forall j: nat :: (fr.id, j) in s.log ==> j < fr.idx)
    && (forall x :: x in s.open ==> x in s.log)
  }

  function HowTo(x: (nat, nat), give: set<(nat, nat)>): How {
    if x in give then Given else Local
  }

  lemma GiveOne(k: nat, s: State, ss: bool, n: nat, give: set<(nat, nat)>)
    requires n < |Stack(s, ss)| && Untouched(s, Stack(s, ss)[n])
    ensures var fr := Stack(s, ss)[n];
            var s1 := DealtAt(s, ss, n, HowTo((fr.id, fr.idx), give));
            && Untouched(s1, Frame(fr.id, fr.idx + 1)) && OnlyGave(s, s1, give) && DealtAs(s1, (fr.id, fr.idx), give)
            && Stack(s1, ss) == Stack(s, ss)[n := Frame(fr.id, fr.idx + 1)] && Stack(s1, !ss) == Stack(s, !ss)
            && s1.ssPop == s.ssPop && s1.msPop == s.msPop && s1.pc == s.pc
  {
  }

  lemma GaveBoth(s: State, s1: State, z: State, give: set<(nat, nat)>)
    requires OnlyGave(s, s1, give) && OnlyGave(s1, z, give)
    ensures OnlyGave(s, z, give)
  {
  }

  lemma OneMore(k: nat, s1: State, z: State, fr: Frame, ss: bool, give: set<(nat, nat)>)
    requires GivenFrom(k, z, Frame(fr.id, fr.idx + 1), ss, give)
    requires OnlyGave(s1, z, give) && DealtAs(s1, (fr.id, fr.idx), give)
    ensures GivenFrom(k, z, fr, ss, give)
  {
  }

  /** The parts of the bottom step, one after the other. */
  lemma {:induction false} GiveParts(k: nat, s: State, give: set<(nat, nat)>) returns (p: seq<State>)
    requires MayFree(s) && Stack(s, s.pc.ss)[Popped(s, s.pc.ss)].idx <= Parts(k, s.pc.ss)
    requires Untouched(s, Stack(s, s.pc.ss)[Popped(s, s.pc.ss)])
    ensures Path(k, p) && p[0] == s
    ensures var z, ss, n := p[|p| - 1], s.pc.ss, Popped(s, s.pc.ss);
            && z.pc == s.pc && Stack(z, !ss) == Stack(s, !ss) && z.ssPop == s.ssPop && z.msPop == s.msPop
            && Stack(z, ss) == Stack(s, ss)[n := Frame(Stack(s, ss)[n].id, Parts(k, ss))]
            && GivenFrom(k, z, Stack(s, ss)[n], ss, give) && OnlyGave(s, z, give)
    decreases Parts(k, s.pc.ss) - Stack(s, s.pc.ss)[Popped(s, s.pc.ss)].idx
  {
    hide OnlyGave, Untouched, Step, SomeStep, DealtAt, DealtAs, GivenFrom;
    var ss, n := s.pc.ss, Popped(s, s.pc.ss);
    var fr := Stack(s, ss)[n];
    if fr.idx == Parts(k, ss) {
      p := [s];
      NothingGiven(k, s, fr, ss, give);
    } else {
      var how := HowTo((fr.id, fr.idx), give);
      var s1, e := DealtAt(s, ss, n, how), Deal(fr.id, fr.idx, how, false);
      GiveStep(k, s, s1, e);
      GiveOne(k, s, ss, n, give);
      var q := GiveParts(k, s1, give);
      p := Longer(k, s, e, q);
      var z := p[|p| - 1];
      hide Path;
      GaveBoth(s, s1, z, give);
      OneMore(k, s1, z, fr, ss, give);
    }
  }

  lemma NothingGiven(k: nat, s: State, fr: Frame, ss: bool, give: set<(nat, nat)>)
    requires fr.idx >= Parts(k, ss)
    ensures GivenFrom(k, s, fr, ss, give) && OnlyGave(s, s, give)
  {
  }

  lemma GiveStep(k: nat, s: State, s1: State, e: Event)
    requires MayFree(s) && e.Deal? && (e.how == Local || e.how == Given)
    requires var ss, n := s.pc.ss, Popped(s, s.pc.ss);
             Stack(s, ss)[n].idx < Parts(k, ss) && s1 == DealtAt(s, ss, n, e.how)
             && e == Deal(Stack(s, ss)[n].id, Stack(s, ss)[n].idx, e.how, false)
    ensures Step(k, s, s1, e)
  {
  }

  // ---- whole steps -----------------------------------------------------------------------------

  lemma Further(k: nat, p: seq<State>, z: State, e: Event) returns (q: seq<State>)
    requires Path(k, p) && Step(k, p[|p| - 1], z, e)
    ensures Path(k, q) && q[0] == p[0] && q[|q| - 1] == z
  {
    hide Step;
    q := p + [z];
    assert SomeStep(k, p[|p| - 1], z);
    forall i, j | 0 <= i < |q| && j == i + 1 && j < |q| ensures SomeStep(k, q[i], q[j]) {
      if j < |p| { assert SomeStep(k, p[i], p[j]); }
    }
  }

  lemma Joined(k: nat, p: seq<State>, q: seq<State>) returns (r: seq<State>)
    requires Path(k, p) && Path(k, q) && p[|p| - 1] == q[0]
    ensures Path(k, r) && r[0] == p[0] && r[|r| - 1] == q[|q| - 1]
  {
    hide SomeStep;
    r := p + q[1..];
    forall i, j | 0 <= i < |r| && j == i + 1 && j < |r| ensures SomeStep(k, r[i], r[j]) {
      if j < |p| {
        assert SomeStep(k, p[i], p[j]);
      } else {
        assert r[i] == q[i + 1 - |p|] && r[j] == q[j + 1 - |p|];
        assert SomeStep(k, q[i + 1 - |p|], q[j + 1 - |p|]);
      }
    }
  }

  lemma {:induction false} PathInv(k: nat, p: seq<State>, i: nat)
    requires Path(k, p) && Inv(k, p[0]) && i < |p|
    ensures Inv(k, p[i])
    decreases i
  {
    hide Inv, Step;
    if i > 0 {
      PathInv(k, p, i - 1);
      assert SomeStep(k, p[i - 1], p[i]);
      var e :| Step(k, p[i - 1], p[i], e);
      StepInv(k, p[i - 1], p[i], e);
    }
  }

  lemma BottomUntouched(k: nat, s: State, ss: bool)
    requires Inv(k, s) && Active(s, ss)
    ensures Untouched(s, Stack(s, ss)[Popped(s, ss)]) && Stack(s, ss)[Popped(s, ss)].idx <= Parts(k, ss)
  {
    hide LogOk, StepOk;
    assert FrameOk(k, s, Stack(s, ss)[Popped(s, ss)], ss, Popped(s, ss) < Lim(s, ss));
    OpenInLog(k, s);
  }

  lemma OpenInLog(k: nat, s: State)
    requires Core(k, s, Lim(s, true), Lim(s, false))
    ensures forall x :: x in s.open ==> x in s.log
  {
    hide StackOk, StepOk;
  }

  /** The bottom step gives away what it has left, and is popped at the front. */
  lemma GiveStepAway(k: nat, s: State, give: set<(nat, nat)>) returns (p: seq<State>)
    requires Inv(k, s) && MayFree(s)
    ensures Path(k, p) && p[0] == s
    ensures var z, ss, n := p[|p| - 1], s.pc.ss, Popped(s, s.pc.ss);
            && z.pc == (if ss then BackPc(s.pc.back) else Freeing(false, s.pc.left - 1, s.pc.back))
            && Stack(z, !ss) == Stack(s, !ss) && |Stack(z, ss)| == |Stack(s, ss)|
            && (forall x :: 0 <= x < |Stack(s, ss)| && x != n ==> Stack(z, ss)[x] == Stack(s, ss)[x])
            && Popped(z, ss) == n + 1 && Popped(z, !ss) == Popped(s, !ss)
            && GivenFrom(k, z, Stack(s, ss)[n], ss, give) && OnlyGave(s, z, give)
  {
    hide OnlyGave, Untouched, Inv, Step, GivenFrom;
    BottomUntouched(k, s, s.pc.ss);
    var q := GiveParts(k, s, give);
    var y, ss, n := q[|q| - 1], s.pc.ss, Popped(s, s.pc.ss);
    var z := WithPopped(y, ss, n + 1).(pc := if ss then BackPc(s.pc.back) else Freeing(false, s.pc.left - 1, s.pc.back));
    PopStep(k, y, z);
    p := Further(k, q, z, Tau);
    hide Path;
    SameRecords(k, s, y, z, Stack(s, ss)[n], ss, give);
  }

  lemma PopStep(k: nat, y: State, z: State)
    requires MayFree(y) && Stack(y, y.pc.ss)[Popped(y, y.pc.ss)].idx >= Parts(k, y.pc.ss)
    requires z == WithPopped(y, y.pc.ss, Popped(y, y.pc.ss) + 1)
                  .(pc := if y.pc.ss then BackPc(y.pc.back) else Freeing(false, y.pc.left - 1, y.pc.back))
    ensures Step(k, y, z, Tau)
  {
  }

  lemma SameRecords(k: nat, s: State, y: State, z: State, fr: Frame, ss: bool, give: set<(nat, nat)>)
    requires OnlyGave(s, y, give) && GivenFrom(k, y, fr, ss, give)
    requires z.log == y.log && z.open == y.open && z.isSs == y.isSs && z.lcps == y.lcps && z.handle == y.handle
    ensures OnlyGave(s, z, give) && GivenFrom(k, z, fr, ss, give)
  {
  }

  lemma StillGiven(k: nat, y: State, z: State, fr: Frame, ss: bool, give: set<(nat, nat)>)
    requires OnlyGave(y, z, give) && GivenFrom(k, y, fr, ss, give)
    ensures GivenFrom(k, z, fr, ss, give)
  {
  }

  function Min(a: nat, b: nat): nat {
    if a < b then a else b
  }

  /** As many of the lowest quicksort steps as may be freed. */
  lemma {:induction false} GiveQuicksort(k: nat, s: State, give: set<(nat, nat)>) returns (p: seq<State>)
    requires Inv(k, s) && s.pc.Freeing? && !s.pc.ss
    ensures Path(k, p) && p[0] == s
    ensures var z := p[|p| - 1];
            && z.pc == BackPc(s.pc.back) && z.ss == s.ss && z.ssPop == s.ssPop && |z.ms| == |s.ms|
            && s.msPop <= |s.ms| && z.msPop == s.msPop + Min(s.pc.left, |s.ms| - s.msPop) && OnlyGave(s, z, give)
            && (forall x :: s.msPop <= x < z.msPop ==> GivenFrom(k, z, s.ms[x], false, give))
    decreases s.pc.left
  {
    hide OnlyGave, Inv, Step, GivenFrom, SomeStep;
    PopsFit(k, s);
    if MayFree(s) {
      var q := GiveStepAway(k, s, give);
      var y := q[|q| - 1];
      PathInv(k, q, |q| - 1);
      var r := GiveQuicksort(k, y, give);
      p := Joined(k, q, r);
      hide Path;
      var z := p[|p| - 1];
      Gave(k, s, y, z, give);
    } else {
      var z := s.(pc := BackPc(s.pc.back));
      EndStep(k, s, z);
      Same(s, z, give);
      p := Further(k, [s], z, Tau);
    }
  }

  lemma PopsFit(k: nat, s: State)
    requires Inv(k, s)
    ensures s.msPop <= |s.ms| && s.ssPop <= |s.ss|
  {
    PoppedFits(k, s, Lim(s, true), Lim(s, false));
  }

  lemma EndStep(k: nat, s: State, z: State)
    requires s.pc.Freeing? && !MayFree(s) && z == s.(pc := BackPc(s.pc.back))
    ensures Step(k, s, z, Tau)
  {
  }

  lemma Same(s: State, z: State, give: set<(nat, nat)>)
    requires z == s.(pc := z.pc)
    ensures OnlyGave(s, z, give)
  {
  }

  lemma Gave(k: nat, s: State, y: State, z: State, give: set<(nat, nat)>)
    requires Inv(k, s) && OnlyGave(s, y, give) && OnlyGave(y, z, give)
    requires s.msPop < |s.ms| && |y.ms| == |s.ms| && y.msPop == s.msPop + 1
    requires GivenFrom(k, y, s.ms[s.msPop], false, give) && forall x :: 0 <= x < |s.ms| && x != s.msPop ==> y.ms[x] == s.ms[x]
    requires z.msPop <= |s.ms| && forall x :: y.msPop <= x < z.msPop ==> GivenFrom(k, z, y.ms[x], false, give)
    ensures OnlyGave(s, z, give) && forall x :: s.msPop <= x < z.msPop ==> GivenFrom(k, z, s.ms[x], false, give)
  {
    hide GivenFrom, OnlyGave;
    StillGiven(k, y, z, s.ms[s.msPop], false, give);
    GaveBoth(s, y, z, give);
    hide Inv;
  }

  /** When the poll finds a worker idle, the job can deal with every part that its lowest sample sort step has
      left; without one, with every part that its lowest quicksort steps have left, up to eight of them. Whichever
      of these parts have something to sort are given away, the others are dealt with on the spot. Then the job
      goes on with its loop, and nothing else has changed hands. */
  lemma SharesWork(k: nat, s: State, give: set<(nat, nat)>) returns (p: seq<State>)
    requires Inv(k, s) && (s.pc.SsPoll? || s.pc.MsPoll?)
    ensures Path(k, p) && p[0] == s
    ensures var z := p[|p| - 1];
            && z.pc == (if s.pc.SsPoll? then SsLoop else MsLoop(s.pc.nested)) && OnlyGave(s, z, give)
            && s.ssPop <= |s.ss| && s.msPop <= |s.ms|
            && (s.ssPop < |s.ss| ==>
                  z.ssPop == s.ssPop + 1 && z.msPop == s.msPop && z.ms == s.ms && GivenFrom(k, z, s.ss[s.ssPop], true, give))
            && (s.ssPop == |s.ss| ==>
                  && z.ss == s.ss && z.ssPop == s.ssPop && z.msPop == s.msPop + Min(8, |s.ms| - s.msPop)
                  && forall x :: s.msPop <= x < z.msPop ==> GivenFrom(k, z, s.ms[x], false, give))
  {
    hide OnlyGave, Inv, Step, GivenFrom, SomeStep;
    PopsFit(k, s);
    var s1 := s.(pc := if Active(s, true) then Freeing(true, 0, BackOf(s.pc)) else Freeing(false, 8, BackOf(s.pc)));
    PollStep(k, s, s1);
    StepInv(k, s, s1, Tau);
    var q: seq<State>;
    if Active(s, true) { q := GiveStepAway(k, s1, give); } else { q := GiveQuicksort(k, s1, give); }
    p := Longer(k, s, Tau, q);
    hide Path;
    Same(s, s1, give);
    GaveBoth(s, s1, p[|p| - 1], give);
  }

  lemma PollStep(k: nat, s: State, s1: State)
    requires s.pc.SsPoll? || s.pc.MsPoll?
    requires s1 == s.(pc := if Active(s, true) then Freeing(true, 0, BackOf(s.pc)) else Freeing(false, 8, BackOf(s.pc)))
    ensures Step(k, s, s1, Tau)
  {
  }
}
