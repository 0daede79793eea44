/** The pages of the ticket queue: every page is on the chain of its lane or in the hands of one operation, so
    none is lost. */
module QueuePages {
  import opened ConcurrentQueue
  import opened QueueOrder
  import opened QueueEnds

  /** A push that has not linked its new page yet, or a pop that has unlinked a page and not freed it. */
  ghost predicate HasPage(spp: nat, pc: Pc, i: nat, p: nat)
    requires spp > 0
  {
    || ((pc.PushWait? || pc.PushLink?) && LaneOf(pc.k) == i && IdxOf(OrdOf(pc.k), spp) == 0 && p == PageOf(OrdOf(pc.k), spp))
    || (pc.PopBump? && LaneOf(pc.k) == i && IdxOf(OrdOf(pc.k), spp) == spp - 1 && pc.p == p)
    || (pc.PopFree? && LaneOf(pc.k) == i && pc.p == p)
  }

  ghost predicate InHands(s: State, i: nat, p: nat)
    requires s.spp > 0
  {
    exists t :: 0 <= t < |s.threads| && HasPage(s.spp, s.threads[t], i, p)
  }

  ghost predicate OnChain(l: Lane, p: nat) {
    l.unlinked <= p < l.linked
  }

  ghost predicate NoneLost(s: State) {
    && s.spp > 0
    && forall i: nat, p: nat :: i < |s.lanes| && p in s.lanes[i].pages ==> OnChain(s.lanes[i], p) || InHands(s, i, p)
  }

  /** What one step does to a page of its lane: it stays where it is, or passes between chain and thread. */
  lemma PagePasses(s: State, s': State, t: nat, p: nat)
    requires Inv(s) && LaneStep(s, s', t)
    requires LaneOf(s.threads[t].k) < |s.lanes| == |s'.lanes| && t < |s'.threads|
    requires p in s'.lanes[LaneOf(s.threads[t].k)].pages
    ensures var i := LaneOf(s.threads[t].k);
            var l, l' := s.lanes[i], s'.lanes[i];
            || OnChain(l', p) || HasPage(s.spp, s'.threads[t], i, p)
            || (p in l.pages && !OnChain(l, p) && !HasPage(s.spp, s.threads[t], i, p))
  {
    var pc, pc' := s.threads[t], s'.threads[t];
    var i := LaneOf(pc.k);
    var l, l' := s.lanes[i], s'.lanes[i];
    assert ThreadOk(s, pc) && LaneOk(s, l, i);
    hide PageOf, IdxOf, TicketOf, OrdOf, LaneOf, ContentOk, ChainOk, SizesOk, Delivered;
  }

  lemma LaneNoneLost(s: State, s': State, t: nat)
    requires Inv(s) && NoneLost(s) && LaneStep(s, s', t)
    ensures NoneLost(s')
  {
    hide LaneOf, PushStep, PopStep, Delivered, HasPage, OnChain, Inv;
    LaneThreads(s, s', t);
    var k := s.threads[t].k;
    forall i: nat, p: nat | i < |s'.lanes| && p in s'.lanes[i].pages ensures OnChain(s'.lanes[i], p) || InHands(s', i, p) {
      if i == LaneOf(k) {
        PagePasses(s, s', t, p);
        if HasPage(s.spp, s'.threads[t], i, p) { assert InHands(s', i, p); }
      }
      if HasPage(s.spp, s.threads[t], i, p) {
        OwnLane(s, t, i, p);
      } else if InHands(s, i, p) {
        StillInHands(s, s', t, i, p);
      }
    }
  }

  /** The other threads keep what they have; a thread has pages of the lane of its ticket alone. */
  lemma StillInHands(s: State, s': State, t: nat, i: nat, p: nat)
    requires s.spp > 0 && s'.spp == s.spp && InHands(s, i, p) && t < |s.threads| == |s'.threads|
    requires s'.threads == s.threads[t := s'.threads[t]] && !HasPage(s.spp, s.threads[t], i, p)
    ensures InHands(s', i, p)
  {
    hide HasPage;
    var u :| 0 <= u < |s.threads| && HasPage(s.spp, s.threads[u], i, p);
    assert HasPage(s'.spp, s'.threads[u], i, p);
  }

  lemma OwnLane(s: State, t: nat, i: nat, p: nat)
    requires s.spp > 0 && t < |s.threads| && HasPage(s.spp, s.threads[t], i, p)
    ensures (HoldsPush(s.threads[t]) || HoldsPop(s.threads[t])) && i == LaneOf(s.threads[t].k)
  {
  }

  lemma StepNoneLost(s: State, s': State)
    requires Inv(s) && NoneLost(s) && Step(s, s')
    ensures NoneLost(s')
  {
    hide Inv, LaneStep, HasPage, OnChain;
    if t: nat :| LaneStep(s, s', t) {
      LaneNoneLost(s, s', t);
    } else {
      var t := OtherMover(s, s');
      forall i: nat, p: nat | i < |s'.lanes| && p in s'.lanes[i].pages ensures OnChain(s'.lanes[i], p) || InHands(s', i, p) {
        if InHands(s, i, p) {
          if HasPage(s.spp, s.threads[t], i, p) { OwnLane(s, t, i, p); }
          StillInHands(s, s', t, i, p);
        }
      }
    }
  }

  lemma OtherMover(s: State, s': State) returns (t: nat)
    requires Step(s, s') && !exists t: nat :: LaneStep(s, s', t)
    ensures t < |s.threads| == |s'.threads| && s'.threads == s.threads[t := s'.threads[t]]
    ensures !HoldsPush(s.threads[t]) && !HoldsPop(s.threads[t]) && s'.lanes == s.lanes && s'.spp == s.spp
  {
    hide LaneStep;
    if u: nat, v: Item :| StartPush(s, s', u, v) { t := u; }
    else if u: nat :| StartPop(s, s', u) { t := u; }
    else if u: nat :| ReadTail(s, s', u) { t := u; }
    else { t :| Cas(s, s', t); }
  }

  lemma {:induction false} RunNoneLost(run: seq<State>, i: nat)
    requires Run(run) && i < |run|
    ensures NoneLost(run[i])
    decreases i
  {
    hide Inv, Step;
    if i > 0 {
      RunInv(run, i - 1);
      RunNoneLost(run, i - 1);
      assert Step(run[i - 1], run[i - 1 + 1]);
      StepNoneLost(run[i - 1], run[i]);
    }
  }

  /** When no operation is under way, the allocated pages of a lane are exactly those from the page of the next
      item to be taken to the page of the last item: every page whose items have all been taken is freed. */
  lemma PagesAtRest(run: seq<State>, i: nat, p: nat)
    requires Run(run) && i < |run[|run| - 1].lanes| && AtRest(run[|run| - 1])
    ensures var s := run[|run| - 1];
            && s.spp > 0
            && var h, t := HeadOrd(s.lanes[i]), TailOrd(s.lanes[i]);
               (p in s.lanes[i].pages <==> PageOf(h, s.spp) <= p && p * s.spp < t)
  {
    var s := run[|run| - 1];
    RunInv(run, |run| - 1);
    RunAccounted(run, |run| - 1);
    RunNoneLost(run, |run| - 1);
    hide Run;
    LaneAtRest(s, i);
    var t := TailOrd(s.lanes[i]);
    PageStart(p, t, s.spp);
    NothingInHands(s, i, p);
    hide Inv, Accounted;
  }

  lemma PageStart(p: nat, t: nat, spp: nat)
    requires spp > 0
    ensures p * spp < t <==> p < PageOf(t, spp) + (if IdxOf(t, spp) > 0 then 1 else 0)
  {
    var q, r := t / spp, t % spp;
    assert t == spp * q + r;
    if p < q { MulOrder(p, q, spp); } else if q < p { MulOrder(q, p, spp); }
  }

  lemma LaneAtRest(s: State, i: nat)
    requires Inv(s) && Accounted(s) && AtRest(s) && i < |s.lanes|
    ensures var l := s.lanes[i];
            && l.unlinked == PageOf(HeadOrd(l), s.spp)
            && l.linked == PageOf(TailOrd(l), s.spp) + (if IdxOf(TailOrd(l), s.spp) > 0 then 1 else 0)
            && forall p: nat :: OnChain(l, p) ==> p in l.pages
  {
    hide PageOf, IdxOf, OrdOf, LaneOf, TicketOf, ContentOk, SizesOk;
    var l := s.lanes[i];
    assert LaneOk(s, l, i);
    TicketInverse(i, HeadOrd(l));
    TicketInverse(i, TailOrd(l));
    NobodyHolds(s, TicketOf(i, HeadOrd(l)));
    NobodyHolds(s, TicketOf(i, TailOrd(l)));
  }

  lemma NobodyHolds(s: State, k: nat)
    requires Accounted(s) && AtRest(s)
    ensures LaneOf(k) < |s.lanes|
    ensures k < s.tail ==> OrdOf(k) < TailOrd(s.lanes[LaneOf(k)])
    ensures k < s.head ==> OrdOf(k) < HeadOrd(s.lanes[LaneOf(k)])
  {
  }

  lemma NothingInHands(s: State, i: nat, p: nat)
    requires s.spp > 0 && AtRest(s)
    ensures !InHands(s, i, p)
  {
  }
}
