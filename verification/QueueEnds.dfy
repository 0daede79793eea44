/** How the operations of the ticket queue end: a pop returns with the item of its ticket or from an empty
    queue, a push when its item can be taken, and whatever is under way can be brought to its end. */
module QueueEnds {
  import opened ConcurrentQueue
  import opened QueueOrder

  // ---- with what an operation returns --------------------------------------------------------

  /** A pop that has read the head counter and has no ticket yet. */
  predicate SeeksTicket(pc: Pc) {
    pc.PopTail? || pc.PopCas?
  }

  lemma MoverIs(s: State, s': State, t: nat, u: nat)
    requires t < |s.threads| == |s'.threads| && s'.threads == s.threads[t := s'.threads[t]]
    requires u < |s.threads| && s'.threads[u] != s.threads[u]
    ensures u == t
  {
  }

  /** A pop that seeks a ticket finds the queue empty and returns, goes on to its exchange, gets the ticket at the
      head, or tries again with the head counter as it is now. */
  lemma Seeking(s: State, s': State, t: nat)
    requires Inv(s) && HeadRead(s) && Step(s, s') && t < |s.threads| && SeeksTicket(s.threads[t])
    requires t < |s'.threads| && s'.threads[t] != s.threads[t]
    ensures var k := s.threads[t].k;
            || (s'.threads[t] == Outside && s.head == s.tail && s' == s.(threads := s.threads[t := Outside]))
            || (s'.threads[t] == PopCas(k) && s.threads[t].PopTail? && k < s.tail)
            || (s'.threads[t] == PopWaitHead(k) && k == s.head < s.tail && s'.head == s.head + 1)
            || (s'.threads[t] == PopTail(s.head) && k != s.head)
  {
    hide LaneStep, LaneOk, ConcurrentQueue.Apart;
    assert ThreadOk(s, s.threads[t]);
    if u: nat :| LaneStep(s, s', u) {
      LaneThreads(s, s', u);
      MoverIs(s, s', u, t);
    }
  }

  /** A thread outside begins a push with the ticket at the tail, or a pop at the head. */
  lemma Beginning(s: State, s': State, t: nat)
    requires Step(s, s') && t < |s.threads| && s.threads[t] == Outside
    requires t < |s'.threads| && s'.threads[t] != Outside
    ensures || (s'.threads[t] == PushAlloc(s.tail) && s'.tail == s.tail + 1)
            || (s'.threads[t] == PopTail(s.head) && s' == s.(threads := s.threads[t := PopTail(s.head)]))
  {
    hide LaneStep;
    if u: nat :| LaneStep(s, s', u) {
      LaneThreads(s, s', u);
      MoverIs(s, s', u, t);
    }
  }

  lemma TicketStep(s: State, s': State, t: nat)
    requires Step(s, s') && t < |s.threads| && t < |s'.threads| && (HoldsPush(s.threads[t]) || HoldsPop(s.threads[t]))
    requires s'.threads[t] != s.threads[t]
    ensures LaneStep(s, s', t)
  {
    hide LaneStep;
    if u: nat :| LaneStep(s, s', u) {
      LaneThreads(s, s', u);
      MoverIs(s, s', u, t);
    }
  }

  /** A push keeps its ticket until its item stands on its page behind a raised tail counter; then it returns. */
  lemma PushReturns(s: State, s': State, t: nat)
    requires Inv(s) && Step(s, s') && t < |s.threads| && t < |s'.threads| && HoldsPush(s.threads[t])
    requires s'.threads[t] != s.threads[t]
    ensures s.spp > 0 && |s'.lanes| == N_QUEUE
    ensures var k, pc' := s.threads[t].k, s'.threads[t];
            || (HoldsPush(pc') && pc'.k == k)
            || (pc' == Outside && OrdOf(k) < TailOrd(s'.lanes[LaneOf(k)])
                && Present(s.spp, s'.lanes[LaneOf(k)], s.pushed, LaneOf(k), OrdOf(k)) && TicketOf(LaneOf(k), OrdOf(k)) == k)
  {
    hide PageOf, IdxOf, TicketOf, OrdOf, LaneOf;
    TicketStep(s, s', t);
    HandOver(s, s', t);
    LanesAre(s);
    if s'.threads[t] == Outside {
      LaneFacts(s, t);
      TicketBijection(s.threads[t].k);
      hide Inv, Step;
    }
  }

  /** A pop that has taken its item has delivered it. */
  lemma TakenIsDelivered(s: State, t: nat)
    requires Inv(s) && Accounted(s) && t < |s.threads| && HoldsPop(s.threads[t]) && !Untaken(s.threads[t])
    ensures s.threads[t].k in s.popped
  {
    hide LaneOk, OrdOf, LaneOf;
    var k := s.threads[t].k;
    assert ThreadOk(s, s.threads[t]);
    if k !in s.popped {
      var u :| 0 <= u < |s.threads| && Untaken(s.threads[u]) && s.threads[u].k == k;
      OneHolder(s, t, u);
    }
  }

  lemma OneHolder(s: State, t: nat, u: nat)
    requires Inv(s) && t < |s.threads| && u < |s.threads| && HoldsPop(s.threads[t]) && HoldsPop(s.threads[u])
    requires s.threads[t].k == s.threads[u].k
    ensures t == u
  {
    hide LaneOk, ThreadOk;
    assert t < u ==> ConcurrentQueue.Apart(s.threads[t], s.threads[u]);
  }

  /** A pop that has got a ticket keeps it and returns only with the item that was pushed with it. */
  lemma PopReturns(s: State, s': State, t: nat)
    requires Inv(s) && Accounted(s) && Step(s, s') && t < |s.threads| && t < |s'.threads| && HoldsPop(s.threads[t])
    requires s'.threads[t] != s.threads[t]
    ensures var k, pc' := s.threads[t].k, s'.threads[t];
            || (HoldsPop(pc') && pc'.k == k)
            || (pc' == Outside && k < |s'.pushed| && k in s'.popped && s'.popped[k] == s'.pushed[k])
  {
    hide LaneOf, OrdOf, LaneOk, ThreadOk;
    TicketStep(s, s', t);
    HandOver(s, s', t);
    StepInv(s, s');
    if !Untaken(s.threads[t]) { TakenIsDelivered(s, t); }
  }

  /** What holds when an operation returns: a pop comes back empty-handed only from an empty queue, and otherwise
      with the item of its ticket; behind a push the item stands where the pop with its ticket will look. */
  lemma Returns(run: seq<State>, i: nat, t: nat)
    requires Run(run) && i + 1 < |run| && t < |run[i].threads| && t < |run[i + 1].threads|
    requires run[i].threads[t] != Outside && run[i + 1].threads[t] == Outside
    ensures var s, s', pc := run[i], run[i + 1], run[i].threads[t];
            && s'.spp > 0 && |s'.lanes| == N_QUEUE && s.head <= s.tail == |s.pushed| == |s'.pushed|
            && (SeeksTicket(pc) ==> Queue(s) == [])
            && (HoldsPop(pc) ==> pc.k < |s'.pushed| && pc.k in s'.popped && s'.popped[pc.k] == s'.pushed[pc.k])
            && (HoldsPush(pc) ==>
                  OrdOf(pc.k) < TailOrd(s'.lanes[LaneOf(pc.k)])
                  && Present(s'.spp, s'.lanes[LaneOf(pc.k)], s'.pushed, LaneOf(pc.k), OrdOf(pc.k)))
            && (SeeksTicket(pc) || HoldsPop(pc) || HoldsPush(pc))
  {
    var s, s', pc := run[i], run[i + 1], run[i].threads[t];
    assert Step(s, s');
    RunInv(run, i);
    RunInv(run, i + 1);
    RunAccounted(run, i);
    HeadReadRun(run, i);
    HeadBehind(s);
    LanesAre(s');
    hide *;
    Sites(pc);
    if SeeksTicket(pc) {
      Seeking(s, s', t);
      NothingQueued(s);
    } else {
      TicketStep(s, s', t);
      LaneKeeps(s, s', t);
      if HoldsPop(pc) { PopReturns(s, s', t); } else { PushReturns(s, s', t); }
    }
    NotBoth(pc);
  }

  lemma Sites(pc: Pc)
    requires pc != Outside
    ensures SeeksTicket(pc) || HoldsPop(pc) || HoldsPush(pc)
  {
  }

  lemma NotBoth(pc: Pc)
    ensures SeeksTicket(pc) ==> !HoldsPop(pc) && !HoldsPush(pc)
    ensures HoldsPop(pc) ==> !HoldsPush(pc)
    ensures !HoldsPop(Outside) && !HoldsPush(Outside)
  {
  }

  lemma NothingQueued(s: State)
    requires s.head == s.tail == |s.pushed|
    ensures Queue(s) == []
  {
  }

  lemma LaneKeeps(s: State, s': State, t: nat)
    requires LaneStep(s, s', t)
    ensures s'.spp == s.spp && s'.pushed == s.pushed
  {
    hide PushStep, PopStep, Delivered;
  }

  // ---- everything under way can be brought to its end ------------------------------------------

  /** How far an operation is from its return; a pop that read an older head counter has to try once more. */
  function Way(pc: Pc, head: nat): nat {
    match pc
    case PopTail(k) => if k == head then 11 else 13
    case PopCas(k) => if k == head then 10 else 12
    case PopWaitHead(_) => 9
    case PopWaitTail(_) => 8
    case PopPage(_) => 7
    case PopTest(_, _) => 6
    case PopTake(_, _) => 5
    case PopUnlink(_, _) => 4
    case PopBump(_, _) => 3
    case PopFree(_, _) => 2
    case PopLost(_) => 0
    case PushAlloc(_) => 6
    case PushWait(_) => 5
    case PushLink(_) => 4
    case PushStore(_, _) => 3
    case PushMark(_, _) => 2
    case PushBump(_, _) => 1
    case Outside => 0
  }

  function Ways(threads: seq<Pc>, head: nat): nat {
    if threads == [] then 0 else Ways(threads[..|threads| - 1], head) + Way(threads[|threads| - 1], head)
  }

  lemma {:induction false} WaysUpdate(threads: seq<Pc>, t: nat, pc: Pc, head: nat)
    requires t < |threads|
    ensures Ways(threads[t := pc], head) == Ways(threads, head) - Way(threads[t], head) + Way(pc, head)
  {
    var n := |threads| - 1;
    if t < n {
      assert threads[t := pc][..n] == threads[..n][t := pc];
      WaysUpdate(threads[..n], t, pc, head);
    } else {
      assert threads[t := pc][..n] == threads[..n];
    }
  }

  /** Every step on a lane brings its operation nearer to its end. */
  lemma LaneNearer(s: State, s': State, t: nat)
    requires LaneStep(s, s', t) && |s.lanes| == N_QUEUE
    ensures Way(s'.threads[t], s'.head) < Way(s.threads[t], s.head) && s'.head == s.head && s'.tail == s.tail
  {
    hide PageOf, IdxOf, OrdOf, LaneOf, SetItem, SetMask, SetNext, Delivered;
  }

  lemma SeekNearer(s: State, s': State, t: nat)
    requires s.head <= s.tail && HeadRead(s) && (ReadTail(s, s', t) || Cas(s, s', t)) && s'.head == s.head
    ensures Way(s'.threads[t], s'.head) < Way(s.threads[t], s.head)
  {
  }

  lemma SeekMover(s: State, s': State, t: nat)
    requires ReadTail(s, s', t) || Cas(s, s', t)
    ensures t < |s.threads| == |s'.threads| && s'.threads == s.threads[t := s'.threads[t]]
    ensures s'.tail == s.tail
    ensures s'.head == s.head || s'.head == s.head + 1
  {
  }

  /** In every reachable state with an operation under way, one of them can make a step that takes a queued
      item or brings it nearer to its end. */
  lemma SomeoneNearer(s: State) returns (u: nat, s': State)
    requires Inv(s) && Accounted(s) && HeadRead(s) && exists t :: 0 <= t < |s.threads| && s.threads[t] != Outside
    ensures u < |s.threads| && s.threads[u] != Outside && (LaneStep(s, s', u) || ReadTail(s, s', u) || Cas(s, s', u))
    ensures |s'.threads| == |s.threads| && s'.tail == s.tail
    ensures s'.head > s.head || (s'.head == s.head && Ways(s'.threads, s'.head) < Ways(s.threads, s.head))
  {
    hide *;
    HeadBehind(s);
    LanesAre(s);
    var t :| 0 <= t < |s.threads| && s.threads[t] != Outside;
    u, s' := Progress(s, t);
    if LaneStep(s, s', u) {
      LaneThreads(s, s', u);
      LaneNearer(s, s', u);
      WaysUpdate(s.threads, u, s'.threads[u], s.head);
    } else {
      SeekMover(s, s', u);
      if s'.head == s.head {
        SeekNearer(s, s', u);
        WaysUpdate(s.threads, u, s'.threads[u], s.head);
      }
    }
  }

  lemma RunOn(run: seq<State>, s': State)
    requires Run(run) && Step(run[|run| - 1], s')
    ensures Run(run + [s'])
  {
    hide Step, Init;
    var more := run + [s'];
    forall i | 0 <= i < |more| - 1 ensures Step(more[i], more[i + 1]) {
      if i < |run| - 1 { assert Step(run[i], run[i + 1]); }
    }
  }

  /** No operation is under way. */
  ghost predicate AtRest(s: State) {
    forall t :: 0 <= t < |s.threads| ==> s.threads[t] == Outside
  }

  /** Every run has a continuation, without any further operation begun, in which every operation returns. */
  lemma {:induction false} CanFinish(run: seq<State>) returns (all: seq<State>)
    requires Run(run)
    ensures Run(all) && |run| <= |all| && all[..|run|] == run
    ensures AtRest(all[|all| - 1]) && all[|all| - 1].tail == run[|run| - 1].tail
    decreases run[|run| - 1].tail - run[|run| - 1].head, Ways(run[|run| - 1].threads, run[|run| - 1].head)
  {
    hide Inv, Accounted, HeadRead, LaneStep, ReadTail, Cas, Ways, Init;
    var s := run[|run| - 1];
    RunInv(run, |run| - 1);
    RunAccounted(run, |run| - 1);
    HeadReadRun(run, |run| - 1);
    if AtRest(s) {
      all := run;
    } else {
      var u, s' := SomeoneNearer(s);
      StepInv(s, s');
      HeadBehind(s');
      RunOn(run, s');
      hide Run;
      all := CanFinish(run + [s']);
      assert all[..|run|] == all[..|run| + 1][..|run|] == run;
    }
  }
}
