/** The ticket queue as its users see it: a first-in first-out queue whose operations take effect in one
    step each, and whose waiting always ends. */
module QueueOrder {
  import opened ConcurrentQueue

  // ---- first in, first out -------------------------------------------------------------------

  /** The items whose tickets have been taken by a push and not yet by a pop. */
  ghost function Queue(s: State): seq<Item>
    requires s.head <= s.tail <= |s.pushed|
  {
    s.pushed[s.head..s.tail]
  }

  /** What one atomic step is to the queue: an item at the end, the first item taken, the answer that the
      queue is empty, or nothing. */
  datatype Op = Enqueue(v: Item) | Dequeue(v: Item) | Empty | Silent

  ghost predicate Fifo(q: seq<Item>, q': seq<Item>, op: Op) {
    match op
    case Enqueue(v) => q' == q + [v]
    case Dequeue(v) => q != [] && q[0] == v && q' == q[1..]
    case Empty => q == [] && q' == q
    case Silent => q' == q
  }

  /** Where the operations of a thread take effect: a push when it takes its ticket, a successful pop when it
      exchanges the head counter, a failing pop when it reads the tail counter. A pop that has not got a
      ticket leaves in no other case; only the thread itself moves. */
  ghost predicate EffectOf(s: State, s': State, t: nat, op: Op) {
    && t < |s.threads| == |s'.threads| && s'.threads == s.threads[t := s'.threads[t]]
    && (op.Enqueue? <==> s.threads[t] == Outside && s'.threads[t] == PushAlloc(s.tail))
    && (op.Dequeue? <==> s.threads[t].PopCas? && s'.threads[t].PopWaitHead?)
    && (op.Empty? <==> (s.threads[t].PopTail? || s.threads[t].PopCas?) && s'.threads[t] == Outside)
  }

  /** A pop has read the head counter before. */
  ghost predicate HeadRead(s: State) {
    forall t :: 0 <= t < |s.threads| && s.threads[t].PopTail? ==> s.threads[t].k <= s.head
  }

  lemma HeadReadStep(s: State, s': State)
    requires HeadRead(s) && Step(s, s')
    ensures HeadRead(s')
  {
    hide PushStep, PopStep, Delivered, LaneOf;
    if t: nat :| LaneStep(s, s', t) { LaneThread(s, s', t); }
  }

  lemma LaneThread(s: State, s': State, t: nat)
    requires LaneStep(s, s', t)
    ensures !s'.threads[t].PopTail? && s'.head == s.head && s'.tail == s.tail && s'.pushed == s.pushed
    ensures s'.threads[t] != PushAlloc(s.tail) || s.threads[t] != Outside
    ensures s.threads[t] != Outside && !s.threads[t].PopCas? && !s.threads[t].PopTail?
  {
    hide PageOf, IdxOf, OrdOf, LaneOf, SetItem, SetMask, SetNext, Delivered;
  }

  lemma {:induction false} HeadReadRun(run: seq<State>, i: nat)
    requires Run(run) && i < |run|
    ensures HeadRead(run[i])
    decreases i
  {
    hide Step;
    if i > 0 {
      HeadReadRun(run, i - 1);
      HeadReadStep(run[i - 1], run[i - 1 + 1]);
    }
  }

  /** Every step is one operation of a first-in first-out queue, or none. */
  lemma RefinesFifo(run: seq<State>, i: nat) returns (t: nat, op: Op)
    requires Run(run) && i + 1 < |run|
    ensures run[i].head <= run[i].tail == |run[i].pushed| && run[i + 1].head <= run[i + 1].tail == |run[i + 1].pushed|
    ensures Fifo(Queue(run[i]), Queue(run[i + 1]), op) && EffectOf(run[i], run[i + 1], t, op)
  {
    RunInv(run, i);
    RunInv(run, i + 1);
    HeadReadRun(run, i);
    assert Step(run[i], run[i + 1]);
    hide Run;
    t, op := StepIsFifo(run[i], run[i + 1]);
  }

  lemma StepIsFifo(s: State, s': State) returns (t: nat, op: Op)
    requires Inv(s) && Inv(s') && HeadRead(s) && Step(s, s')
    ensures s.head <= s.tail == |s.pushed| && s'.head <= s'.tail == |s'.pushed|
    ensures Fifo(Queue(s), Queue(s'), op) && EffectOf(s, s', t, op)
  {
    hide LaneStep, LaneOk, ThreadOk, ConcurrentQueue.Apart;
    if u: nat, v: Item :| StartPush(s, s', u, v) {
      t, op := u, Enqueue(v);
    } else if u: nat :| StartPop(s, s', u) {
      t, op := u, Silent;
    } else if u: nat :| ReadTail(s, s', u) {
      t, op := u, if s.tail - s.threads[u].k <= 0 then Empty else Silent;
    } else if u: nat :| Cas(s, s', u) {
      t, op := u, Silent;
      if s.head == s.threads[u].k {
        assert ThreadOk(s, s.threads[u]);
        CasBelowTail(s, u);
        op := Dequeue(s.pushed[s.head]);
      }
    } else {
      var u: nat :| LaneStep(s, s', u);
      LaneThread(s, s', u);
      LaneThreads(s, s', u);
      t, op := u, Silent;
    }
  }

  lemma LaneThreads(s: State, s': State, t: nat)
    requires LaneStep(s, s', t)
    ensures t < |s.threads| == |s'.threads| && s'.threads == s.threads[t := s'.threads[t]]
    ensures HoldsPush(s.threads[t]) || HoldsPop(s.threads[t])
  {
    hide PushStep, PopStep, Delivered;
  }

  lemma CasBelowTail(s: State, t: nat)
    requires t < |s.threads| && s.threads[t].PopCas? && ThreadOk(s, s.threads[t])
    ensures s.threads[t].k < s.tail
  {
  }

  // ---- waiting ends -------------------------------------------------------------------------------

  lemma LaneFacts(s: State, t: nat)
    requires Inv(s) && t < |s.threads| && (HoldsPush(s.threads[t]) || HoldsPop(s.threads[t]))
    ensures s.spp > 0 && |s.lanes| == N_QUEUE && LaneOf(s.threads[t].k) < N_QUEUE
    ensures var l := s.lanes[LaneOf(s.threads[t].k)]; CountersOk(l) && SizesOk(s.spp, l) && ThreadOk(s, s.threads[t])
  {
    var i := LaneOf(s.threads[t].k);
    assert LaneOk(s, s.lanes[i], i) && ThreadOk(s, s.threads[t]);
    hide ThreadOk, BoundsOk, ChainOk, ContentOk, CountersOk, SizesOk;
  }

  ghost function WithLane(s: State, t: nat, l': Lane, pc': Pc): State
    requires s.spp > 0 && t < |s.threads| && |s.lanes| == N_QUEUE && (HoldsPush(s.threads[t]) || HoldsPop(s.threads[t]))
  {
    var i := LaneOf(s.threads[t].k);
    s.(lanes := s.lanes[i := l'], threads := s.threads[t := pc'], popped := Delivered(s, s.threads[t], s.lanes[i]))
  }

  lemma MakesStep(s: State, t: nat, l': Lane, pc': Pc)
    requires s.spp > 0 && t < |s.threads| && |s.lanes| == N_QUEUE && (HoldsPush(s.threads[t]) || HoldsPop(s.threads[t]))
    requires var l := s.lanes[LaneOf(s.threads[t].k)];
             PushStep(s.spp, s.pushed, l, l', s.threads[t], pc') || PopStep(s.spp, l, l', s.threads[t], pc')
    ensures LaneStep(s, WithLane(s, t, l', pc'), t)
  {
    hide PushStep, PopStep, Delivered;
  }

  /** A push that does not wait, or whose turn has come, can go on. */
  lemma PushGoes(s: State, t: nat) returns (s': State)
    requires Inv(s) && t < |s.threads| && HoldsPush(s.threads[t]) && |s.lanes| == N_QUEUE
    requires s.threads[t].PushWait? ==> OrdOf(s.threads[t].k) == TailOrd(s.lanes[LaneOf(s.threads[t].k)])
    ensures LaneStep(s, s', t)
  {
    LaneFacts(s, t);
    PagesInUse(s, t);
    var pc := s.threads[t];
    var l, o := s.lanes[LaneOf(pc.k)], OrdOf(pc.k);
    assert pc.k < |s.pushed|;
    hide Inv, LaneOf, OrdOf, PageOf;
    var l', pc' := l, Outside;
    match pc {
      case PushAlloc(k) =>
        l' := if IdxOf(o, s.spp) == 0 then l.(pages := l.pages[PageOf(o, s.spp) := EmptyPage(s.spp)]) else l;
        pc' := PushWait(k);
      case PushWait(k) => pc' := PushLink(k);
      case PushLink(k) =>
        if IdxOf(o, s.spp) != 0 {
          pc' := PushStore(k, l.tailPage);
        } else {
          var p := PageOf(o, s.spp);
          pc' := PushStore(k, p);
          l' := (if l.tailPage != NULL then SetNext(l, l.tailPage, p) else l.(headPage := p)).(tailPage := p, linked := l.linked + 1);
        }
      case PushStore(k, p) => l', pc' := SetItem(l, p, IdxOf(o, s.spp), s.pushed[k]), PushMark(k, p);
      case PushMark(k, p) => l', pc' := SetMask(l, p, IdxOf(o, s.spp)), PushBump(k, p);
      case PushBump(k, p) => l' := l.(tailCounter := l.tailCounter + N_QUEUE);
    }
    MakesStep(s, t, l', pc');
    s' := WithLane(s, t, l', pc');
  }

  /** A pop whose turn has come, and whose item has been pushed, can go on. */
  lemma PopGoes(s: State, t: nat) returns (s': State)
    requires Inv(s) && t < |s.threads| && HoldsPop(s.threads[t]) && |s.lanes| == N_QUEUE
    requires var l, o := s.lanes[LaneOf(s.threads[t].k)], OrdOf(s.threads[t].k);
             (s.threads[t].PopWaitHead? ==> o == HeadOrd(l)) && (s.threads[t].PopWaitTail? ==> o < TailOrd(l))
    ensures LaneStep(s, s', t)
  {
    hide Inv, LaneOf, OrdOf, PageOf;
    LaneFacts(s, t);
    PagesInUse(s, t);
    var pc := s.threads[t];
    var l, o := s.lanes[LaneOf(pc.k)], OrdOf(pc.k);
    var l', pc' := l, Outside;
    match pc {
      case PopWaitHead(k) => pc' := PopWaitTail(k);
      case PopWaitTail(k) => pc' := PopPage(k);
      case PopPage(k) => pc' := PopTest(k, l.headPage);
      case PopTest(k, p) => pc' := if l.pages[p].mask[IdxOf(o, s.spp)] then PopTake(k, p) else PopLost(k);
      case PopTake(k, p) => pc' := PopUnlink(k, p);
      case PopUnlink(k, p) =>
        pc' := PopBump(k, p);
        if IdxOf(o, s.spp) == s.spp - 1 {
          var q := l.pages[p].next;
          l' := l.(headPage := q, tailPage := if q == NULL then NULL else l.tailPage, unlinked := l.unlinked + 1);
        }
      case PopBump(k, p) =>
        pc' := if IdxOf(o, s.spp) == s.spp - 1 then PopFree(k, p) else Outside;
        l' := l.(headCounter := N_QUEUE * o + N_QUEUE);
      case PopFree(k, p) => l' := l.(pages := l.pages - {p});
    }
    MakesStep(s, t, l', pc');
    s' := WithLane(s, t, l', pc');
  }

  lemma TurnTicket(s: State, k: nat, o: nat) returns (k0: nat)
    requires Inv(s) && o <= OrdOf(k)
    ensures k0 <= k && LaneOf(k0) == LaneOf(k) && OrdOf(k0) == o && LaneOf(k) < |s.lanes|
  {
    TicketBijection(k);
    k0 := TicketOf(LaneOf(k), o);
    TicketInverse(LaneOf(k), o);
    TicketOrder(LaneOf(k), o, OrdOf(k));
    hide LaneOk, ThreadOk;
  }

  /** As long as a push of a lane is not complete, the one whose turn it is can go on. */
  lemma SomePushGoes(s: State, k: nat) returns (u: nat, s': State)
    requires Inv(s) && Accounted(s) && k < s.tail && LaneOf(k) < |s.lanes| && TailOrd(s.lanes[LaneOf(k)]) <= OrdOf(k)
    ensures LaneStep(s, s', u) && u < |s.threads| && s.threads[u] != Outside
  {
    var k0 := TurnTicket(s, k, TailOrd(s.lanes[LaneOf(k)]));
    hide Inv, LaneOf, OrdOf;
    assert BeingPushed(s, k0);
    u :| 0 <= u < |s.threads| && HoldsPush(s.threads[u]) && s.threads[u].k == k0;
    s' := PushGoes(s, u);
  }

  /** As long as a pop of a lane is not complete, the one whose turn it is can go on, or the push it waits for. */
  lemma SomePopGoes(s: State, k: nat) returns (u: nat, s': State)
    requires Inv(s) && Accounted(s) && k < s.head && LaneOf(k) < |s.lanes| && HeadOrd(s.lanes[LaneOf(k)]) <= OrdOf(k)
    ensures LaneStep(s, s', u) && u < |s.threads| && s.threads[u] != Outside
  {
    var l := s.lanes[LaneOf(k)];
    var k0 := TurnTicket(s, k, HeadOrd(l));
    HeadBehind(s);
    hide Inv, LaneOf, OrdOf;
    assert HoldingHead(s, k0);
    u :| 0 <= u < |s.threads| && HoldsPop(s.threads[u]) && !s.threads[u].PopFree? && s.threads[u].k == k0;
    if s.threads[u].PopWaitTail? && TailOrd(l) <= OrdOf(k0) {
      u, s' := SomePushGoes(s, k0);
    } else {
      s' := PopGoes(s, u);
    }
  }

  lemma HeadBehind(s: State)
    requires Inv(s)
    ensures s.head <= s.tail == |s.pushed|
  {
    hide LaneOk, ThreadOk;
  }

  lemma Turns(s: State, t: nat)
    requires Inv(s) && t < |s.threads| && (HoldsPush(s.threads[t]) || HoldsPop(s.threads[t]))
    ensures LaneOf(s.threads[t].k) < |s.lanes| && s.head <= s.tail
    ensures var l, o := s.lanes[LaneOf(s.threads[t].k)], OrdOf(s.threads[t].k);
            && (HoldsPush(s.threads[t]) ==> s.threads[t].k < s.tail && TailOrd(l) <= o)
            && (HoldsPop(s.threads[t]) ==> s.threads[t].k < s.head && (!s.threads[t].PopFree? ==> HeadOrd(l) <= o))
  {
    LaneFacts(s, t);
    HeadBehind(s);
    hide Inv, LaneOf, OrdOf, PageOf, IdxOf;
  }

  /** In every reachable state with an operation under way, some operation under way can make a step: no
      waiting is in vain. */
  lemma Progress(s: State, t: nat) returns (u: nat, s': State)
    requires Inv(s) && Accounted(s) && t < |s.threads| && s.threads[t] != Outside
    ensures u < |s.threads| && s.threads[u] != Outside && (LaneStep(s, s', u) || ReadTail(s, s', u) || Cas(s, s', u))
  {
    var pc := s.threads[t];
    u := t;
    if pc.PopTail? {
      s' := s.(threads := s.threads[t := if s.tail - pc.k <= 0 then Outside else PopCas(pc.k)]);
    } else if pc.PopCas? {
      s' := if s.head == pc.k then s.(head := s.head + 1, threads := s.threads[t := PopWaitHead(pc.k)])
            else s.(threads := s.threads[t := PopTail(s.head)]);
    } else {
      Turns(s, t);
      hide Inv, Accounted, LaneOf, OrdOf, LaneStep;
      var l, o := s.lanes[LaneOf(pc.k)], OrdOf(pc.k);
      if HoldsPush(pc) {
        if pc.PushWait? { u, s' := SomePushGoes(s, pc.k); } else { LanesAre(s); s' := PushGoes(s, t); }
      } else if pc.PopWaitHead? || (pc.PopWaitTail? && o < TailOrd(l)) {
        u, s' := SomePopGoes(s, pc.k);
      } else if pc.PopWaitTail? {
        u, s' := SomePushGoes(s, pc.k);
      } else {
        LanesAre(s);
        s' := PopGoes(s, t);
      }
    }
  }

  lemma LanesAre(s: State)
    requires Inv(s)
    ensures |s.lanes| == N_QUEUE
  {
    hide LaneOk, ThreadOk;
  }

  /** The same along a run. */
  lemma WaitingEnds(run: seq<State>, i: nat, t: nat) returns (u: nat, s': State)
    requires Run(run) && i < |run| && t < |run[i].threads| && run[i].threads[t] != Outside
    ensures u < |run[i].threads| && run[i].threads[u] != Outside && Step(run[i], s')
    ensures LaneStep(run[i], s', u) || ReadTail(run[i], s', u) || Cas(run[i], s', u)
  {
    RunInv(run, i);
    RunAccounted(run, i);
    u, s' := Progress(run[i], t);
    hide LaneStep, ReadTail, Cas;
  }
}
