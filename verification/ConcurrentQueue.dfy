/** The ticketed queue that carries the jobs: eight lanes of linked pages, a global ticket counter
    for each end, and per lane a counter that says whose turn it is. Any number of producers and
    consumers, atomic steps in any order. */
module ConcurrentQueue {

  type Item = nat

  const N_QUEUE := 8
  const PHI := 3
  const NULL := -1

  /** index: the lane of a ticket. */
  function LaneOf(k: nat): (i: nat)
    ensures i < N_QUEUE
  {
    k * PHI % N_QUEUE
  }

  /** The rounded ticket k & -8, counted in steps of eight. */
  function OrdOf(k: nat): nat {
    k / N_QUEUE
  }

  function TicketOf(i: nat, o: nat): nat {
    N_QUEUE * o + i * PHI % N_QUEUE
  }

  /** In every lane each rounded ticket value belongs to exactly one ticket. */
  lemma TicketBijection(k: nat)
    ensures TicketOf(LaneOf(k), OrdOf(k)) == k
  {
  }

  lemma TicketInverse(i: nat, o: nat)
    requires i < N_QUEUE
    ensures LaneOf(TicketOf(i, o)) == i && OrdOf(TicketOf(i, o)) == o
  {
    var r := i * PHI % N_QUEUE;
    assert r * PHI % N_QUEUE == i by { LaneInverse(i); }
    assert (N_QUEUE * o + r) * PHI == N_QUEUE * (PHI * o) + r * PHI;
    ModShift(PHI * o, r * PHI);
  }

  lemma LaneInverse(i: nat)
    requires i < N_QUEUE
    ensures (i * PHI % N_QUEUE) * PHI % N_QUEUE == i
  {
    if i < 3 {} else if i < 6 {} else {}
  }

  lemma ModShift(a: nat, b: nat)
    ensures (N_QUEUE * a + b) % N_QUEUE == b % N_QUEUE
  {
  }

  // ---- positions in pages ----------------------------------------------------------

  function PageOf(o: nat, spp: nat): nat
    requires spp > 0
  {
    o / spp
  }

  function IdxOf(o: nat, spp: nat): (x: nat)
    requires spp > 0
    ensures x < spp
  {
    o % spp
  }

  lemma DivFacts(a: nat, b: nat, s: nat)
    requires s > 0 && a < b
    ensures a / s <= b / s
    ensures b % s == 0 || a % s == s - 1 ==> a / s < b / s
    ensures a / s == b / s ==> a % s < b % s
  {
    var qa, qb := a / s, b / s;
    assert a == s * qa + a % s && b == s * qb + b % s;
    if qa > qb {
      MulOrder(qb, qa, s);
    } else if qa < qb {
      MulOrder(qa, qb, s);
    }
  }

  lemma {:induction false} MulOrder(a: nat, b: nat, s: nat)
    requires a < b
    ensures s * a + s <= s * b
    decreases b
  {
    if a < b - 1 { MulOrder(a, b - 1, s); }
    MulStep(b - 1, s);
  }

  lemma MulStep(a: nat, s: nat)
    ensures s * (a + 1) == s * a + s
  {
  }

  /** Later positions stand on later pages, or later on the same page. */
  lemma OrdFacts(a: nat, b: nat, spp: nat)
    requires spp > 0 && a < b
    ensures PageOf(a, spp) <= PageOf(b, spp)
    ensures IdxOf(b, spp) == 0 || IdxOf(a, spp) == spp - 1 ==> PageOf(a, spp) < PageOf(b, spp)
    ensures PageOf(a, spp) == PageOf(b, spp) ==> IdxOf(a, spp) < IdxOf(b, spp)
  {
    DivFacts(a, b, spp);
  }

  lemma NextOrd(o: nat, spp: nat)
    requires spp > 0
    ensures PageOf(o + 1, spp) == if IdxOf(o, spp) == spp - 1 then PageOf(o, spp) + 1 else PageOf(o, spp)
    ensures IdxOf(o + 1, spp) == if IdxOf(o, spp) == spp - 1 then 0 else IdxOf(o, spp) + 1
  {
    var q, r := o / spp, o % spp;
    assert o == spp * q + r;
    if r == spp - 1 {
      assert o + 1 == spp * (q + 1);
      DivUnique(o + 1, q + 1, 0, spp);
    } else {
      DivUnique(o + 1, q, r + 1, spp);
    }
  }

  lemma DivUnique(n: nat, q: nat, r: nat, s: nat)
    requires s > 0 && n == s * q + r && r < s
    ensures n / s == q && n % s == r
  {
    var q', r' := n / s, n % s;
    assert n == s * q' + r';
    if q < q' { MulOrder(q, q', s); } else if q' < q { MulOrder(q', q, s); }
  }

  // ---- state --------------------------------------------------------------------------

  /** A page: link, one presence bit and one item per place. */
  datatype Page = Page(next: int, mask: seq<bool>, items: seq<Item>)

  /** A micro_queue. Pages are named after their position in the lane; those that are allocated are
      in the map. The numbers of pages linked and unlinked so far are kept for the statements. */
  datatype Lane = Lane(headPage: int, tailPage: int, headCounter: nat, tailCounter: nat,
                       pages: map<nat, Page>, unlinked: nat, linked: nat)

  function TailOrd(l: Lane): nat { l.tailCounter / N_QUEUE }
  function HeadOrd(l: Lane): nat { l.headCounter / N_QUEUE }

  /** Where a thread stands, with its ticket and page. */
  datatype Pc =
    | Outside
    | PushAlloc(k: nat) | PushWait(k: nat) | PushLink(k: nat)
    | PushStore(k: nat, p: int) | PushMark(k: nat, p: int) | PushBump(k: nat, p: int)
    | PopTail(k: nat) | PopCas(k: nat) | PopWaitHead(k: nat) | PopWaitTail(k: nat) | PopPage(k: nat)
    | PopTest(k: nat, p: int) | PopLost(k: nat) | PopTake(k: nat, p: int) | PopUnlink(k: nat, p: int)
    | PopBump(k: nat, p: int) | PopFree(k: nat, p: int)

  /** The items handed to push, by ticket, and those delivered by pop, by ticket, are recorded. */
  datatype State = State(spp: nat, head: nat, tail: nat, lanes: seq<Lane>, threads: seq<Pc>,
                         pushed: seq<Item>, popped: map<nat, Item>)

  ghost predicate Init(s: State) {
    && s.spp > 0 && s.head == s.tail == 0 && |s.lanes| == N_QUEUE && s.pushed == [] && s.popped == map[]
    && (forall i :: 0 <= i < |s.lanes| ==> s.lanes[i] == Lane(NULL, NULL, 0, 0, map[], 0, 0))
    && (forall t :: 0 <= t < |s.threads| ==> s.threads[t] == Outside)
  }

  function EmptyPage(spp: nat): Page {
    Page(NULL, seq(spp, _ => false), seq(spp, _ => 0))
  }

  // ---- atomic steps -----------------------------------------------------------------

  function SetNext(l: Lane, p: nat, q: int): Lane
    requires p in l.pages
  {
    l.(pages := l.pages[p := l.pages[p].(next := q)])
  }

  function SetItem(l: Lane, p: nat, x: nat, v: Item): Lane
    requires p in l.pages && x < |l.pages[p].items|
  {
    l.(pages := l.pages[p := l.pages[p].(items := l.pages[p].items[x := v])])
  }

  function SetMask(l: Lane, p: nat, x: nat): Lane
    requires p in l.pages && x < |l.pages[p].mask|
  {
    l.(pages := l.pages[p := l.pages[p].(mask := l.pages[p].mask[x := true])])
  }

  /** A step of micro_queue::push by the thread with ticket k, on the lane of the ticket. */
  ghost predicate PushStep(spp: nat, pushed: seq<Item>, l: Lane, l': Lane, pc: Pc, pc': Pc)
    requires spp > 0
  {
    match pc
    case PushAlloc(k) =>
      && pc' == PushWait(k)
      && l' == if IdxOf(OrdOf(k), spp) == 0 then l.(pages := l.pages[PageOf(OrdOf(k), spp) := EmptyPage(spp)]) else l
    case PushWait(k) => l.tailCounter == N_QUEUE * OrdOf(k) && pc' == PushLink(k) && l' == l
    case PushLink(k) =>
      var p := PageOf(OrdOf(k), spp);
      if IdxOf(OrdOf(k), spp) != 0 then pc' == PushStore(k, l.tailPage) && l' == l
      else
        && pc' == PushStore(k, p)
        && (l.tailPage == NULL || (l.tailPage >= 0 && l.tailPage in l.pages))
        && l' == (if l.tailPage != NULL then SetNext(l, l.tailPage, p) else l.(headPage := p))
                 .(tailPage := p, linked := l.linked + 1)
    case PushStore(k, p) =>
      && 0 <= p && p in l.pages && IdxOf(OrdOf(k), spp) < |l.pages[p].items| && k < |pushed|
      && pc' == PushMark(k, p) && l' == SetItem(l, p, IdxOf(OrdOf(k), spp), pushed[k])
    case PushMark(k, p) =>
      && 0 <= p && p in l.pages && IdxOf(OrdOf(k), spp) < |l.pages[p].mask|
      && pc' == PushBump(k, p) && l' == SetMask(l, p, IdxOf(OrdOf(k), spp))
    case PushBump(k, p) => pc' == Outside && l' == l.(tailCounter := l.tailCounter + N_QUEUE)
    case _ => false
  }

  /** A step of micro_queue::pop, including its finalizer. */
  ghost predicate PopStep(spp: nat, l: Lane, l': Lane, pc: Pc, pc': Pc)
    requires spp > 0
  {
    match pc
    case PopWaitHead(k) => l.headCounter == N_QUEUE * OrdOf(k) && pc' == PopWaitTail(k) && l' == l
    case PopWaitTail(k) => l.tailCounter != N_QUEUE * OrdOf(k) && pc' == PopPage(k) && l' == l
    case PopPage(k) => pc' == PopTest(k, l.headPage) && l' == l
    case PopTest(k, p) =>
      && 0 <= p && p in l.pages && IdxOf(OrdOf(k), spp) < |l.pages[p].mask| && l' == l
      && pc' == if l.pages[p].mask[IdxOf(OrdOf(k), spp)] then PopTake(k, p) else PopLost(k)
    case PopTake(k, p) => 0 <= p && p in l.pages && pc' == PopUnlink(k, p) && l' == l
    case PopUnlink(k, p) =>
      && pc' == PopBump(k, p)
      && if IdxOf(OrdOf(k), spp) != spp - 1 then l' == l
         else
           && 0 <= p && p in l.pages
           && var q := l.pages[p].next;
              l' == l.(headPage := q, tailPage := if q == NULL then NULL else l.tailPage, unlinked := l.unlinked + 1)
    case PopBump(k, p) =>
      && pc' == (if IdxOf(OrdOf(k), spp) == spp - 1 then PopFree(k, p) else Outside)
      && l' == l.(headCounter := N_QUEUE * OrdOf(k) + N_QUEUE)
    case PopFree(k, p) => 0 <= p && pc' == Outside && l' == l.(pages := l.pages - {p})
    case _ => false
  }

  predicate HoldsPush(pc: Pc) {
    pc.PushAlloc? || pc.PushWait? || pc.PushLink? || pc.PushStore? || pc.PushMark? || pc.PushBump?
  }

  predicate HoldsPop(pc: Pc) {
    pc.PopWaitHead? || pc.PopWaitTail? || pc.PopPage? || pc.PopTest? || pc.PopLost? || pc.PopTake? || pc.PopUnlink?
    || pc.PopBump? || pc.PopFree?
  }

  ghost predicate LaneStep(s: State, s': State, t: nat) {
    && s.spp > 0 && t < |s.threads| && (HoldsPush(s.threads[t]) || HoldsPop(s.threads[t]))
    && var k := s.threads[t].k;
       var i := LaneOf(k);
       && i < |s.lanes| && |s'.lanes| == |s.lanes| && |s'.threads| == |s.threads|
       && (PushStep(s.spp, s.pushed, s.lanes[i], s'.lanes[i], s.threads[t], s'.threads[t])
           || PopStep(s.spp, s.lanes[i], s'.lanes[i], s.threads[t], s'.threads[t]))
       && s' == s.(lanes := s.lanes[i := s'.lanes[i]], threads := s.threads[t := s'.threads[t]], popped := s'.popped)
       && s'.popped == Delivered(s, s.threads[t], s.lanes[i])
  }

  /** Taking the item out of the page delivers it to the caller. */
  function Delivered(s: State, pc: Pc, l: Lane): map<nat, Item>
    requires s.spp > 0
  {
    if pc.PopTake? && 0 <= pc.p && pc.p in l.pages && IdxOf(OrdOf(pc.k), s.spp) < |l.pages[pc.p].items|
    then s.popped[pc.k := l.pages[pc.p].items[IdxOf(OrdOf(pc.k), s.spp)]]
    else s.popped
  }

  /** internal_push takes the next ticket. */
  ghost predicate StartPush(s: State, s': State, t: nat, v: Item) {
    && t < |s.threads| && s.threads[t] == Outside
    && s' == s.(tail := s.tail + 1, pushed := s.pushed + [v], threads := s.threads[t := PushAlloc(s.tail)])
  }

  /** internal_try_pop reads the head counter. */
  ghost predicate StartPop(s: State, s': State, t: nat) {
    t < |s.threads| && s.threads[t] == Outside && s' == s.(threads := s.threads[t := PopTail(s.head)])
  }

  /** The comparison with the tail counter: give up, or try to get the ticket. */
  ghost predicate ReadTail(s: State, s': State, t: nat) {
    && t < |s.threads| && s.threads[t].PopTail?
    && s' == s.(threads := s.threads[t := if s.tail - s.threads[t].k <= 0 then Outside else PopCas(s.threads[t].k)])
  }

  /** compare_and_swap on the head counter. */
  ghost predicate Cas(s: State, s': State, t: nat) {
    && t < |s.threads| && s.threads[t].PopCas?
    && s' == if s.head == s.threads[t].k
             then s.(head := s.head + 1, threads := s.threads[t := PopWaitHead(s.threads[t].k)])
             else s.(threads := s.threads[t := PopTail(s.head)])
  }

  ghost predicate Step(s: State, s': State) {
    || (exists t: nat, v: Item :: StartPush(s, s', t, v)) || (exists t: nat :: StartPop(s, s', t))
    || (exists t: nat :: ReadTail(s, s', t)) || (exists t: nat :: Cas(s, s', t)) || (exists t: nat :: LaneStep(s, s', t))
  }

  ghost predicate Run(run: seq<State>) {
    run != [] && Init(run[0]) && forall i :: 0 <= i < |run| - 1 ==> Step(run[i], run[i + 1])
  }

  // ---- invariant of a lane ------------------------------------------------------------

  /** Counters move in steps of eight, and the head never passes the tail. */
  ghost predicate CountersOk(l: Lane) {
    && l.tailCounter == N_QUEUE * TailOrd(l) && l.headCounter == N_QUEUE * HeadOrd(l)
    && HeadOrd(l) <= TailOrd(l) && l.unlinked <= l.linked
  }

  /** Page pos has been linked if a completed push lies on it; one push may be ahead. */
  ghost predicate BoundsOk(spp: nat, l: Lane, i: nat, head: nat, tail: nat)
    requires spp > 0
  {
    var h, t := HeadOrd(l), TailOrd(l);
    && (l.linked == PageOf(t, spp) + (if IdxOf(t, spp) > 0 then 1 else 0)
        || (IdxOf(t, spp) == 0 && l.linked == PageOf(t, spp) + 1 && TicketOf(i, t) < tail))
    && (l.unlinked == PageOf(h, spp)
        || (IdxOf(h, spp) == spp - 1 && l.unlinked == PageOf(h, spp) + 1 && h < t && TicketOf(i, h) < head))
    && (t > 0 ==> TicketOf(i, t - 1) < tail) && (h > 0 ==> TicketOf(i, h - 1) < head)
  }

  /** From head page to tail page the links lead through exactly the pages that are in use. */
  ghost predicate ChainOk(l: Lane) {
    && (l.unlinked == l.linked ==> l.headPage == NULL && l.tailPage == NULL)
    && (l.unlinked < l.linked ==> l.headPage == l.unlinked && l.tailPage == l.linked - 1)
    && (forall j: nat :: l.unlinked <= j < l.linked ==>
          j in l.pages && l.pages[j].next == if j + 1 < l.linked then j + 1 else NULL)
  }

  ghost predicate SizesOk(spp: nat, l: Lane) {
    forall j :: j in l.pages ==> |l.pages[j].mask| == spp && |l.pages[j].items| == spp
  }

  /** The item of a completed push that has not been unlinked. */
  ghost predicate Present(spp: nat, l: Lane, pushed: seq<Item>, i: nat, o: nat)
    requires spp > 0
  {
    var p, x := PageOf(o, spp), IdxOf(o, spp);
    && p in l.pages && x < |l.pages[p].mask| && x < |l.pages[p].items|
    && l.pages[p].mask[x] && TicketOf(i, o) < |pushed| && l.pages[p].items[x] == pushed[TicketOf(i, o)]
  }

  ghost predicate ContentOk(spp: nat, l: Lane, pushed: seq<Item>, i: nat)
    requires spp > 0
  {
    forall o: nat :: o < TailOrd(l) && l.unlinked <= PageOf(o, spp) ==> Present(spp, l, pushed, i, o)
  }

  ghost predicate LaneOk(s: State, l: Lane, i: nat) {
    && s.spp > 0 && CountersOk(l) && BoundsOk(s.spp, l, i, s.head, s.tail) && ChainOk(l) && SizesOk(s.spp, l)
    && ContentOk(s.spp, l, s.pushed, i)
  }

  // ---- invariant of a thread ----------------------------------------------------------

  /** The page of a ticket at the start of a page is allocated but not linked. */
  ghost predicate PrivatePage(spp: nat, l: Lane, o: nat)
    requires spp > 0
  {
    IdxOf(o, spp) == 0 ==> PageOf(o, spp) in l.pages && l.pages[PageOf(o, spp)].next == NULL
  }

  ghost predicate Unlinked(spp: nat, l: Lane, o: nat)
    requires spp > 0
  {
    IdxOf(o, spp) == 0 ==> l.linked <= PageOf(o, spp)
  }

  ghost predicate PushOk(spp: nat, l: Lane, pushed: seq<Item>, pc: Pc)
    requires spp > 0 && HoldsPush(pc)
  {
    var o := OrdOf(pc.k);
    var x := IdxOf(o, spp);
    && pc.k < |pushed| && TailOrd(l) <= o
    && (pc.PushAlloc? ==> Unlinked(spp, l, o))
    && (pc.PushWait? || pc.PushLink? ==> Unlinked(spp, l, o) && PrivatePage(spp, l, o))
    && (!pc.PushAlloc? && !pc.PushWait? ==> o == TailOrd(l))
    && (pc.PushStore? || pc.PushMark? || pc.PushBump? ==> pc.p == PageOf(o, spp) && l.linked == pc.p + 1)
    && (pc.PushMark? || pc.PushBump? ==>
          pc.p in l.pages && x < |l.pages[pc.p].items| && l.pages[pc.p].items[x] == pushed[pc.k])
    && (pc.PushBump? ==> x < |l.pages[pc.p].mask| && l.pages[pc.p].mask[x])
  }

  ghost predicate PopOk(spp: nat, l: Lane, head: nat, popped: map<nat, Item>, pc: Pc)
    requires spp > 0 && HoldsPop(pc)
  {
    var o := OrdOf(pc.k);
    && pc.k < head && !pc.PopLost?
    && (pc.PopWaitHead? || pc.PopWaitTail? || pc.PopPage? || pc.PopTest? || pc.PopTake? ==> pc.k !in popped)
    && (if pc.PopFree? then
          o < HeadOrd(l) && IdxOf(o, spp) == spp - 1 && pc.p == PageOf(o, spp) < l.unlinked && pc.p in l.pages
        else HeadOrd(l) <= o && (pc.PopWaitHead? || o == HeadOrd(l)))
    && (pc.PopPage? || pc.PopTest? || pc.PopTake? || pc.PopUnlink? || pc.PopBump? ==> o < TailOrd(l))
    && (pc.PopTest? || pc.PopTake? || pc.PopUnlink? || pc.PopBump? ==> pc.p == PageOf(o, spp))
    && (!pc.PopFree? && !pc.PopBump? && o == HeadOrd(l) ==> l.unlinked == PageOf(o, spp))
    && (pc.PopBump? ==> l.unlinked == pc.p + (if IdxOf(o, spp) == spp - 1 then 1 else 0) && pc.p in l.pages)
  }

  ghost predicate ThreadOk(s: State, pc: Pc) {
    && s.spp > 0 && |s.lanes| == N_QUEUE
    && (HoldsPush(pc) ==> PushOk(s.spp, s.lanes[LaneOf(pc.k)], s.pushed, pc))
    && (HoldsPop(pc) ==> PopOk(s.spp, s.lanes[LaneOf(pc.k)], s.head, s.popped, pc))
    && (pc.PopCas? ==> pc.k < s.tail)
  }

  /** No two threads hold the same ticket. */
  ghost predicate Apart(pc: Pc, pc2: Pc) {
    && (HoldsPush(pc) && HoldsPush(pc2) ==> pc.k != pc2.k)
    && (HoldsPop(pc) && HoldsPop(pc2) ==> pc.k != pc2.k)
  }

  ghost predicate Inv(s: State) {
    && s.spp > 0 && |s.lanes| == N_QUEUE && |s.pushed| == s.tail && s.head <= s.tail
    && (forall i :: 0 <= i < |s.lanes| ==> LaneOk(s, s.lanes[i], i))
    && (forall t :: 0 <= t < |s.threads| ==> ThreadOk(s, s.threads[t]))
    && (forall t, u :: 0 <= t < u < |s.threads| ==> Apart(s.threads[t], s.threads[u]))
    && (forall k :: k in s.popped ==> k < s.head && s.popped[k] == s.pushed[k])
  }

  // ---- steps keep the lane and the thread that makes them -------------------------------

  lemma OrdsBelow(o: nat, spp: nat)
    requires spp > 0
    ensures forall a: nat :: a < o ==> PageOf(a, spp) <= PageOf(o, spp)
    ensures forall a: nat :: a < o && (IdxOf(o, spp) == 0 || IdxOf(a, spp) == spp - 1) ==> PageOf(a, spp) < PageOf(o, spp)
    ensures forall a: nat :: a < o && PageOf(a, spp) == PageOf(o, spp) ==> IdxOf(a, spp) < IdxOf(o, spp)
  {
    forall a: nat | a < o
      ensures PageOf(a, spp) <= PageOf(o, spp)
      ensures IdxOf(o, spp) == 0 || IdxOf(a, spp) == spp - 1 ==> PageOf(a, spp) < PageOf(o, spp)
      ensures PageOf(a, spp) == PageOf(o, spp) ==> IdxOf(a, spp) < IdxOf(o, spp)
    {
      OrdFacts(a, o, spp);
    }
  }

  /** The pages linked so far do not reach the page of a push that has yet to link it, and
      cover the page of every completed push. */
  lemma LinkedCovers(s: State, l: Lane, i: nat, o: nat)
    requires LaneOk(s, l, i) && o < TailOrd(l)
    ensures PageOf(o, s.spp) < l.linked
  {
    OrdFacts(o, TailOrd(l), s.spp);
    hide PageOf, IdxOf, TicketOf;
  }

  lemma AllocLane(s: State, l: Lane, l': Lane, i: nat, pc: Pc, pc': Pc)
    requires LaneOk(s, l, i) && pc.PushAlloc? && PushOk(s.spp, l, s.pushed, pc) && PushStep(s.spp, s.pushed, l, l', pc, pc')
    ensures LaneOk(s, l', i) && PushOk(s.spp, l', s.pushed, pc')
  {
    forall o: nat | o < TailOrd(l) && l.unlinked <= PageOf(o, s.spp) ensures Present(s.spp, l', s.pushed, i, o) {
      assert Present(s.spp, l, s.pushed, i, o);
      LinkedCovers(s, l, i, o);
    }
    hide PageOf, IdxOf, TicketOf, OrdOf, Present;
  }

  lemma WaitLane(s: State, l: Lane, l': Lane, i: nat, pc: Pc, pc': Pc)
    requires LaneOk(s, l, i) && pc.PushWait? && PushOk(s.spp, l, s.pushed, pc) && PushStep(s.spp, s.pushed, l, l', pc, pc')
    ensures LaneOk(s, l', i) && PushOk(s.spp, l', s.pushed, pc')
  {
    hide PageOf, IdxOf, TicketOf, OrdOf;
  }

  /** Appending the new page keeps the chain. */
  lemma LinkChain(l: Lane, l': Lane, p: nat)
    requires ChainOk(l) && l.unlinked <= l.linked == p && p in l.pages && l.pages[p].next == NULL
    requires l.tailPage == NULL || (l.tailPage >= 0 && l.tailPage in l.pages)
    requires l' == (if l.tailPage != NULL then SetNext(l, l.tailPage, p) else l.(headPage := p))
                   .(tailPage := p, linked := l.linked + 1)
    ensures ChainOk(l')
    ensures l'.pages.Keys == l.pages.Keys
    ensures forall j :: j in l.pages ==> l'.pages[j].mask == l.pages[j].mask && l'.pages[j].items == l.pages[j].items
  {
    forall j: nat | l'.unlinked <= j < l'.linked
      ensures j in l'.pages && l'.pages[j].next == if j + 1 < l'.linked then j + 1 else NULL
    {
      if j < l.linked { assert j in l.pages; }
    }
  }

  lemma LinkLane(s: State, l: Lane, l': Lane, i: nat, pc: Pc, pc': Pc)
    requires LaneOk(s, l, i) && pc.PushLink? && PushOk(s.spp, l, s.pushed, pc) && PushStep(s.spp, s.pushed, l, l', pc, pc')
    requires |s.pushed| == s.tail && TicketOf(i, OrdOf(pc.k)) == pc.k
    ensures LaneOk(s, l', i) && PushOk(s.spp, l', s.pushed, pc')
  {
    hide PageOf, IdxOf, TicketOf, OrdOf;
    var o := OrdOf(pc.k);
    if IdxOf(o, s.spp) == 0 {
      LinkChain(l, l', PageOf(o, s.spp));
      hide SetNext, ChainOk;
      assert TailOrd(l') == TailOrd(l) && HeadOrd(l') == HeadOrd(l);
      forall a: nat | a < TailOrd(l') && l'.unlinked <= PageOf(a, s.spp) ensures Present(s.spp, l', s.pushed, i, a) {
        assert Present(s.spp, l, s.pushed, i, a);
      }
      hide Present;
    } else {
      assert l.unlinked < l.linked by { HeadBelow(s, l, i); }
    }
  }

  /** A page on which a push goes on is in use. */
  lemma HeadBelow(s: State, l: Lane, i: nat)
    requires LaneOk(s, l, i) && IdxOf(TailOrd(l), s.spp) != 0
    ensures l.unlinked < l.linked
  {
    var h, t := HeadOrd(l), TailOrd(l);
    if h < t { OrdFacts(h, t, s.spp); }
    hide PageOf, IdxOf, TicketOf;
  }

  lemma StoreLane(s: State, l: Lane, l': Lane, i: nat, pc: Pc, pc': Pc)
    requires LaneOk(s, l, i) && pc.PushStore? && PushOk(s.spp, l, s.pushed, pc) && PushStep(s.spp, s.pushed, l, l', pc, pc')
    ensures LaneOk(s, l', i) && PushOk(s.spp, l', s.pushed, pc')
  {
    var o := OrdOf(pc.k);
    OrdsBelow(o, s.spp);
    forall a: nat | a < TailOrd(l') && l'.unlinked <= PageOf(a, s.spp) ensures Present(s.spp, l', s.pushed, i, a) {
      assert Present(s.spp, l, s.pushed, i, a);
    }
    hide PageOf, IdxOf, TicketOf, OrdOf, Present;
  }

  lemma MarkLane(s: State, l: Lane, l': Lane, i: nat, pc: Pc, pc': Pc)
    requires LaneOk(s, l, i) && pc.PushMark? && PushOk(s.spp, l, s.pushed, pc) && PushStep(s.spp, s.pushed, l, l', pc, pc')
    ensures LaneOk(s, l', i) && PushOk(s.spp, l', s.pushed, pc')
  {
    forall a: nat | a < TailOrd(l') && l'.unlinked <= PageOf(a, s.spp) ensures Present(s.spp, l', s.pushed, i, a) {
      assert Present(s.spp, l, s.pushed, i, a);
    }
    hide PageOf, IdxOf, TicketOf, OrdOf, Present;
  }

  /** Raising the tail counter publishes the item. */
  lemma BumpLane(s: State, l: Lane, l': Lane, i: nat, pc: Pc, pc': Pc)
    requires LaneOk(s, l, i) && pc.PushBump? && PushOk(s.spp, l, s.pushed, pc) && PushStep(s.spp, s.pushed, l, l', pc, pc')
    requires |s.pushed| == s.tail && TicketOf(i, OrdOf(pc.k)) == pc.k
    ensures LaneOk(s, l', i)
  {
    var o := OrdOf(pc.k);
    assert TailOrd(l') == TailOrd(l) + 1;
    NextOrd(o, s.spp);
    hide PageOf, IdxOf, TicketOf, OrdOf;
    forall a: nat | a < TailOrd(l') && l'.unlinked <= PageOf(a, s.spp) ensures Present(s.spp, l', s.pushed, i, a) {
      if a != o { assert Present(s.spp, l, s.pushed, i, a); }
    }
    hide Present;
  }

  // ---- pop --------------------------------------------------------------------------

  lemma PopWaitLane(s: State, l: Lane, l': Lane, i: nat, pc: Pc, pc': Pc)
    requires LaneOk(s, l, i) && (pc.PopWaitHead? || pc.PopWaitTail?) && PopOk(s.spp, l, s.head, s.popped, pc)
    requires PopStep(s.spp, l, l', pc, pc')
    ensures LaneOk(s, l', i) && PopOk(s.spp, l', s.head, s.popped, pc')
  {
    hide PageOf, IdxOf, TicketOf, OrdOf;
  }

  /** The head page is the page of the ticket whose turn it is. */
  lemma PopPageLane(s: State, l: Lane, l': Lane, i: nat, pc: Pc, pc': Pc)
    requires LaneOk(s, l, i) && pc.PopPage? && PopOk(s.spp, l, s.head, s.popped, pc) && PopStep(s.spp, l, l', pc, pc')
    ensures LaneOk(s, l', i) && PopOk(s.spp, l', s.head, s.popped, pc')
  {
    LinkedCovers(s, l, i, OrdOf(pc.k));
    hide PageOf, IdxOf, TicketOf, OrdOf;
  }

  /** The presence bit is set and the item is the one pushed with the same ticket. */
  lemma PopFinds(s: State, l: Lane, i: nat, pc: Pc)
    requires LaneOk(s, l, i) && (pc.PopTest? || pc.PopTake?) && PopOk(s.spp, l, s.head, s.popped, pc)
    requires TicketOf(i, OrdOf(pc.k)) == pc.k
    ensures var p, x := PageOf(OrdOf(pc.k), s.spp), IdxOf(OrdOf(pc.k), s.spp);
            && pc.p == p && p in l.pages && x < |l.pages[p].mask| && x < |l.pages[p].items|
            && l.pages[p].mask[x] && pc.k < |s.pushed| && l.pages[p].items[x] == s.pushed[pc.k]
  {
    hide PageOf, IdxOf, TicketOf, OrdOf;
    assert Present(s.spp, l, s.pushed, i, OrdOf(pc.k));
  }

  lemma PopTestLane(s: State, l: Lane, l': Lane, i: nat, pc: Pc, pc': Pc)
    requires LaneOk(s, l, i) && pc.PopTest? && PopOk(s.spp, l, s.head, s.popped, pc) && PopStep(s.spp, l, l', pc, pc')
    requires TicketOf(i, OrdOf(pc.k)) == pc.k
    ensures LaneOk(s, l', i) && PopOk(s.spp, l', s.head, s.popped, pc')
  {
    PopFinds(s, l, i, pc);
    hide PageOf, IdxOf, TicketOf, OrdOf;
  }

  lemma PopTakeLane(s: State, l: Lane, l': Lane, i: nat, pc: Pc, pc': Pc, popped: map<nat, Item>)
    requires LaneOk(s, l, i) && pc.PopTake? && PopOk(s.spp, l, s.head, s.popped, pc) && PopStep(s.spp, l, l', pc, pc')
    ensures LaneOk(s, l', i) && PopOk(s.spp, l', s.head, popped, pc')
  {
    hide PageOf, IdxOf, TicketOf, OrdOf;
  }

  /** Unlinking the finished page keeps the chain. */
  lemma UnlinkChain(l: Lane, l': Lane)
    requires ChainOk(l) && l.unlinked < l.linked
    requires l.unlinked in l.pages
    requires var q := l.pages[l.unlinked].next;
             l' == l.(headPage := q, tailPage := if q == NULL then NULL else l.tailPage, unlinked := l.unlinked + 1)
    ensures ChainOk(l')
  {
  }

  lemma PopUnlinkLane(s: State, l: Lane, l': Lane, i: nat, pc: Pc, pc': Pc)
    requires LaneOk(s, l, i) && pc.PopUnlink? && PopOk(s.spp, l, s.head, s.popped, pc) && PopStep(s.spp, l, l', pc, pc')
    requires TicketOf(i, OrdOf(pc.k)) == pc.k
    ensures LaneOk(s, l', i) && PopOk(s.spp, l', s.head, s.popped, pc')
  {
    var o := OrdOf(pc.k);
    LinkedCovers(s, l, i, o);
    hide PageOf, IdxOf, TicketOf, OrdOf, Present;
    assert l.unlinked in l.pages;
    if IdxOf(o, s.spp) == s.spp - 1 {
      UnlinkChain(l, l');
      hide ChainOk;
      assert TailOrd(l') == TailOrd(l) && HeadOrd(l') == HeadOrd(l);
      UnlinkContent(s.spp, l, l', s.pushed, i);
    }
  }

  lemma UnlinkContent(spp: nat, l: Lane, l': Lane, pushed: seq<Item>, i: nat)
    requires spp > 0 && ContentOk(spp, l, pushed, i)
    requires l'.pages == l.pages && l'.tailCounter == l.tailCounter && l.unlinked <= l'.unlinked
    ensures ContentOk(spp, l', pushed, i)
  {
    forall o: nat | o < TailOrd(l') && l'.unlinked <= PageOf(o, spp) ensures Present(spp, l', pushed, i, o) {
      assert Present(spp, l, pushed, i, o);
    }
  }

  lemma PopBumpLane(s: State, l: Lane, l': Lane, i: nat, pc: Pc, pc': Pc)
    requires LaneOk(s, l, i) && pc.PopBump? && PopOk(s.spp, l, s.head, s.popped, pc) && PopStep(s.spp, l, l', pc, pc')
    requires TicketOf(i, OrdOf(pc.k)) == pc.k
    ensures LaneOk(s, l', i) && (pc'.PopFree? ==> PopOk(s.spp, l', s.head, s.popped, pc'))
  {
    var o := OrdOf(pc.k);
    NextOrd(o, s.spp);
    hide PageOf, IdxOf, TicketOf, OrdOf, Present;
    assert HeadOrd(l') == HeadOrd(l) + 1 && TailOrd(l') == TailOrd(l);
    UnlinkContent(s.spp, l, l', s.pushed, i);
    hide ContentOk;
  }

  lemma PopFreeLane(s: State, l: Lane, l': Lane, i: nat, pc: Pc, pc': Pc)
    requires LaneOk(s, l, i) && pc.PopFree? && PopOk(s.spp, l, s.head, s.popped, pc) && PopStep(s.spp, l, l', pc, pc')
    ensures LaneOk(s, l', i)
  {
    forall o: nat | o < TailOrd(l') && l'.unlinked <= PageOf(o, s.spp) ensures Present(s.spp, l', s.pushed, i, o) {
      assert Present(s.spp, l, s.pushed, i, o);
    }
    hide PageOf, IdxOf, TicketOf, OrdOf, Present;
  }

  // ---- steps do not disturb the other threads on the lane ---------------------------------

  /** Different tickets of one lane, in either order. */
  lemma OrdsApart(a: nat, b: nat, spp: nat)
    requires spp > 0 && a != b
    ensures a < b ==> PageOf(a, spp) <= PageOf(b, spp) && (IdxOf(b, spp) == 0 ==> PageOf(a, spp) < PageOf(b, spp))
    ensures b < a ==> PageOf(b, spp) <= PageOf(a, spp) && (IdxOf(a, spp) == 0 ==> PageOf(b, spp) < PageOf(a, spp))
    ensures a < b && IdxOf(a, spp) == spp - 1 ==> PageOf(a, spp) < PageOf(b, spp)
    ensures b < a && IdxOf(b, spp) == spp - 1 ==> PageOf(b, spp) < PageOf(a, spp)
    ensures PageOf(a, spp) == PageOf(b, spp) ==> IdxOf(a, spp) != IdxOf(b, spp)
  {
    if a < b { OrdFacts(a, b, spp); } else { OrdFacts(b, a, spp); }
  }

  /** A push that has not had its turn touches only its own new page. */
  lemma EarlyPush(s: State, l: Lane, l': Lane, i: nat, pc: Pc, pc': Pc, pc2: Pc)
    requires LaneOk(s, l, i) && (pc.PushAlloc? || pc.PushWait?) && PushOk(s.spp, l, s.pushed, pc) && PushStep(s.spp, s.pushed, l, l', pc, pc')
    requires HoldsPush(pc2) && PushOk(s.spp, l, s.pushed, pc2) && OrdOf(pc.k) != OrdOf(pc2.k)
    ensures PushOk(s.spp, l', s.pushed, pc2)
  {
    hide PageOf, IdxOf, TicketOf, OrdOf, BoundsOk, ContentOk, ChainOk;
    OrdsApart(OrdOf(pc.k), OrdOf(pc2.k), s.spp);
    assert HeadOrd(l') == HeadOrd(l) && TailOrd(l') == TailOrd(l);
  }

  /** While a push has its turn, every other one is still waiting. */
  lemma LatePush(s: State, l: Lane, l': Lane, i: nat, pc: Pc, pc': Pc, pc2: Pc)
    requires LaneOk(s, l, i) && HoldsPush(pc) && !pc.PushAlloc? && !pc.PushWait?
    requires PushOk(s.spp, l, s.pushed, pc) && PushStep(s.spp, s.pushed, l, l', pc, pc')
    requires HoldsPush(pc2) && PushOk(s.spp, l, s.pushed, pc2) && OrdOf(pc.k) != OrdOf(pc2.k)
    ensures PushOk(s.spp, l', s.pushed, pc2)
  {
    hide PageOf, IdxOf, TicketOf, OrdOf, BoundsOk, ContentOk;
    OrdsApart(OrdOf(pc.k), OrdOf(pc2.k), s.spp);
    assert pc2.PushAlloc? || pc2.PushWait?;
    assert HeadOrd(l') == HeadOrd(l) && l'.unlinked == l.unlinked;
    assert TailOrd(l') == TailOrd(l) + if pc.PushBump? then 1 else 0;
  }

  lemma PushPush(s: State, l: Lane, l': Lane, i: nat, pc: Pc, pc': Pc, pc2: Pc)
    requires LaneOk(s, l, i) && HoldsPush(pc) && PushOk(s.spp, l, s.pushed, pc) && PushStep(s.spp, s.pushed, l, l', pc, pc')
    requires HoldsPush(pc2) && PushOk(s.spp, l, s.pushed, pc2) && OrdOf(pc.k) != OrdOf(pc2.k)
    ensures PushOk(s.spp, l', s.pushed, pc2)
  {
    hide LaneOk, PushOk, PushStep, OrdOf;
    if pc.PushAlloc? || pc.PushWait? { EarlyPush(s, l, l', i, pc, pc', pc2); } else { LatePush(s, l, l', i, pc, pc', pc2); }
  }

  lemma PushPop(s: State, l: Lane, l': Lane, i: nat, pc: Pc, pc': Pc, pc2: Pc)
    requires LaneOk(s, l, i) && HoldsPush(pc) && PushOk(s.spp, l, s.pushed, pc) && PushStep(s.spp, s.pushed, l, l', pc, pc')
    requires HoldsPop(pc2) && PopOk(s.spp, l, s.head, s.popped, pc2)
    ensures PopOk(s.spp, l', s.head, s.popped, pc2)
  {
    hide PageOf, IdxOf, TicketOf, OrdOf, BoundsOk, ContentOk;
    assert HeadOrd(l') == HeadOrd(l) && l'.unlinked == l.unlinked && TailOrd(l) <= TailOrd(l') <= TailOrd(l) + 1;
  }

  lemma PopPush(s: State, l: Lane, l': Lane, i: nat, pc: Pc, pc': Pc, pc2: Pc)
    requires LaneOk(s, l, i) && HoldsPop(pc) && PopOk(s.spp, l, s.head, s.popped, pc) && PopStep(s.spp, l, l', pc, pc')
    requires HoldsPush(pc2) && PushOk(s.spp, l, s.pushed, pc2)
    ensures PushOk(s.spp, l', s.pushed, pc2)
  {
    hide PageOf, IdxOf, TicketOf, OrdOf, ContentOk, ChainOk;
    var o, o2 := OrdOf(pc.k), OrdOf(pc2.k);
    if o != o2 { OrdsApart(o, o2, s.spp); }
    assert TailOrd(l') == TailOrd(l) && l'.linked == l.linked;
    if pc.PopFree? {
      assert o < o2 && pc.p == PageOf(o, s.spp);
    }
  }

  lemma PopPop(s: State, l: Lane, l': Lane, i: nat, pc: Pc, pc': Pc, pc2: Pc, popped: map<nat, Item>)
    requires LaneOk(s, l, i) && HoldsPop(pc) && PopOk(s.spp, l, s.head, s.popped, pc) && PopStep(s.spp, l, l', pc, pc')
    requires HoldsPop(pc2) && PopOk(s.spp, l, s.head, s.popped, pc2) && OrdOf(pc.k) != OrdOf(pc2.k) && pc.k != pc2.k
    requires forall k :: k in popped ==> k in s.popped || k == pc.k
    ensures PopOk(s.spp, l', s.head, popped, pc2)
  {
    hide PageOf, IdxOf, TicketOf, OrdOf, ContentOk, ChainOk;
    var o, o2 := OrdOf(pc.k), OrdOf(pc2.k);
    OrdsApart(o, o2, s.spp);
    NextOrd(o, s.spp);
    assert TailOrd(l') == TailOrd(l);
    if pc.PopBump? {
      assert HeadOrd(l') == HeadOrd(l) + 1;
    } else {
      assert HeadOrd(l') == HeadOrd(l);
    }
  }

  // ---- every step keeps the invariant -----------------------------------------------------

  lemma PushStepKeeps(s: State, l: Lane, l': Lane, i: nat, pc: Pc, pc': Pc)
    requires LaneOk(s, l, i) && |s.pushed| == s.tail && HoldsPush(pc) && TicketOf(i, OrdOf(pc.k)) == pc.k
    requires PushOk(s.spp, l, s.pushed, pc) && PushStep(s.spp, s.pushed, l, l', pc, pc')
    ensures LaneOk(s, l', i) && !HoldsPop(pc') && !pc'.PopCas? && !pc'.PopTail?
    ensures HoldsPush(pc') ==> pc'.k == pc.k && PushOk(s.spp, l', s.pushed, pc')
  {
    hide LaneOk, PushOk, OrdOf, TicketOf, PageOf, IdxOf;
    if pc.PushAlloc? { AllocLane(s, l, l', i, pc, pc'); }
    else if pc.PushWait? { WaitLane(s, l, l', i, pc, pc'); }
    else if pc.PushLink? { LinkLane(s, l, l', i, pc, pc'); }
    else if pc.PushStore? { StoreLane(s, l, l', i, pc, pc'); }
    else if pc.PushMark? { MarkLane(s, l, l', i, pc, pc'); }
    else { BumpLane(s, l, l', i, pc, pc'); }
  }

  lemma PopStepKeeps(s: State, l: Lane, l': Lane, i: nat, pc: Pc, pc': Pc, popped: map<nat, Item>)
    requires LaneOk(s, l, i) && HoldsPop(pc) && TicketOf(i, OrdOf(pc.k)) == pc.k
    requires PopOk(s.spp, l, s.head, s.popped, pc) && PopStep(s.spp, l, l', pc, pc')
    requires popped == Delivered(s, pc, l)
    ensures LaneOk(s, l', i) && !HoldsPush(pc') && !pc'.PopCas? && !pc'.PopTail?
    ensures HoldsPop(pc') ==> pc'.k == pc.k && PopOk(s.spp, l', s.head, popped, pc')
  {
    hide LaneOk, PopOk, OrdOf, TicketOf, PageOf, IdxOf;
    if pc.PopWaitHead? || pc.PopWaitTail? { PopWaitLane(s, l, l', i, pc, pc'); }
    else if pc.PopPage? { PopPageLane(s, l, l', i, pc, pc'); }
    else if pc.PopTest? { PopTestLane(s, l, l', i, pc, pc'); }
    else if pc.PopTake? { PopTakeLane(s, l, l', i, pc, pc', popped); }
    else if pc.PopUnlink? { PopUnlinkLane(s, l, l', i, pc, pc'); }
    else if pc.PopBump? { PopBumpLane(s, l, l', i, pc, pc'); }
    else { PopFreeLane(s, l, l', i, pc, pc'); }
  }

  /** Only the recorded deliveries of the context changed. */
  lemma LaneOkSame(s: State, s': State, l: Lane, i: nat)
    requires LaneOk(s, l, i) && s'.spp == s.spp && s'.head == s.head && s'.tail == s.tail && s'.pushed == s.pushed
    ensures LaneOk(s', l, i)
  {
    hide BoundsOk, ContentOk;
  }

  /** Counters that only grow, and pushes that are only appended. */
  lemma LaneOkLater(s: State, s': State, l: Lane, i: nat)
    requires LaneOk(s, l, i) && s'.spp == s.spp && s.head <= s'.head && s.tail <= s'.tail && s.pushed <= s'.pushed
    ensures LaneOk(s', l, i)
  {
    forall o: nat | o < TailOrd(l) && l.unlinked <= PageOf(o, s.spp) ensures Present(s.spp, l, s'.pushed, i, o) {
      assert Present(s.spp, l, s.pushed, i, o);
    }
    hide PageOf, IdxOf, TicketOf, Present;
  }

  /** The thread that made the step. */
  lemma StepperOk(s: State, s': State, t: nat)
    requires Inv(s) && LaneStep(s, s', t)
    ensures var i := LaneOf(s.threads[t].k); |s'.lanes| == N_QUEUE && LaneOk(s', s'.lanes[i], i)
    ensures ThreadOk(s', s'.threads[t])
    ensures HoldsPush(s'.threads[t]) ==> HoldsPush(s.threads[t]) && s'.threads[t].k == s.threads[t].k
    ensures HoldsPop(s'.threads[t]) ==> HoldsPop(s.threads[t]) && s'.threads[t].k == s.threads[t].k
  {
    var pc, pc' := s.threads[t], s'.threads[t];
    var i := LaneOf(pc.k);
    TicketBijection(pc.k);
    assert ThreadOk(s, pc) && LaneOk(s, s.lanes[i], i);
    hide PushOk, PopOk, LaneOk, LaneOf, OrdOf, TicketOf, PushStep, PopStep;
    if HoldsPush(pc) {
      NotPopStep(s.spp, s.lanes[i], s'.lanes[i], pc, pc');
      PushStepKeeps(s, s.lanes[i], s'.lanes[i], i, pc, pc');
    } else {
      NotPushStep(s.spp, s.pushed, s.lanes[i], s'.lanes[i], pc, pc');
      PopStepKeeps(s, s.lanes[i], s'.lanes[i], i, pc, pc', s'.popped);
    }
    LaneOkSame(s, s', s'.lanes[i], i);
  }

  lemma NotPopStep(spp: nat, l: Lane, l': Lane, pc: Pc, pc': Pc)
    requires spp > 0 && HoldsPush(pc)
    ensures !PopStep(spp, l, l', pc, pc')
  {
  }

  lemma NotPushStep(spp: nat, pushed: seq<Item>, l: Lane, l': Lane, pc: Pc, pc': Pc)
    requires spp > 0 && HoldsPop(pc)
    ensures !PushStep(spp, pushed, l, l', pc, pc')
  {
  }

  /** Deliveries only ever add the ticket of the thread that takes its item. */
  lemma DeliveredOnly(s: State, pc: Pc, l: Lane)
    requires s.spp > 0
    ensures forall k :: k in Delivered(s, pc, l) ==> k in s.popped || (pc.PopTake? && k == pc.k)
    ensures !pc.PopTake? ==> Delivered(s, pc, l) == s.popped
  {
  }

  /** The other threads. */
  lemma BystanderOk(s: State, s': State, t: nat, u: nat)
    requires Inv(s) && LaneStep(s, s', t) && u < |s.threads| && u != t
    ensures ThreadOk(s', s'.threads[u])
  {
    var pc, pc', pc2 := s.threads[t], s'.threads[t], s.threads[u];
    var i := LaneOf(pc.k);
    assert ThreadOk(s, pc) && ThreadOk(s, pc2) && LaneOk(s, s.lanes[i], i);
    assert Apart(s.threads[if t < u then t else u], s.threads[if t < u then u else t]);
    DeliveredOnly(s, pc, s.lanes[i]);
    if HoldsPush(pc2) || HoldsPop(pc2) {
      if LaneOf(pc2.k) == i {
        if OrdOf(pc.k) == OrdOf(pc2.k) { TicketBijection(pc.k); TicketBijection(pc2.k); }
        hide LaneOk, LaneOf, OrdOf, TicketOf;
        SameLane(s, s', t, u, i);
      } else {
        hide LaneOk, LaneOf, OrdOf, TicketOf, PageOf, IdxOf;
        assert s'.lanes[LaneOf(pc2.k)] == s.lanes[LaneOf(pc2.k)];
      }
    }
  }

  lemma SameLane(s: State, s': State, t: nat, u: nat, i: nat)
    requires LaneStep(s, s', t) && u < |s.threads| && u != t && (HoldsPush(s.threads[u]) || HoldsPop(s.threads[u]))
    requires i == LaneOf(s.threads[t].k) == LaneOf(s.threads[u].k)
    requires |s.lanes| == N_QUEUE && LaneOk(s, s.lanes[i], i) && ThreadOk(s, s.threads[t]) && ThreadOk(s, s.threads[u])
    requires Apart(s.threads[t], s.threads[u])
    requires OrdOf(s.threads[t].k) == OrdOf(s.threads[u].k) ==> s.threads[t].k == s.threads[u].k
    ensures ThreadOk(s', s.threads[u])
  {
    var pc, pc', pc2, l, l' := s.threads[t], s'.threads[t], s.threads[u], s.lanes[i], s'.lanes[i];
    DeliveredOnly(s, pc, l);
    hide LaneOk, PushOk, PopOk, LaneOf, OrdOf, TicketOf, PushStep, PopStep, Delivered;
    NotPop(pc); NotPop(pc2);
    if HoldsPush(pc) {
      NotPopStep(s.spp, l, l', pc, pc');
      if HoldsPush(pc2) { PushPush(s, l, l', i, pc, pc', pc2); } else { PushPop(s, l, l', i, pc, pc', pc2); }
    } else {
      NotPushStep(s.spp, s.pushed, l, l', pc, pc');
      if HoldsPush(pc2) { PopPush(s, l, l', i, pc, pc', pc2); } else { PopPop(s, l, l', i, pc, pc', pc2, s'.popped); }
    }
  }

  lemma NotPop(pc: Pc)
    ensures !(HoldsPush(pc) && HoldsPop(pc))
    ensures HoldsPush(pc) ==> !pc.PopTake? && !pc.PopCas?
    ensures HoldsPop(pc) ==> !pc.PopCas?
  {
  }

  lemma OtherLanes(s: State, s': State, t: nat, i: nat)
    requires Inv(s) && LaneStep(s, s', t) && i < N_QUEUE
    ensures |s'.lanes| == N_QUEUE && LaneOk(s', s'.lanes[i], i)
  {
    StepperOk(s, s', t);
    if i != LaneOf(s.threads[t].k) {
      assert LaneOk(s, s.lanes[i], i);
      hide LaneOk, LaneOf, PushStep, PopStep, Delivered;
      LaneOkSame(s, s', s.lanes[i], i);
    }
  }

  lemma LaneStepApart(s: State, s': State, t: nat)
    requires Inv(s) && LaneStep(s, s', t)
    ensures forall a, b :: 0 <= a < b < |s'.threads| ==> Apart(s'.threads[a], s'.threads[b])
  {
    StepperOk(s, s', t);
    hide LaneOk, ThreadOk, PushStep, PopStep, Delivered;
    forall a, b | 0 <= a < b < |s'.threads| ensures Apart(s'.threads[a], s'.threads[b]) {
      assert Apart(s.threads[a], s.threads[b]);
    }
  }

  /** What is delivered is what was pushed with the same ticket. */
  lemma LaneStepDelivers(s: State, s': State, t: nat)
    requires Inv(s) && LaneStep(s, s', t)
    ensures forall k :: k in s'.popped ==> k < s'.head && k < |s.pushed| && s'.popped[k] == s'.pushed[k]
    ensures s.threads[t].PopTake? ==> s.threads[t].k !in s.popped && s.threads[t].k in s'.popped
  {
    var pc := s.threads[t];
    var i := LaneOf(pc.k);
    TicketBijection(pc.k);
    assert ThreadOk(s, pc) && LaneOk(s, s.lanes[i], i);
    if pc.PopTake? {
      PopFinds(s, s.lanes[i], i, pc);
    }
    hide LaneOk, LaneOf, OrdOf, TicketOf, PushStep, PopStep;
  }

  lemma LaneStepInv(s: State, s': State, t: nat)
    requires Inv(s) && LaneStep(s, s', t)
    ensures Inv(s')
  {
    StepperOk(s, s', t);
    LaneStepApart(s, s', t);
    LaneStepDelivers(s, s', t);
    forall i | 0 <= i < |s'.lanes| ensures LaneOk(s', s'.lanes[i], i) { OtherLanes(s, s', t, i); }
    forall u | 0 <= u < |s'.threads| ensures ThreadOk(s', s'.threads[u]) {
      if u != t { BystanderOk(s, s', t, u); }
    }
    hide LaneOk, ThreadOk, Apart, LaneOf, PushStep, PopStep, Delivered;
  }

  // ---- the steps on the global counters ---------------------------------------------------

  lemma ThreadOkLater(s: State, s': State, pc: Pc)
    requires ThreadOk(s, pc) && s'.spp == s.spp && s'.lanes == s.lanes && s.head <= s'.head && s.tail <= s'.tail
    requires s.pushed <= s'.pushed && s'.popped == s.popped
    ensures ThreadOk(s', pc)
  {
    hide PageOf, IdxOf, OrdOf, LaneOf, PrivatePage, Unlinked;
  }

  /** A ticket that has just been taken is at or behind its lane's turn, and nothing has been
      linked for it yet. */
  lemma FreshTicket(s: State, i: nat, k: nat)
    requires Inv(s) && i == LaneOf(k)
    ensures k == s.tail ==> TailOrd(s.lanes[i]) <= OrdOf(k) && Unlinked(s.spp, s.lanes[i], OrdOf(k))
    ensures k == s.head ==> HeadOrd(s.lanes[i]) <= OrdOf(k)
    ensures k == s.head && OrdOf(k) == HeadOrd(s.lanes[i]) ==> s.lanes[i].unlinked == PageOf(OrdOf(k), s.spp)
  {
    var l, o := s.lanes[i], OrdOf(k);
    assert LaneOk(s, l, i);
    TicketBijection(k);
    if o < TailOrd(l) { TicketOrder(i, o, TailOrd(l) - 1); }
    if o < HeadOrd(l) { TicketOrder(i, o, HeadOrd(l) - 1); }
    if TailOrd(l) < o { OrdFacts(TailOrd(l), o, s.spp); }
    hide PageOf, IdxOf, TicketOf, OrdOf, LaneOf, ContentOk, ChainOk, SizesOk;
  }

  lemma TicketOrder(i: nat, a: nat, b: nat)
    requires a <= b
    ensures TicketOf(i, a) <= TicketOf(i, b)
  {
  }

  lemma StartPushInv(s: State, s': State, t: nat, v: Item)
    requires Inv(s) && StartPush(s, s', t, v)
    ensures Inv(s')
  {
    forall i | 0 <= i < |s'.lanes| ensures LaneOk(s', s'.lanes[i], i) {
      assert LaneOk(s, s.lanes[i], i);
      LaneOkLater(s, s', s.lanes[i], i);
    }
    FreshTicket(s, LaneOf(s.tail), s.tail);
    forall u | 0 <= u < |s'.threads| ensures ThreadOk(s', s'.threads[u]) {
      if u == t {
        assert s'.threads[u] == PushAlloc(s.tail);
      } else {
        assert ThreadOk(s, s.threads[u]);
        ThreadOkLater(s, s', s.threads[u]);
      }
    }
    hide LaneOk, LaneOf, OrdOf, Unlinked;
    forall a, b | 0 <= a < b < |s'.threads| ensures Apart(s'.threads[a], s'.threads[b]) {
      assert Apart(s.threads[a], s.threads[b]) && ThreadOk(s, s.threads[a]) && ThreadOk(s, s.threads[b]);
    }
    hide ThreadOk, Apart;
  }

  lemma QuietThreadInv(s: State, s': State, t: nat, pc: Pc)
    requires Inv(s) && t < |s.threads| && s' == s.(threads := s.threads[t := pc])
    requires !HoldsPush(pc) && !HoldsPop(pc) && (pc.PopCas? ==> pc.k < s.tail)
    ensures Inv(s')
  {
    forall i | 0 <= i < |s'.lanes| ensures LaneOk(s', s'.lanes[i], i) {
      assert LaneOk(s, s.lanes[i], i);
      LaneOkLater(s, s', s.lanes[i], i);
    }
    forall u | 0 <= u < |s'.threads| ensures ThreadOk(s', s'.threads[u]) {
      if u != t {
        assert ThreadOk(s, s.threads[u]);
        ThreadOkLater(s, s', s.threads[u]);
      }
    }
    hide LaneOk, ThreadOk;
    forall a, b | 0 <= a < b < |s'.threads| ensures Apart(s'.threads[a], s'.threads[b]) {
      assert Apart(s.threads[a], s.threads[b]);
    }
    hide Apart;
  }

  lemma CasInv(s: State, s': State, t: nat)
    requires Inv(s) && Cas(s, s', t)
    ensures Inv(s')
  {
    var k := s.threads[t].k;
    assert ThreadOk(s, s.threads[t]);
    if s.head != k {
      hide ThreadOk;
      QuietThreadInv(s, s', t, PopTail(s.head));
    } else {
      WinTicket(s, s', t);
    }
  }

  lemma WinTicket(s: State, s': State, t: nat)
    requires Inv(s) && Cas(s, s', t) && s.head == s.threads[t].k
    ensures Inv(s')
  {
    var k := s.threads[t].k;
    assert ThreadOk(s, s.threads[t]);
    forall i | 0 <= i < |s'.lanes| ensures LaneOk(s', s'.lanes[i], i) {
      assert LaneOk(s, s.lanes[i], i);
      LaneOkLater(s, s', s.lanes[i], i);
    }
    FreshTicket(s, LaneOf(k), k);
    forall u | 0 <= u < |s'.threads| ensures ThreadOk(s', s'.threads[u]) {
      if u == t {
        assert s'.threads[u] == PopWaitHead(k);
      } else {
        assert ThreadOk(s, s.threads[u]);
        ThreadOkLater(s, s', s.threads[u]);
      }
    }
    hide LaneOk, LaneOf, OrdOf, PageOf, IdxOf;
    forall a, b | 0 <= a < b < |s'.threads| ensures Apart(s'.threads[a], s'.threads[b]) {
      assert Apart(s.threads[a], s.threads[b]) && ThreadOk(s, s.threads[a]) && ThreadOk(s, s.threads[b]);
    }
    hide ThreadOk, Apart;
  }

  lemma InitInv(s: State)
    requires Init(s)
    ensures Inv(s)
  {
    forall i | 0 <= i < |s.lanes| ensures LaneOk(s, s.lanes[i], i) {
      assert s.lanes[i] == Lane(NULL, NULL, 0, 0, map[], 0, 0);
      DivUnique(0, 0, 0, s.spp);
    }
  }

  lemma StepInv(s: State, s': State)
    requires Inv(s) && Step(s, s')
    ensures Inv(s')
  {
    hide Inv, LaneStep;
    if t: nat, v: Item :| StartPush(s, s', t, v) { StartPushInv(s, s', t, v); }
    else if t: nat :| StartPop(s, s', t) { QuietThreadInv(s, s', t, PopTail(s.head)); }
    else if t: nat :| ReadTail(s, s', t) {
      QuietThreadInv(s, s', t, if s.tail - s.threads[t].k <= 0 then Outside else PopCas(s.threads[t].k));
    }
    else if t: nat :| Cas(s, s', t) { CasInv(s, s', t); }
    else {
      var t: nat :| LaneStep(s, s', t);
      LaneStepInv(s, s', t);
    }
  }

  lemma {:induction false} RunInv(run: seq<State>, i: nat)
    requires Run(run) && i < |run|
    ensures Inv(run[i])
    decreases i
  {
    hide Inv, Step, Init;
    if i == 0 {
      InitInv(run[0]);
    } else {
      RunInv(run, i - 1);
      StepInv(run[i - 1], run[i - 1 + 1]);
    }
  }

  // ---- what every run guarantees -----------------------------------------------------------

  /** A pop delivers the item pushed with the same ticket; the head never passes the tail. */
  lemma TicketsMatch(run: seq<State>, i: nat, k: nat)
    requires Run(run) && i < |run| && k in run[i].popped
    ensures k < run[i].head <= run[i].tail == |run[i].pushed| && run[i].popped[k] == run[i].pushed[k]
  {
    RunInv(run, i);
  }

  /** No ticket is delivered twice, and no pop meets an empty place or a missing page. */
  lemma TakenOnce(run: seq<State>, i: nat, t: nat)
    requires Run(run) && i + 1 < |run| && LaneStep(run[i], run[i + 1], t) && run[i].threads[t].PopTake?
    ensures var k := run[i].threads[t].k;
            k < |run[i].pushed| && k !in run[i].popped && k in run[i + 1].popped && run[i + 1].popped[k] == run[i].pushed[k]
  {
    RunInv(run, i);
    LaneStepDelivers(run[i], run[i + 1], t);
  }

  /** Whoever is about to touch a page finds it allocated, and whoever appends a page finds the
      last one allocated. */
  lemma PagesInUse(s: State, t: nat)
    requires Inv(s) && t < |s.threads|
    ensures var pc := s.threads[t];
            && (pc.PushStore? || pc.PushMark? || pc.PopTest? || pc.PopTake? || pc.PopUnlink? || pc.PopFree? ==>
                  0 <= pc.p && pc.p in s.lanes[LaneOf(pc.k)].pages)
            && (pc.PushLink? && s.lanes[LaneOf(pc.k)].tailPage != NULL ==>
                  s.lanes[LaneOf(pc.k)].tailPage in s.lanes[LaneOf(pc.k)].pages)
            && !pc.PopLost?
  {
    var pc := s.threads[t];
    assert ThreadOk(s, pc);
    if HoldsPush(pc) || HoldsPop(pc) {
      var i := LaneOf(pc.k);
      var l := s.lanes[i];
      assert LaneOk(s, l, i);
      if OrdOf(pc.k) < TailOrd(l) { LinkedCovers(s, l, i, OrdOf(pc.k)); }
      hide PageOf, IdxOf, OrdOf, TicketOf, LaneOf, ContentOk;
      if pc.PushStore? || pc.PushMark? { PushPageLinked(s, l, i, pc); }
    }
  }

  lemma PushPageLinked(s: State, l: Lane, i: nat, pc: Pc)
    requires LaneOk(s, l, i) && (pc.PushStore? || pc.PushMark?) && PushOk(s.spp, l, s.pushed, pc)
    ensures 0 <= pc.p && pc.p in l.pages
  {
    var h, t := HeadOrd(l), TailOrd(l);
    if h < t { OrdFacts(h, t, s.spp); }
    hide PageOf, IdxOf, OrdOf, TicketOf, ContentOk;
    assert l.unlinked <= pc.p < l.linked;
  }

  // ---- nothing gets lost --------------------------------------------------------------------

  ghost predicate BeingPushed(s: State, k: nat) {
    exists t :: 0 <= t < |s.threads| && HoldsPush(s.threads[t]) && s.threads[t].k == k
  }

  predicate Untaken(pc: Pc) {
    pc.PopWaitHead? || pc.PopWaitTail? || pc.PopPage? || pc.PopTest? || pc.PopLost? || pc.PopTake?
  }

  ghost predicate BeingPopped(s: State, k: nat) {
    exists t :: 0 <= t < |s.threads| && Untaken(s.threads[t]) && s.threads[t].k == k
  }

  ghost predicate HoldingHead(s: State, k: nat) {
    exists t :: 0 <= t < |s.threads| && HoldsPop(s.threads[t]) && !s.threads[t].PopFree? && s.threads[t].k == k
  }

  /** Every ticket taken is either done with or in the hands of a thread. */
  ghost predicate Accounted(s: State) {
    && |s.lanes| == N_QUEUE
    && (forall k: nat :: k < s.tail ==> OrdOf(k) < TailOrd(s.lanes[LaneOf(k)]) || BeingPushed(s, k))
    && (forall k: nat :: k < s.head ==> k in s.popped || BeingPopped(s, k))
    && (forall k: nat :: k < s.head ==> OrdOf(k) < HeadOrd(s.lanes[LaneOf(k)]) || HoldingHead(s, k))
  }

  /** A step either keeps the ticket in hand or completes it. */
  lemma HandOver(s: State, s': State, t: nat)
    requires Inv(s) && LaneStep(s, s', t)
    ensures var pc, pc', i := s.threads[t], s'.threads[t], LaneOf(s.threads[t].k);
            && TailOrd(s.lanes[i]) <= TailOrd(s'.lanes[i]) && HeadOrd(s.lanes[i]) <= HeadOrd(s'.lanes[i])
            && (HoldsPush(pc) ==> (HoldsPush(pc') && pc'.k == pc.k) || OrdOf(pc.k) < TailOrd(s'.lanes[i]))
            && (Untaken(pc) ==> (Untaken(pc') && pc'.k == pc.k) || pc.k in s'.popped)
            && (HoldsPop(pc) && !pc.PopFree? ==>
                  (HoldsPop(pc') && !pc'.PopFree? && pc'.k == pc.k) || OrdOf(pc.k) < HeadOrd(s'.lanes[i]))
    ensures forall k :: k in s.popped ==> k in s'.popped
  {
    hide PageOf, IdxOf, TicketOf, OrdOf, LaneOf, ContentOk, ChainOk, SizesOk, BoundsOk;
    var pc := s.threads[t];
    var i := LaneOf(pc.k);
    assert ThreadOk(s, pc) && LaneOk(s, s.lanes[i], i);
    if pc.PopTake? { PagesInUse(s, t); TakeDelivers(s, pc, s.lanes[i]); }
  }

  lemma TakeDelivers(s: State, pc: Pc, l: Lane)
    requires s.spp > 0 && pc.PopTake? && 0 <= pc.p && pc.p in l.pages && SizesOk(s.spp, l)
    ensures pc.k in Delivered(s, pc, l)
  {
  }

  lemma LaneStepAccounted(s: State, s': State, t: nat)
    requires Inv(s) && Accounted(s) && LaneStep(s, s', t)
    ensures Accounted(s')
  {
    hide Inv, OrdOf, LaneOf, PushStep, PopStep, Delivered;
    HandOver(s, s', t);
    forall k: nat | k < s'.tail ensures OrdOf(k) < TailOrd(s'.lanes[LaneOf(k)]) || BeingPushed(s', k) {
      if OrdOf(k) >= TailOrd(s.lanes[LaneOf(k)]) {
        var u :| 0 <= u < |s.threads| && HoldsPush(s.threads[u]) && s.threads[u].k == k;
        assert u != t ==> s'.threads[u] == s.threads[u];
      }
    }
    forall k: nat | k < s'.head ensures k in s'.popped || BeingPopped(s', k) {
      if k !in s.popped {
        var u :| 0 <= u < |s.threads| && Untaken(s.threads[u]) && s.threads[u].k == k;
        assert u != t ==> s'.threads[u] == s.threads[u];
      }
    }
    forall k: nat | k < s'.head ensures OrdOf(k) < HeadOrd(s'.lanes[LaneOf(k)]) || HoldingHead(s', k) {
      if OrdOf(k) >= HeadOrd(s.lanes[LaneOf(k)]) {
        var u :| 0 <= u < |s.threads| && HoldsPop(s.threads[u]) && !s.threads[u].PopFree? && s.threads[u].k == k;
        assert u != t ==> s'.threads[u] == s.threads[u];
      }
    }
  }

  /** The other steps change one thread that held no ticket, and hand it at most the next one. */
  lemma TakeAccounted(s: State, s': State, t: nat, pc: Pc)
    requires Accounted(s) && t < |s.threads| && !HoldsPush(s.threads[t]) && !HoldsPop(s.threads[t])
    requires s'.lanes == s.lanes && s'.popped == s.popped && s'.threads == s.threads[t := pc]
    requires s'.tail == s.tail || (s'.tail == s.tail + 1 && pc == PushAlloc(s.tail))
    requires s'.head == s.head || (s'.head == s.head + 1 && pc == PopWaitHead(s.head))
    ensures Accounted(s')
  {
    hide OrdOf, LaneOf;
    assert s'.threads[t] == pc;
    forall k: nat | k < s'.tail ensures OrdOf(k) < TailOrd(s'.lanes[LaneOf(k)]) || BeingPushed(s', k) {
      if k < s.tail && OrdOf(k) >= TailOrd(s.lanes[LaneOf(k)]) {
        var u :| 0 <= u < |s.threads| && HoldsPush(s.threads[u]) && s.threads[u].k == k;
        assert s'.threads[u] == s.threads[u];
      }
    }
    forall k: nat | k < s'.head ensures k in s'.popped || BeingPopped(s', k) {
      if k < s.head && k !in s.popped {
        var u :| 0 <= u < |s.threads| && Untaken(s.threads[u]) && s.threads[u].k == k;
        assert s'.threads[u] == s.threads[u];
      }
    }
    forall k: nat | k < s'.head ensures OrdOf(k) < HeadOrd(s'.lanes[LaneOf(k)]) || HoldingHead(s', k) {
      if k < s.head && OrdOf(k) >= HeadOrd(s.lanes[LaneOf(k)]) {
        var u :| 0 <= u < |s.threads| && HoldsPop(s.threads[u]) && !s.threads[u].PopFree? && s.threads[u].k == k;
        assert s'.threads[u] == s.threads[u];
      }
    }
  }

  lemma StepAccounted(s: State, s': State)
    requires Inv(s) && Accounted(s) && Step(s, s')
    ensures Accounted(s')
  {
    hide Inv, LaneStep, Accounted;
    if t: nat, v: Item :| StartPush(s, s', t, v) { TakeAccounted(s, s', t, PushAlloc(s.tail)); }
    else if t: nat :| StartPop(s, s', t) { TakeAccounted(s, s', t, PopTail(s.head)); }
    else if t: nat :| ReadTail(s, s', t) {
      TakeAccounted(s, s', t, if s.tail - s.threads[t].k <= 0 then Outside else PopCas(s.threads[t].k));
    }
    else if t: nat :| Cas(s, s', t) {
      TakeAccounted(s, s', t, if s.head == s.threads[t].k then PopWaitHead(s.head) else PopTail(s.head));
    }
    else {
      var t: nat :| LaneStep(s, s', t);
      LaneStepAccounted(s, s', t);
    }
  }

  lemma {:induction false} RunAccounted(run: seq<State>, i: nat)
    requires Run(run) && i < |run|
    ensures Accounted(run[i])
    decreases i
  {
    hide Inv, Step, Init, Accounted;
    if i == 0 {
      InitAccounted(run[0]);
    } else {
      RunInv(run, i - 1);
      RunAccounted(run, i - 1);
      StepAccounted(run[i - 1], run[i - 1 + 1]);
    }
  }

  lemma InitAccounted(s: State)
    requires Init(s)
    ensures Accounted(s)
  {
  }

  /** When no operation is under way, exactly the tickets below the head have been delivered, and every
      ticket between head and tail is still present on its page, ready for the pop that takes it. */
  lemma Quiescent(run: seq<State>)
    requires Run(run)
    requires var s := run[|run| - 1]; forall t :: 0 <= t < |s.threads| ==> s.threads[t] == Outside
    ensures var s := run[|run| - 1];
            && s.spp > 0 && |s.lanes| == N_QUEUE
            && (forall k: nat :: k in s.popped <==> k < s.head)
            && (forall k: nat :: s.head <= k < s.tail ==>
                  Present(s.spp, s.lanes[LaneOf(k)], s.pushed, LaneOf(k), OrdOf(k)))
  {
    var s := run[|run| - 1];
    RunInv(run, |run| - 1);
    RunAccounted(run, |run| - 1);
    forall k: nat | s.head <= k < s.tail
      ensures Present(s.spp, s.lanes[LaneOf(k)], s.pushed, LaneOf(k), OrdOf(k))
    {
      QuietTicket(s, k);
    }
  }

  lemma QuietTicket(s: State, k: nat)
    requires Inv(s) && Accounted(s) && (forall t :: 0 <= t < |s.threads| ==> s.threads[t] == Outside)
    requires s.head <= k < s.tail
    ensures Present(s.spp, s.lanes[LaneOf(k)], s.pushed, LaneOf(k), OrdOf(k))
  {
    var i, o := LaneOf(k), OrdOf(k);
    var l := s.lanes[i];
    assert LaneOk(s, l, i);
    assert o < TailOrd(l);
    TicketBijection(k);
    var h := HeadOrd(l);
    TicketOrder(i, o, if o < h then h - 1 else o);
    if h < o { OrdFacts(h, o, s.spp); }
    // the page of the head is still linked: its ticket would otherwise be in someone's hands
    TicketInverse(i, h);
    hide PageOf, IdxOf, TicketOf, OrdOf, LaneOf, ChainOk, SizesOk;
  }
}
