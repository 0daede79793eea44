/** The event count behind blocking queues: waiters that announce themselves, re-check their
    condition and sleep, and notifiers that take them off the wait set and hand each a token. Any
    number of both, atomic steps in any order; a section under the monitor's lock is one step. */
module Monitor {

  const EPOCHS := 0x1_0000_0000

  /** Where a waiter stands in wait(); last says that the wait ends after cancelling. */
  datatype Pc =
    | Out | PrepCheck | PrepPump | PrepMark | PrepAdd
    | Test | Commit | Sleep | Woken
    | Cancel1(last: bool) | Cancel2(last: bool) | Cancel3(last: bool)
    | DtorCheck | DtorPump

  /** A thread context with its semaphore. Whether a notifier has taken it off the wait set since it
      last consumed a token is recorded. */
  datatype Waiter = Waiter(pc: Pc, spurious: bool, inWaitset: bool, epoch: nat, sem: nat, notified: bool)

  datatype Kind = One | All | Some(pred: set<nat>)

  /** Where a notifier stands; the woken ones still to be signalled are in its private list. */
  datatype Notifier = Quiet | CheckEmpty(kind: Kind) | Lock(kind: Kind) | Signal(temp: seq<nat>)

  datatype State = State(waiters: seq<Waiter>, ring: seq<nat>, epoch: nat, condition: bool, notifiers: seq<Notifier>)

  ghost predicate Init(s: State) {
    && s.ring == [] && !s.condition && s.epoch == 0
    && (forall w :: 0 <= w < |s.waiters| ==> s.waiters[w].pc == Out && s.waiters[w].sem == 0 && !s.waiters[w].notified)
    && (forall n :: 0 <= n < |s.notifiers| ==> s.notifiers[n] == Quiet)
  }

  // ---- the waiter --------------------------------------------------------------------

  function Remove(ring: seq<nat>, w: nat): (r: seq<nat>)
    ensures w !in r
    ensures forall v :: v in r <==> v in ring && v != w
  {
    if ring == [] then []
    else if ring[0] == w then Remove(ring[1..], w)
    else [ring[0]] + Remove(ring[1..], w)
  }

  /** A step that only concerns the thread's own context. */
  ghost predicate OwnStep(s: State, x: Waiter, x': Waiter) {
    match x.pc
    case Out => x' == Waiter(PrepMark, false, false, x.epoch, x.sem, x.notified)
    case PrepCheck => x' == if x.spurious then x.(pc := PrepPump, spurious := false) else x.(pc := PrepMark)
    case PrepPump => x.sem > 0 && x' == x.(pc := PrepMark, sem := x.sem - 1, notified := false)
    case PrepMark => x' == x.(pc := PrepAdd, inWaitset := true)
    case Test => (x' == x.(pc := Cancel1(true))) || (!s.condition && x' == x.(pc := Commit))
    case Commit => x' == if x.epoch == s.epoch then x.(pc := Sleep) else x.(pc := Cancel1(false))
    case Sleep => x.sem > 0 && x' == x.(pc := Woken, sem := x.sem - 1, notified := false)
    case Woken => (x' == x.(pc := DtorCheck)) || (!s.condition && x' == x.(pc := PrepCheck))
    case Cancel1(last) => x' == x.(pc := Cancel2(last), spurious := true)
    case Cancel2(last) => x' == x.(pc := if x.inWaitset then Cancel3(last) else Canceled(last))
    case DtorCheck => x' == x.(pc := if x.spurious then DtorPump else Out)
    case DtorPump => x.sem > 0 && x' == x.(pc := Out, sem := x.sem - 1, notified := false)
    case _ => false
  }

  function Canceled(last: bool): Pc {
    if last then DtorCheck else PrepCheck
  }

  ghost predicate WaiterStep(s: State, s': State, w: nat) {
    && w < |s.waiters| && |s'.waiters| == |s.waiters|
    && var x, x' := s.waiters[w], s'.waiters[w];
       || (OwnStep(s, x, x') && s' == s.(waiters := s.waiters[w := x']))
       // prepare_wait, under the lock
       || (x.pc == PrepAdd && x' == x.(pc := Test, epoch := s.epoch)
           && s' == s.(waiters := s.waiters[w := x'], ring := s.ring + [w]))
       // cancel_wait, under the lock
       || (x.pc.Cancel3?
           && x' == (if x.inWaitset then x.(pc := Canceled(x.pc.last), inWaitset := false, spurious := false)
                     else x.(pc := Canceled(x.pc.last)))
           && s' == s.(waiters := s.waiters[w := x'], ring := if x.inWaitset then Remove(s.ring, w) else s.ring))
  }

  // ---- the notifier ---------------------------------------------------------------------

  /** The scan of notify by predicate goes from the last waiter back to the first. */
  function Matching(ring: seq<nat>, pred: set<nat>): (r: seq<nat>)
    ensures forall v :: v in r <==> v in ring && v in pred
  {
    if ring == [] then []
    else
      var n := |ring| - 1;
      (if ring[n] in pred then [ring[n]] else []) + Matching(ring[..n], pred)
  }

  /** Those it removes leave the others in their order. */
  function Others(ring: seq<nat>, pred: set<nat>): (r: seq<nat>)
    ensures forall v :: v in r <==> v in ring && v !in pred
  {
    if ring == [] then []
    else
      var n := |ring| - 1;
      Others(ring[..n], pred) + (if ring[n] in pred then [] else [ring[n]])
  }

  /** Whom a notification takes off the wait set, and whom it leaves there. */
  function Taken(ring: seq<nat>, kind: Kind): seq<nat> {
    match kind
    case One => if ring == [] then [] else [ring[0]]
    case All => ring
    case Some(pred) => Matching(ring, pred)
  }

  function Left(ring: seq<nat>, kind: Kind): seq<nat> {
    match kind
    case One => if ring == [] then [] else ring[1..]
    case All => []
    case Some(pred) => Others(ring, pred)
  }

  ghost predicate TakenOff(waiters: seq<Waiter>, waiters': seq<Waiter>, taken: seq<nat>) {
    && |waiters'| == |waiters|
    && forall w :: 0 <= w < |waiters| ==>
         waiters'[w] == if w in taken then waiters[w].(inWaitset := false, notified := true) else waiters[w]
  }

  ghost predicate NotifierStep(s: State, s': State, n: nat) {
    && n < |s.notifiers| && |s'.notifiers| == |s.notifiers|
    && match s.notifiers[n]
       case Quiet =>
         // notify some, or set the condition and notify all
         || (exists kind :: s' == s.(notifiers := s.notifiers[n := CheckEmpty(kind)]))
         || s' == s.(condition := true, notifiers := s.notifiers[n := CheckEmpty(All)])
       case CheckEmpty(kind) => s' == s.(notifiers := s.notifiers[n := if s.ring == [] then Quiet else Lock(kind)])
       case Lock(kind) =>
         && TakenOff(s.waiters, s'.waiters, Taken(s.ring, kind))
         && s' == s.(epoch := (s.epoch + 1) % EPOCHS, ring := Left(s.ring, kind), waiters := s'.waiters,
                     notifiers := s.notifiers[n := Signal(Taken(s.ring, kind))])
       case Signal(temp) =>
         if temp == [] then s' == s.(notifiers := s.notifiers[n := Quiet])
         else
           && temp[0] < |s.waiters|
           && var x := s.waiters[temp[0]];
              s' == s.(waiters := s.waiters[temp[0] := x.(sem := x.sem + 1)], notifiers := s.notifiers[n := Signal(temp[1..])])
  }

  ghost predicate Step(s: State, s': State) {
    (exists w: nat :: WaiterStep(s, s', w)) || (exists n: nat :: NotifierStep(s, s', n))
  }

  ghost predicate Run(run: seq<State>) {
    run != [] && Init(run[0]) && forall i :: 0 <= i < |run| - 1 ==> Step(run[i], run[i + 1])
  }

  // ---- invariant --------------------------------------------------------------------------

  function Occurs(q: seq<nat>, w: nat): nat {
    if q == [] then 0 else (if q[0] == w then 1 else 0) + Occurs(q[1..], w)
  }

  function InList(n: Notifier, w: nat): nat {
    if n.Signal? then Occurs(n.temp, w) else 0
  }

  /** Signals for w that notifiers still have to give. */
  function Pending(notifiers: seq<Notifier>, w: nat): nat {
    if notifiers == [] then 0
    else Pending(notifiers[..|notifiers| - 1], w) + InList(notifiers[|notifiers| - 1], w)
  }

  function B(b: bool): nat {
    if b then 1 else 0
  }

  /** Given or pending tokens, ring membership and flags, by the place where the waiter stands. */
  ghost predicate WaiterOk(x: Waiter, inRing: nat, pending: nat) {
    && x.sem + pending == B(x.notified)
    && (match x.pc
        case Out => inRing == 0 && !x.notified
        case PrepCheck => inRing == 0 && x.spurious == x.notified && !x.inWaitset
        case PrepPump => inRing == 0 && !x.spurious && x.notified && !x.inWaitset
        case PrepMark => inRing == 0 && !x.spurious && !x.notified && !x.inWaitset
        case PrepAdd => inRing == 0 && !x.spurious && !x.notified && x.inWaitset
        case Test => inRing == B(x.inWaitset) && x.notified == !x.inWaitset && !x.spurious
        case Commit => inRing == B(x.inWaitset) && x.notified == !x.inWaitset && !x.spurious
        case Sleep => inRing == B(x.inWaitset) && x.notified == !x.inWaitset && !x.spurious
        case Woken => inRing == 0 && !x.notified && !x.inWaitset && !x.spurious
        case Cancel1(_) => inRing == B(x.inWaitset) && x.notified == !x.inWaitset && !x.spurious
        case Cancel2(_) => inRing == B(x.inWaitset) && x.notified == !x.inWaitset && x.spurious
        case Cancel3(_) => inRing == B(x.inWaitset) && x.notified == !x.inWaitset && x.spurious
        case DtorCheck => inRing == 0 && x.spurious == x.notified && !x.inWaitset
        case DtorPump => inRing == 0 && x.notified && !x.inWaitset)
  }

  ghost predicate AllOk(s: State) {
    && (forall w :: 0 <= w < |s.waiters| ==> WaiterOk(s.waiters[w], Occurs(s.ring, w), Pending(s.notifiers, w)))
    && (forall v :: v in s.ring ==> v < |s.waiters|)
    && (forall n :: 0 <= n < |s.notifiers| && s.notifiers[n].Signal? ==>
          forall v :: v in s.notifiers[n].temp ==> v < |s.waiters|)
  }

  /** A waiter that has seen the condition false and is on its way to sleep. */
  predicate Committed(x: Waiter) {
    x.pc.Commit? || x.pc.Sleep?
  }

  predicate WillTakeAll(n: Notifier) {
    (n.CheckEmpty? || n.Lock?) && n.kind == All
  }

  /** While such a waiter is on the wait set although the condition holds, a notifier is still to come. */
  ghost predicate NoneLost(s: State) {
    forall w :: s.condition && 0 <= w < |s.waiters| && Committed(s.waiters[w]) && w in s.ring ==>
      exists n :: 0 <= n < |s.notifiers| && WillTakeAll(s.notifiers[n])
  }

  ghost predicate Inv(s: State) {
    AllOk(s) && NoneLost(s)
  }

  // ---- counting -----------------------------------------------------------------------------

  lemma {:induction false} OccursAppend(q: seq<nat>, x: nat, w: nat)
    ensures Occurs(q + [x], w) == Occurs(q, w) + (if x == w then 1 else 0)
  {
    if q != [] {
      assert (q + [x])[1..] == q[1..] + [x];
      OccursAppend(q[1..], x, w);
    }
  }

  lemma {:induction false} OccursRemove(q: seq<nat>, x: nat, w: nat)
    ensures Occurs(Remove(q, x), w) == if w == x then 0 else Occurs(q, w)
  {
    if q != [] {
      OccursRemove(q[1..], x, w);
      if q[0] != x { assert Remove(q, x)[1..] == Remove(q[1..], x); }
    }
  }

  lemma {:induction false} OccursLast(q: seq<nat>, w: nat)
    requires q != []
    ensures Occurs(q, w) == Occurs(q[..|q| - 1], w) + (if q[|q| - 1] == w then 1 else 0)
  {
    assert q[..|q| - 1] + [q[|q| - 1]] == q;
    OccursAppend(q[..|q| - 1], q[|q| - 1], w);
  }

  lemma {:induction false} OccursSplit(q: seq<nat>, pred: set<nat>, w: nat)
    ensures Occurs(Matching(q, pred), w) == if w in pred then Occurs(q, w) else 0
    ensures Occurs(Others(q, pred), w) == if w in pred then 0 else Occurs(q, w)
  {
    if q != [] {
      var n := |q| - 1;
      OccursSplit(q[..n], pred, w);
      OccursLast(q, w);
      if q[n] in pred {
        assert Matching(q, pred)[1..] == Matching(q[..n], pred);
        assert Others(q, pred) == Others(q[..n], pred);
      } else {
        assert Matching(q, pred) == Matching(q[..n], pred);
        OccursAppend(Others(q[..n], pred), q[n], w);
      }
    }
  }

  lemma {:induction false} OccursIn(q: seq<nat>, w: nat)
    ensures w in q <==> Occurs(q, w) > 0
  {
    if q != [] { OccursIn(q[1..], w); }
  }

  /** A notification splits the wait set. */
  lemma TakenLeft(q: seq<nat>, kind: Kind, w: nat)
    requires Occurs(q, w) <= 1
    ensures Occurs(Taken(q, kind), w) + Occurs(Left(q, kind), w) == Occurs(q, w)
    ensures w in Taken(q, kind) <==> Occurs(Taken(q, kind), w) == 1
    ensures w in Left(q, kind) ==> w in q
  {
    if kind.Some? {
      OccursSplit(q, kind.pred, w);
    } else if kind.One? && q != [] {
      assert [q[0]][1..] == [];
    }
    OccursIn(Taken(q, kind), w);
    OccursIn(Left(q, kind), w);
    OccursIn(q, w);
  }

  lemma {:induction false} PendingUpdate(notifiers: seq<Notifier>, n: nat, x: Notifier, w: nat)
    requires n < |notifiers|
    ensures Pending(notifiers[n := x], w) == Pending(notifiers, w) - InList(notifiers[n], w) + InList(x, w)
    ensures Pending(notifiers, w) >= InList(notifiers[n], w)
  {
    var m := |notifiers| - 1;
    if n < m {
      assert notifiers[n := x][..m] == notifiers[..m][n := x];
      PendingUpdate(notifiers[..m], n, x, w);
    } else {
      assert notifiers[n := x][..m] == notifiers[..m];
    }
  }

  lemma {:induction false} PendingNone(notifiers: seq<Notifier>, w: nat)
    requires forall n :: 0 <= n < |notifiers| ==> notifiers[n] == Quiet
    ensures Pending(notifiers, w) == 0
  {
    if notifiers != [] { PendingNone(notifiers[..|notifiers| - 1], w); }
  }

  // ---- every step keeps the invariant -------------------------------------------------------

  lemma OwnOk(s: State, x: Waiter, x': Waiter, inRing: nat, pending: nat)
    requires WaiterOk(x, inRing, pending) && OwnStep(s, x, x')
    ensures WaiterOk(x', inRing, pending)
    ensures Committed(x') ==> Committed(x) || !s.condition
  {
  }

  lemma AddOk(x: Waiter, pending: nat, epoch: nat)
    requires WaiterOk(x, 0, pending) && x.pc == PrepAdd
    ensures WaiterOk(x.(pc := Test, epoch := epoch), 1, pending)
  {
  }

  lemma CancelOk(x: Waiter, inRing: nat, pending: nat)
    requires WaiterOk(x, inRing, pending) && x.pc.Cancel3?
    ensures WaiterOk(if x.inWaitset then x.(pc := Canceled(x.pc.last), inWaitset := false, spurious := false)
                     else x.(pc := Canceled(x.pc.last)), 0, pending)
    ensures !x.inWaitset ==> inRing == 0
  {
  }

  lemma WaiterStepOk(s: State, s': State, w: nat)
    requires AllOk(s) && WaiterStep(s, s', w)
    ensures AllOk(s')
  {
    var x := s.waiters[w];
    assert WaiterOk(x, Occurs(s.ring, w), Pending(s.notifiers, w));
    forall v | 0 <= v < |s'.waiters| ensures WaiterOk(s'.waiters[v], Occurs(s'.ring, v), Pending(s'.notifiers, v)) {
      assert WaiterOk(s.waiters[v], Occurs(s.ring, v), Pending(s.notifiers, v));
      OccursAppend(s.ring, w, v);
      OccursRemove(s.ring, w, v);
      if v == w { OneWaiterOk(s, s', w); }
    }
    hide WaiterOk, OwnStep;
  }

  lemma OneWaiterOk(s: State, s': State, w: nat)
    requires AllOk(s) && WaiterStep(s, s', w)
    ensures WaiterOk(s'.waiters[w], Occurs(s'.ring, w), Pending(s'.notifiers, w))
  {
    var x, x' := s.waiters[w], s'.waiters[w];
    var r, p := Occurs(s.ring, w), Pending(s.notifiers, w);
    assert WaiterOk(x, r, p);
    OccursAppend(s.ring, w, w);
    OccursRemove(s.ring, w, w);
    if x.pc == PrepAdd {
      assert r == 0;
      AddOk(x, p, s.epoch);
    } else if x.pc.Cancel3? {
      CancelOk(x, r, p);
    } else {
      OwnOk(s, x, x', r, p);
    }
    hide WaiterOk, OwnStep, Occurs, Pending;
  }

  lemma SignalOk(x: Waiter, inRing: nat, pending: nat)
    requires WaiterOk(x, inRing, pending) && pending > 0
    ensures WaiterOk(x.(sem := x.sem + 1), inRing, pending - 1)
    ensures x.pc != Out && x.sem == 0
  {
  }

  lemma TakeOk(x: Waiter, pending: nat)
    requires WaiterOk(x, 1, pending)
    ensures WaiterOk(x.(inWaitset := false, notified := true), 0, pending + 1)
  {
  }

  lemma AtMostOnce(x: Waiter, inRing: nat, pending: nat)
    requires WaiterOk(x, inRing, pending)
    ensures inRing <= 1 && x.sem + pending <= 1
  {
  }

  lemma LockOk(s: State, s': State, n: nat)
    requires AllOk(s) && NotifierStep(s, s', n) && s.notifiers[n].Lock?
    ensures AllOk(s')
  {
    hide Taken, Left;
    var kind := s.notifiers[n].kind;
    var taken, left := Taken(s.ring, kind), Left(s.ring, kind);
    forall v | 0 <= v < |s'.waiters| ensures WaiterOk(s'.waiters[v], Occurs(left, v), Pending(s'.notifiers, v)) {
      var x, p := s.waiters[v], Pending(s.notifiers, v);
      assert WaiterOk(x, Occurs(s.ring, v), p);
      AtMostOnce(x, Occurs(s.ring, v), p);
      TakenLeft(s.ring, kind, v);
      PendingUpdate(s.notifiers, n, Signal(taken), v);
      hide WaiterOk, Occurs, Pending;
      if v in taken { TakeOk(x, p); } else { NotIn(taken, v); }
    }
    forall v | v in left || v in taken ensures v < |s'.waiters| { TakenIn(s.ring, kind, v); }
    hide WaiterOk, Occurs, Pending;
  }

  lemma NotIn(q: seq<nat>, v: nat)
    requires v !in q
    ensures Occurs(q, v) == 0
  {
    OccursIn(q, v);
  }

  lemma TakenIn(q: seq<nat>, kind: Kind, v: nat)
    requires v in Left(q, kind) || v in Taken(q, kind)
    ensures v in q
  {
  }

  lemma SignalStepOk(s: State, s': State, n: nat)
    requires AllOk(s) && NotifierStep(s, s', n) && s.notifiers[n].Signal? && s.notifiers[n].temp != []
    ensures AllOk(s')
    ensures s.waiters[s.notifiers[n].temp[0]].pc != Out && s.waiters[s.notifiers[n].temp[0]].sem == 0
  {
    var temp := s.notifiers[n].temp;
    var w := temp[0];
    forall v | 0 <= v < |s'.waiters| ensures WaiterOk(s'.waiters[v], Occurs(s'.ring, v), Pending(s'.notifiers, v)) {
      assert WaiterOk(s.waiters[v], Occurs(s.ring, v), Pending(s.notifiers, v));
      PendingUpdate(s.notifiers, n, Signal(temp[1..]), v);
      if v == w { SignalOk(s.waiters[v], Occurs(s.ring, v), Pending(s.notifiers, v)); }
    }
    PendingUpdate(s.notifiers, n, Signal(temp[1..]), w);
    assert WaiterOk(s.waiters[w], Occurs(s.ring, w), Pending(s.notifiers, w));
    SignalOk(s.waiters[w], Occurs(s.ring, w), Pending(s.notifiers, w));
    hide WaiterOk, Pending, Occurs;
    forall v | v in temp[1..] ensures v < |s'.waiters| { assert v in temp; }
    forall m | 0 <= m < |s'.notifiers| && s'.notifiers[m].Signal?
      ensures forall v :: v in s'.notifiers[m].temp ==> v < |s'.waiters|
    {
      if m != n { assert s'.notifiers[m] == s.notifiers[m]; }
    }
  }

  lemma QuietStepOk(s: State, s': State, n: nat, x: Notifier)
    requires AllOk(s) && n < |s.notifiers| && s'.notifiers == s.notifiers[n := x] && s'.waiters == s.waiters && s'.ring == s.ring
    requires (s.notifiers[n].Signal? ==> s.notifiers[n].temp == []) && !x.Signal?
    ensures AllOk(s')
  {
    forall v | 0 <= v < |s'.waiters| ensures WaiterOk(s'.waiters[v], Occurs(s'.ring, v), Pending(s'.notifiers, v)) {
      assert WaiterOk(s.waiters[v], Occurs(s.ring, v), Pending(s.notifiers, v));
      PendingUpdate(s.notifiers, n, x, v);
    }
    hide WaiterOk, Pending, Occurs;
  }

  lemma NotifierStepOk(s: State, s': State, n: nat)
    requires AllOk(s) && NotifierStep(s, s', n)
    ensures AllOk(s')
  {
    if s.notifiers[n].Lock? {
      LockOk(s, s', n);
    } else if s.notifiers[n].Signal? && s.notifiers[n].temp != [] {
      SignalStepOk(s, s', n);
    } else {
      QuietStepOk(s, s', n, s'.notifiers[n]);
    }
    hide AllOk;
  }

  // ---- no waiter is lost ----------------------------------------------------------------------

  /** A waiter commits only while the condition is false. */
  lemma WaiterStepNoneLost(s: State, s': State, w: nat)
    requires Inv(s) && WaiterStep(s, s', w)
    ensures NoneLost(s')
  {
    assert WaiterOk(s.waiters[w], Occurs(s.ring, w), Pending(s.notifiers, w));
    forall v | s'.condition && 0 <= v < |s'.waiters| && Committed(s'.waiters[v]) && v in s'.ring
      ensures exists n :: 0 <= n < |s'.notifiers| && WillTakeAll(s'.notifiers[n])
    {
      if v == w {
        assert OwnStep(s, s.waiters[w], s'.waiters[w]);
        OwnOk(s, s.waiters[w], s'.waiters[w], Occurs(s.ring, w), Pending(s.notifiers, w));
      }
      assert Committed(s.waiters[v]) && v in s.ring;
      var n :| 0 <= n < |s.notifiers| && WillTakeAll(s.notifiers[n]);
      assert s'.notifiers[n] == s.notifiers[n];
    }
  }

  /** Setting the condition announces a notify_all; that one leaves no one behind. */
  lemma NotifierStepNoneLost(s: State, s': State, n: nat)
    requires Inv(s) && NotifierStep(s, s', n)
    ensures NoneLost(s')
  {
    forall v | s'.condition && 0 <= v < |s'.waiters| && Committed(s'.waiters[v]) && v in s'.ring
      ensures exists m :: 0 <= m < |s'.notifiers| && WillTakeAll(s'.notifiers[m])
    {
      if !s.condition {
        assert WillTakeAll(s'.notifiers[n]);
      } else {
        StillThere(s, s', n, v);
        var m :| 0 <= m < |s.notifiers| && WillTakeAll(s.notifiers[m]);
        if m == n {
          assert WillTakeAll(s'.notifiers[n]);
        } else {
          assert s'.notifiers[m] == s.notifiers[m];
        }
      }
    }
  }

  lemma StillThere(s: State, s': State, n: nat, v: nat)
    requires NotifierStep(s, s', n) && v < |s'.waiters| && Committed(s'.waiters[v]) && v in s'.ring
    ensures v < |s.waiters| && Committed(s.waiters[v]) && v in s.ring
  {
    if s.notifiers[n].Lock? { TakenIn(s.ring, s.notifiers[n].kind, v); }
  }

  lemma InitInv(s: State)
    requires Init(s)
    ensures Inv(s)
  {
    forall w | 0 <= w < |s.waiters| ensures WaiterOk(s.waiters[w], Occurs(s.ring, w), Pending(s.notifiers, w)) {
      PendingNone(s.notifiers, w);
    }
  }

  lemma StepInv(s: State, s': State)
    requires Inv(s) && Step(s, s')
    ensures Inv(s')
  {
    hide AllOk, NoneLost, WaiterStep, NotifierStep;
    if w: nat :| WaiterStep(s, s', w) {
      WaiterStepOk(s, s', w);
      WaiterStepNoneLost(s, s', w);
    } else {
      var n: nat :| NotifierStep(s, s', n);
      NotifierStepOk(s, s', n);
      NotifierStepNoneLost(s, s', n);
    }
  }

  lemma {:induction false} RunInv(run: seq<State>, i: nat)
    requires Run(run) && i < |run|
    ensures Inv(run[i])
    decreases i
  {
    hide Inv, Step, Init;
    if i == 0 {
      InitInv(run[0]);
    } else {
      RunInv(run, i - 1);
      StepInv(run[i - 1], run[i - 1 + 1]);
    }
  }

  // ---- what every run guarantees ----------------------------------------------------------------

  /** A waiter has a token, given or on its way, exactly when a notifier has taken it off the wait set
      and it has not consumed it; never two. Nobody signals a context whose wait() has returned. */
  lemma OneToken(run: seq<State>, i: nat, w: nat)
    requires Run(run) && i < |run| && w < |run[i].waiters|
    ensures var x, p := run[i].waiters[w], Pending(run[i].notifiers, w);
            && x.sem + p == (if x.notified then 1 else 0)
            && (x.pc == Out ==> x.sem == 0 && p == 0 && w !in run[i].ring)
            && Occurs(run[i].ring, w) <= 1
  {
    RunInv(run, i);
    assert WaiterOk(run[i].waiters[w], Occurs(run[i].ring, w), Pending(run[i].notifiers, w));
    OccursIn(run[i].ring, w);
  }

  /** When the condition has been set and all notifications are over, every waiter that sleeps or is
      about to has its token. */
  lemma NobodySleepsOn(run: seq<State>, w: nat)
    requires Run(run) && w < |run[|run| - 1].waiters|
    requires var s := run[|run| - 1];
             s.condition && (forall n :: 0 <= n < |s.notifiers| ==> s.notifiers[n] == Quiet)
    ensures var x := run[|run| - 1].waiters[w]; Committed(x) ==> x.sem == 1
  {
    var s := run[|run| - 1];
    RunInv(run, |run| - 1);
    assert WaiterOk(s.waiters[w], Occurs(s.ring, w), Pending(s.notifiers, w));
    PendingNone(s.notifiers, w);
    OccursIn(s.ring, w);
  }

  /** A waiter that wakes up has left the wait set. */
  lemma WokenOutside(run: seq<State>, i: nat, w: nat)
    requires Run(run) && i < |run| && w < |run[i].waiters| && run[i].waiters[w].pc == Woken
    ensures !run[i].waiters[w].inWaitset && w !in run[i].ring
  {
    RunInv(run, i);
    assert WaiterOk(run[i].waiters[w], Occurs(run[i].ring, w), Pending(run[i].notifiers, w));
    OccursIn(run[i].ring, w);
  }
}
