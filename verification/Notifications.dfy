/** What a notification does to the waiters, how a waiter notices one that came between its two looks at the
    condition, and why every wait can end. */
module Notifications {
  import opened Monitor

  // ---- whom a notification reaches ---------------------------------------------------------

  /** Taken off the wait set, and owed a token. */
  function Reached(x: Waiter): Waiter {
    x.(inWaitset := false, notified := true)
  }

  /** What the section under the lock never does otherwise. */
  ghost predicate OnlyNotifies(s: State, s': State, n: nat) {
    && |s'.waiters| == |s.waiters| && |s'.notifiers| == |s.notifiers| && s'.condition == s.condition
    && s'.epoch == (s.epoch + 1) % EPOCHS
    && forall m :: 0 <= m < |s.notifiers| && m != n ==> s'.notifiers[m] == s.notifiers[m]
  }

  /** notify_one takes the first waiter off the wait set, and no other. */
  lemma NotifyOne(s: State, s': State, n: nat)
    requires NotifierStep(s, s', n) && s.notifiers[n] == Lock(One) && s.ring != []
    ensures OnlyNotifies(s, s', n) && s'.ring == s.ring[1..] && s'.notifiers[n] == Signal([s.ring[0]])
    ensures forall w :: 0 <= w < |s.waiters| ==>
              s'.waiters[w] == if w == s.ring[0] then Reached(s.waiters[w]) else s.waiters[w]
  {
  }

  /** notify_all takes everyone off the wait set, to be signalled in the order of the set. */
  lemma NotifyAll(s: State, s': State, n: nat)
    requires NotifierStep(s, s', n) && s.notifiers[n] == Lock(All)
    ensures OnlyNotifies(s, s', n) && s'.ring == [] && s'.notifiers[n] == Signal(s.ring)
    ensures forall w :: 0 <= w < |s.waiters| ==>
              s'.waiters[w] == if w in s.ring then Reached(s.waiters[w]) else s.waiters[w]
  {
  }

  /** v stands before w. */
  ghost predicate Before(q: seq<nat>, v: nat, w: nat) {
    exists i, j :: 0 <= i < j < |q| && q[i] == v && q[j] == w
  }

  /** notify takes off exactly the waiters its predicate accepts, to be signalled from the last to the first;
      the others stay in their order. */
  lemma NotifySome(s: State, s': State, n: nat, pred: set<nat>)
    requires NotifierStep(s, s', n) && s.notifiers[n] == Lock(Some(pred))
    ensures OnlyNotifies(s, s', n) && s'.notifiers[n].Signal?
    ensures var temp := s'.notifiers[n].temp;
            forall w: nat :: Occurs(s'.ring, w) == (if w in pred then 0 else Occurs(s.ring, w))
                             && Occurs(temp, w) == (if w in pred then Occurs(s.ring, w) else 0)
    ensures forall v: nat, w: nat :: Before(s'.ring, v, w) <==> Before(s.ring, v, w) && v !in pred && w !in pred
    ensures var temp := s'.notifiers[n].temp;
            forall v: nat, w: nat :: Before(temp, v, w) <==> Before(s.ring, w, v) && v in pred && w in pred
    ensures forall w :: 0 <= w < |s.waiters| ==>
              s'.waiters[w] == if w in s.ring && w in pred then Reached(s.waiters[w]) else s.waiters[w]
  {
    var temp := s'.notifiers[n].temp;
    forall v: nat, w: nat
      ensures Before(s'.ring, v, w) <==> Before(s.ring, v, w) && v !in pred && w !in pred
      ensures Before(temp, v, w) <==> Before(s.ring, w, v) && v in pred && w in pred
    {
      OthersOrder(s.ring, pred, v, w);
      MatchingOrder(s.ring, pred, v, w);
    }
    forall w: nat
      ensures Occurs(s'.ring, w) == (if w in pred then 0 else Occurs(s.ring, w))
      ensures Occurs(temp, w) == (if w in pred then Occurs(s.ring, w) else 0)
    {
      OccursSplit(s.ring, pred, w);
    }
    hide Matching, Others, Occurs, Before;
  }

  lemma BeforeAppend(q: seq<nat>, x: nat, v: nat, w: nat)
    ensures Before(q + [x], v, w) <==> Before(q, v, w) || (v in q && x == w)
  {
    if Before(q, v, w) {
      var i, j :| 0 <= i < j < |q| && q[i] == v && q[j] == w;
      assert (q + [x])[i] == v && (q + [x])[j] == w;
    }
    if v in q && x == w {
      var i :| 0 <= i < |q| && q[i] == v;
      assert (q + [x])[i] == v && (q + [x])[|q|] == w;
    }
  }

  lemma BeforePrepend(q: seq<nat>, x: nat, v: nat, w: nat)
    ensures Before([x] + q, v, w) <==> Before(q, v, w) || (w in q && x == v)
  {
    if Before(q, v, w) {
      var i, j :| 0 <= i < j < |q| && q[i] == v && q[j] == w;
      assert ([x] + q)[i + 1] == v && ([x] + q)[j + 1] == w;
    }
    if w in q && x == v {
      var j :| 0 <= j < |q| && q[j] == w;
      assert ([x] + q)[0] == v && ([x] + q)[j + 1] == w;
    }
    if Before([x] + q, v, w) {
      var i, j :| 0 <= i < j < |[x] + q| && ([x] + q)[i] == v && ([x] + q)[j] == w;
      assert q[j - 1] == w;
      if i > 0 { assert q[i - 1] == v; }
    }
  }

  lemma {:induction false} OthersOrder(q: seq<nat>, pred: set<nat>, v: nat, w: nat)
    ensures Before(Others(q, pred), v, w) <==> Before(q, v, w) && v !in pred && w !in pred
  {
    if q != [] {
      var n := |q| - 1;
      OthersOrder(q[..n], pred, v, w);
      BeforeAppend(q[..n], q[n], v, w);
      BeforeAppend(Others(q[..n], pred), q[n], v, w);
      assert q[..n] + [q[n]] == q;
      assert Others(q[..n], pred) + [] == Others(q[..n], pred);
      hide Before;
    }
  }

  lemma {:induction false} MatchingOrder(q: seq<nat>, pred: set<nat>, v: nat, w: nat)
    ensures Before(Matching(q, pred), v, w) <==> Before(q, w, v) && v in pred && w in pred
  {
    if q != [] {
      var n := |q| - 1;
      MatchingOrder(q[..n], pred, v, w);
      BeforeAppend(q[..n], q[n], w, v);
      BeforePrepend(Matching(q[..n], pred), q[n], v, w);
      assert q[..n] + [q[n]] == q;
      assert [] + Matching(q[..n], pred) == Matching(q[..n], pred);
      hide Before;
    }
  }

  /** A notification is dropped only over an empty wait set; otherwise it goes on to take the lock. */
  lemma DroppedOnlyEmpty(s: State, s': State, n: nat)
    requires NotifierStep(s, s', n) && s.notifiers[n].CheckEmpty?
    ensures s'.notifiers[n] == (if s.ring == [] then Quiet else Lock(s.notifiers[n].kind))
    ensures s'.waiters == s.waiters && s'.ring == s.ring && s'.epoch == s.epoch && s'.condition == s.condition
  {
  }

  /** Over an empty wait set nobody is notified. */
  lemma NotifyNobody(s: State, s': State, n: nat)
    requires NotifierStep(s, s', n) && s.notifiers[n].Lock? && s.ring == []
    ensures OnlyNotifies(s, s', n) && s'.ring == [] && s'.notifiers[n] == Signal([]) && s'.waiters == s.waiters
  {
  }

  // ---- the order of the wait set -----------------------------------------------------------

  lemma {:induction false} RemoveOrder(q: seq<nat>, x: nat, v: nat, w: nat)
    ensures Before(Remove(q, x), v, w) <==> Before(q, v, w) && v != x && w != x
  {
    if q != [] {
      RemoveOrder(q[1..], x, v, w);
      BeforePrepend(q[1..], q[0], v, w);
      BeforePrepend(Remove(q[1..], x), q[0], v, w);
      assert [q[0]] + q[1..] == q;
      hide Before;
    }
  }

  /** A waiter joins behind everyone, and its coming and going leaves the others in their order. */
  lemma FirstComeFirstServed(s: State, s': State, w: nat, u: nat, v: nat)
    requires WaiterStep(s, s', w) && u != w && v != w
    ensures Before(s'.ring, u, v) <==> Before(s.ring, u, v)
    ensures s.waiters[w].pc == PrepAdd ==> s'.waiters[w].pc == Test && (Before(s'.ring, u, w) <==> Before(s.ring, u, w) || u in s.ring)
  {
    RemoveOrder(s.ring, w, u, v);
    BeforeAppend(s.ring, w, u, v);
    BeforeAppend(s.ring, w, u, w);
    hide Before, Remove;
  }

  // ---- every notification is delivered -------------------------------------------------------

  /** Whom a notification of this kind is for. */
  ghost predicate Meant(ring: seq<nat>, kind: Kind, w: nat) {
    match kind
    case One => ring != [] && w == ring[0]
    case All => w in ring
    case Some(pred) => w in ring && w in pred
  }

  /** Some step from i on, before j, raises the waiter's semaphore. */
  ghost predicate Raised(run: seq<State>, i: nat, j: nat, w: nat) {
    exists m :: i <= m < j && m + 1 < |run| && RaisesAt(run[m], run[m + 1], w)
  }

  ghost predicate RaisesAt(s: State, s': State, w: nat) {
    w < |s.waiters| == |s'.waiters| && s'.waiters[w].sem == s.waiters[w].sem + 1
  }

  /** A notifier that has somebody left to signal signals the first of them, or another thread moves. */
  lemma SignalStep(s: State, s': State, n: nat)
    requires Step(s, s') && n < |s.notifiers| && s.notifiers[n].Signal? && s.notifiers[n].temp != []
    ensures n < |s'.notifiers|
    ensures s'.notifiers[n] == s.notifiers[n]
            || (s'.notifiers[n] == Signal(s.notifiers[n].temp[1..]) && RaisesAt(s, s', s.notifiers[n].temp[0]))
  {
    hide OwnStep, TakenOff, Taken, Left, Remove;
    if w: nat :| WaiterStep(s, s', w) {
    } else {
      var m: nat :| NotifierStep(s, s', m);
    }
  }

  lemma {:induction false} AllSignalled(run: seq<State>, i: nat, j: nat, n: nat, w: nat)
    requires Run(run) && i <= j < |run| && n < |run[i].notifiers| && n < |run[j].notifiers|
    requires run[i].notifiers[n].Signal? && w in run[i].notifiers[n].temp && run[j].notifiers[n] == Quiet
    ensures Raised(run, i, j, w)
    decreases j - i
  {
    hide *;
    StepOf(run, i);
    SignalStep(run[i], run[i + 1], n);
    if RaisesAt(run[i], run[i + 1], w) {
      RaisedNow(run, i, j, w);
    } else {
      AllSignalled(run, i + 1, j, n, w);
      RaisedLater(run, i, j, w);
    }
  }

  lemma StepOf(run: seq<State>, i: nat)
    requires Run(run) && i + 1 < |run|
    ensures Step(run[i], run[i + 1])
  {
  }

  lemma RaisedNow(run: seq<State>, i: nat, j: nat, w: nat)
    requires i < j && i + 1 < |run| && RaisesAt(run[i], run[i + 1], w)
    ensures Raised(run, i, j, w)
  {
  }

  lemma RaisedLater(run: seq<State>, i: nat, j: nat, w: nat)
    requires Raised(run, i + 1, j, w)
    ensures Raised(run, i, j, w)
  {
  }

  lemma LockTakes(s: State, s': State, n: nat, w: nat)
    requires Step(s, s') && n < |s.notifiers| && s.notifiers[n].Lock? && n < |s'.notifiers|
    requires s'.notifiers[n] != s.notifiers[n] && Meant(s.ring, s.notifiers[n].kind, w)
    ensures s'.notifiers[n].Signal? && w in s'.notifiers[n].temp
  {
    hide OwnStep, TakenOff, Remove;
    if u: nat :| WaiterStep(s, s', u) {
    } else {
      var m: nat :| NotifierStep(s, s', m);
    }
  }

  /** When a notification has come to its end, everyone it was meant for has got a token: notify_one the waiter
      that was first when it held the lock, notify_all all of them, notify those that its predicate accepts. */
  lemma Delivered(run: seq<State>, i: nat, j: nat, n: nat, w: nat)
    requires Run(run) && i < j < |run| && n < |run[i].notifiers| && n < |run[i + 1].notifiers| && n < |run[j].notifiers|
    requires run[i].notifiers[n].Lock? && run[i + 1].notifiers[n] != run[i].notifiers[n]
    requires Meant(run[i].ring, run[i].notifiers[n].kind, w)
    requires run[j].notifiers[n] == Quiet
    ensures Raised(run, i + 1, j, w)
  {
    hide Step, Init, RaisesAt, Meant;
    assert Step(run[i], run[i + 1]);
    LockTakes(run[i], run[i + 1], n, w);
    AllSignalled(run, i + 1, j, n, w);
  }

  // ---- a notification between the two looks at the condition ---------------------------------

  /** A notifier has been through its section under the lock. */
  ghost predicate Notifies(s: State, s': State) {
    exists n :: 0 <= n < |s.notifiers| && n < |s'.notifiers| && s.notifiers[n].Lock? && s'.notifiers[n].Signal?
  }

  /** How many notifications have been under the lock from i on, before j. */
  ghost function Notified(run: seq<State>, i: nat, j: nat): nat
    requires i <= j < |run|
    decreases j
  {
    if i == j then 0 else Notified(run, i, j - 1) + (if Notifies(run[j - 1], run[j]) then 1 else 0)
  }

  /** The epoch counts the notifications, and nothing else. */
  lemma EpochStep(s: State, s': State)
    requires Step(s, s')
    ensures |s'.notifiers| == |s.notifiers|
    ensures s'.epoch == if Notifies(s, s') then (s.epoch + 1) % EPOCHS else s.epoch
  {
    hide OwnStep, TakenOff, Taken, Left, Remove;
    if w: nat :| WaiterStep(s, s', w) {
    } else {
      var n: nat :| NotifierStep(s, s', n);
      if s.notifiers[n].Lock? { assert s'.notifiers[n].Signal?; }
    }
  }

  lemma NextEpoch(e: nat, k: nat)
    ensures ((e + k) % EPOCHS + 1) % EPOCHS == (e + k + 1) % EPOCHS
  {
  }

  lemma {:induction false} EpochCounts(run: seq<State>, i: nat, j: nat)
    requires Run(run) && i <= j < |run| && run[i].epoch < EPOCHS
    ensures run[j].epoch == (run[i].epoch + Notified(run, i, j)) % EPOCHS
    decreases j
  {
    hide Step, Init, Notifies;
    if i < j {
      EpochCounts(run, i, j - 1);
      assert Step(run[j - 1], run[j - 1 + 1]);
      EpochStep(run[j - 1], run[j]);
      NextEpoch(run[i].epoch, Notified(run, i, j - 1));
    }
  }

  /** The waiter has announced itself and stands before or behind its look at the condition. */
  predicate Undecided(x: Waiter) {
    x.pc == Test || x.pc == Commit
  }

  /** Only the waiter itself sets the epoch it remembers, and its place. */
  lemma OthersLeaveIt(s: State, s': State, w: nat)
    requires Step(s, s') && w < |s.waiters| && w < |s'.waiters|
    requires Undecided(s.waiters[w]) && Undecided(s'.waiters[w])
    ensures s'.waiters[w].epoch == s.waiters[w].epoch
  {
    hide Taken, Left, Remove;
    if v: nat :| WaiterStep(s, s', v) {
    } else {
      var n: nat :| NotifierStep(s, s', n);
    }
  }

  lemma NotifierKeepsPlaces(s: State, s': State, n: nat, w: nat)
    requires NotifierStep(s, s', n) && w < |s.waiters|
    ensures |s'.waiters| == |s.waiters| && s'.waiters[w].pc == s.waiters[w].pc
  {
    hide Taken, Left;
  }

  /** A waiter changes its place by its own steps. */
  lemma MovesItself(s: State, s': State, w: nat)
    requires Step(s, s') && w < |s.waiters| && w < |s'.waiters| && s'.waiters[w].pc != s.waiters[w].pc
    ensures WaiterStep(s, s', w)
  {
    hide NotifierStep;
    if n: nat :| NotifierStep(s, s', n) { NotifierKeepsPlaces(s, s', n, w); }
  }

  lemma Prepares(s: State, s': State, w: nat)
    requires Step(s, s') && w < |s.waiters| && w < |s'.waiters|
    requires s.waiters[w].pc == PrepAdd && Undecided(s'.waiters[w])
    ensures s'.waiters[w].epoch == s.epoch && s'.epoch == s.epoch
  {
    MovesItself(s, s', w);
    hide Step, Remove;
  }

  lemma Commits(s: State, s': State, w: nat)
    requires Step(s, s') && w < |s.waiters| && w < |s'.waiters|
    requires s.waiters[w].pc == Commit && s'.waiters[w].pc != Commit
    ensures s'.waiters[w].pc == if s.waiters[w].epoch == s.epoch then Sleep else Cancel1(false)
  {
    MovesItself(s, s', w);
    hide Step, Remove;
  }

  /** The waiter announces itself with step i, and is undecided until j. */
  ghost predicate Announced(run: seq<State>, i: nat, j: nat, w: nat) {
    && i < j < |run| && w < |run[i].waiters| && run[i].waiters[w].pc == PrepAdd
    && forall m :: i < m <= j ==> w < |run[m].waiters| && Undecided(run[m].waiters[w])
  }

  lemma {:induction false} Remembers(run: seq<State>, i: nat, j: nat, w: nat)
    requires Run(run) && Announced(run, i, j, w)
    ensures run[j].waiters[w].epoch == run[i].epoch
    decreases j
  {
    hide Step, Init;
    assert Step(run[j - 1], run[j - 1 + 1]);
    if j == i + 1 {
      Prepares(run[i], run[j], w);
    } else {
      Remembers(run, i, j - 1, w);
      OthersLeaveIt(run[j - 1], run[j], w);
    }
  }

  lemma {:induction false} EpochBound(run: seq<State>, i: nat)
    requires Run(run) && i < |run|
    ensures run[i].epoch < EPOCHS
    decreases i
  {
    hide Step, Notifies;
    if i > 0 {
      EpochBound(run, i - 1);
      assert Step(run[i - 1], run[i - 1 + 1]);
      EpochStep(run[i - 1], run[i]);
    }
  }

  lemma SameEpoch(e: nat, k: nat)
    requires e < EPOCHS
    ensures (e + k) % EPOCHS == e <==> k % EPOCHS == 0
  {
    var q, r := k / EPOCHS, k % EPOCHS;
    assert e + k == EPOCHS * q + (e + r);
    if e + r < EPOCHS {
      assert (e + k) % EPOCHS == e + r;
    } else {
      assert e + k == EPOCHS * (q + 1) + (e + r - EPOCHS);
      assert (e + k) % EPOCHS == e + r - EPOCHS;
    }
  }

  /** A waiter that has found its condition false goes to sleep exactly if no notification has been under the
      lock since it announced itself, or a multiple of 2^32; otherwise it looks again. */
  lemma SleepsUnnotified(run: seq<State>, i: nat, j: nat, w: nat)
    requires Run(run) && Announced(run, i, j, w) && j + 1 < |run| && w < |run[j + 1].waiters|
    requires run[j].waiters[w].pc == Commit && run[j + 1].waiters[w].pc != Commit
    ensures run[j + 1].waiters[w].pc == if Notified(run, i, j) % EPOCHS == 0 then Sleep else Cancel1(false)
  {
    hide Step, Init, Notified;
    assert Step(run[j], run[j + 1]);
    Commits(run[j], run[j + 1], w);
    Remembers(run, i, j, w);
    EpochBound(run, i);
    EpochCounts(run, i, j);
    SameEpoch(run[i].epoch, Notified(run, i, j));
  }
}
