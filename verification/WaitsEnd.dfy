/** No wait is in vain: in every reachable state the notifications under way can be finished, and once the
    condition has been set every waiter can go on until its wait returns. */
module WaitsEnd {
  import opened Monitor

  // ---- what is left to do when the condition holds -----------------------------------------

  function Way(pc: Pc): nat {
    match pc
    case Commit => 17
    case Sleep => 16
    case Woken => 15
    case Cancel1(last) => if last then 5 else 14
    case Cancel2(last) => if last then 4 else 13
    case Cancel3(last) => if last then 3 else 12
    case PrepCheck => 11
    case PrepPump => 10
    case PrepMark => 9
    case PrepAdd => 8
    case Test => 6
    case DtorCheck => 2
    case DtorPump => 1
    case Out => 0
  }

  function Ways(waiters: seq<Waiter>): nat {
    if waiters == [] then 0 else Ways(waiters[..|waiters| - 1]) + Way(waiters[|waiters| - 1].pc)
  }

  function Signals(x: Notifier): nat {
    match x
    case Quiet => 0
    case CheckEmpty(_) => 3
    case Lock(_) => 2
    case Signal(temp) => 1 + |temp|
  }

  function AllSignals(notifiers: seq<Notifier>): nat {
    if notifiers == [] then 0 else AllSignals(notifiers[..|notifiers| - 1]) + Signals(notifiers[|notifiers| - 1])
  }

  function Work(s: State): nat {
    |s.ring| + AllSignals(s.notifiers) + Ways(s.waiters)
  }

  lemma {:induction false} WaysUpdate(waiters: seq<Waiter>, w: nat, x: Waiter)
    requires w < |waiters|
    ensures Ways(waiters[w := x]) == Ways(waiters) - Way(waiters[w].pc) + Way(x.pc)
  {
    var n := |waiters| - 1;
    if w < n {
      assert waiters[w := x][..n] == waiters[..n][w := x];
      WaysUpdate(waiters[..n], w, x);
    } else {
      assert waiters[w := x][..n] == waiters[..n];
    }
  }

  lemma {:induction false} SamePlaces(ws: seq<Waiter>, ws': seq<Waiter>)
    requires |ws| == |ws'| && forall w :: 0 <= w < |ws| ==> ws[w].pc == ws'[w].pc
    ensures Ways(ws) == Ways(ws')
  {
    if ws != [] { SamePlaces(ws[..|ws| - 1], ws'[..|ws| - 1]); }
  }

  lemma {:induction false} SignalsUpdate(notifiers: seq<Notifier>, n: nat, x: Notifier)
    requires n < |notifiers|
    ensures AllSignals(notifiers[n := x]) == AllSignals(notifiers) - Signals(notifiers[n]) + Signals(x)
  {
    var m := |notifiers| - 1;
    if n < m {
      assert notifiers[n := x][..m] == notifiers[..m][n := x];
      SignalsUpdate(notifiers[..m], n, x);
    } else {
      assert notifiers[n := x][..m] == notifiers[..m];
    }
  }

  lemma {:induction false} SplitSize(ring: seq<nat>, pred: set<nat>)
    ensures |Matching(ring, pred)| + |Others(ring, pred)| == |ring|
  {
    if ring != [] { SplitSize(ring[..|ring| - 1], pred); }
  }

  lemma TakenSize(ring: seq<nat>, kind: Kind)
    ensures |Taken(ring, kind)| + |Left(ring, kind)| == |ring|
  {
    if kind.Some? { SplitSize(ring, kind.pred); }
  }

  lemma {:induction false} RemoveSize(ring: seq<nat>, w: nat)
    ensures |Remove(ring, w)| <= |ring|
  {
    if ring != [] { RemoveSize(ring[1..], w); }
  }

  // ---- notifiers -----------------------------------------------------------------------------

  /** A notifier waits for nobody. */
  lemma NotifierGoes(s: State, n: nat) returns (s': State)
    requires Inv(s) && n < |s.notifiers| && s.notifiers[n] != Quiet
    ensures NotifierStep(s, s', n) && s'.condition == s.condition && |s'.waiters| == |s.waiters| && Work(s') < Work(s)
  {
    hide Ways, AllSignals, Taken, Left, WaiterOk, NoneLost;
    match s.notifiers[n] {
      case CheckEmpty(kind) =>
        var x := if s.ring == [] then Quiet else Lock(kind);
        s' := s.(notifiers := s.notifiers[n := x]);
        SignalsUpdate(s.notifiers, n, x);
      case Lock(kind) =>
        s' := Locked(s, n, kind);
      case Signal(temp) =>
        if temp == [] {
          s' := s.(notifiers := s.notifiers[n := Quiet]);
          SignalsUpdate(s.notifiers, n, Quiet);
        } else {
          var w := temp[0];
          assert w in temp;
          var x := s.waiters[w].(sem := s.waiters[w].sem + 1);
          s' := s.(waiters := s.waiters[w := x], notifiers := s.notifiers[n := Signal(temp[1..])]);
          SignalsUpdate(s.notifiers, n, Signal(temp[1..]));
          WaysUpdate(s.waiters, w, x);
        }
    }
  }

  lemma Locked(s: State, n: nat, kind: Kind) returns (s': State)
    requires n < |s.notifiers| && s.notifiers[n] == Lock(kind)
    ensures NotifierStep(s, s', n) && s'.condition == s.condition && |s'.waiters| == |s.waiters| && Work(s') < Work(s)
  {
    hide Ways, AllSignals, Taken, Left;
    var taken, left := Taken(s.ring, kind), Left(s.ring, kind);
    var ws := seq(|s.waiters|, w requires 0 <= w < |s.waiters| =>
                    if w in taken then s.waiters[w].(inWaitset := false, notified := true) else s.waiters[w]);
    s' := State(ws, left, (s.epoch + 1) % EPOCHS, s.condition, s.notifiers[n := Signal(taken)]);
    SignalsUpdate(s.notifiers, n, Signal(taken));
    SamePlaces(s.waiters, ws);
    TakenSize(s.ring, kind);
  }

  // ---- waiters --------------------------------------------------------------------------------

  /** When the condition holds and no notification is under way, nobody has to wait for a token. */
  lemma TokenThere(s: State, w: nat)
    requires Inv(s) && s.condition && w < |s.waiters| && forall n :: 0 <= n < |s.notifiers| ==> s.notifiers[n] == Quiet
    requires s.waiters[w].pc in {PrepPump, Sleep, DtorPump}
    ensures s.waiters[w].sem == 1
  {
    assert WaiterOk(s.waiters[w], Occurs(s.ring, w), Pending(s.notifiers, w));
    PendingNone(s.notifiers, w);
    OccursIn(s.ring, w);
  }

  /** The step a waiter makes when the condition holds. */
  function Moved(s: State, x: Waiter): Waiter {
    match x.pc
    case Out => x
    case PrepCheck => if x.spurious then x.(pc := PrepPump, spurious := false) else x.(pc := PrepMark)
    case PrepPump => x.(pc := PrepMark, sem := 0, notified := false)
    case PrepMark => x.(pc := PrepAdd, inWaitset := true)
    case PrepAdd => x.(pc := Test, epoch := s.epoch)
    case Test => x.(pc := Cancel1(true))
    case Commit => if x.epoch == s.epoch then x.(pc := Sleep) else x.(pc := Cancel1(false))
    case Sleep => x.(pc := Woken, sem := 0, notified := false)
    case Woken => x.(pc := DtorCheck)
    case Cancel1(last) => x.(pc := Cancel2(last), spurious := true)
    case Cancel2(last) => x.(pc := if x.inWaitset then Cancel3(last) else Canceled(last))
    case Cancel3(last) => if x.inWaitset then x.(pc := Canceled(last), inWaitset := false, spurious := false)
                          else x.(pc := Canceled(last))
    case DtorCheck => x.(pc := if x.spurious then DtorPump else Out)
    case DtorPump => x.(pc := Out, sem := 0, notified := false)
  }

  lemma WaiterGoes(s: State, w: nat) returns (s': State)
    requires Inv(s) && s.condition && w < |s.waiters| && forall n :: 0 <= n < |s.notifiers| ==> s.notifiers[n] == Quiet
    requires s.waiters[w].pc != Out
    ensures WaiterStep(s, s', w) && s'.condition && s'.notifiers == s.notifiers && Work(s') < Work(s)
  {
    hide Ways, AllSignals, Inv, Remove;
    var x := s.waiters[w];
    if x.pc in {PrepPump, Sleep, DtorPump} { TokenThere(s, w); }
    var x' := Moved(s, x);
    var ring := if x.pc == PrepAdd then s.ring + [w]
                else if x.pc.Cancel3? && x.inWaitset then Remove(s.ring, w) else s.ring;
    s' := s.(waiters := s.waiters[w := x'], ring := ring);
    WaysUpdate(s.waiters, w, x');
    RemoveSize(s.ring, w);
  }

  // ---- all waits can return -------------------------------------------------------------------

  ghost predicate AllQuiet(s: State) {
    forall n :: 0 <= n < |s.notifiers| ==> s.notifiers[n] == Quiet
  }

  ghost predicate AllOut(s: State) {
    forall w :: 0 <= w < |s.waiters| ==> s.waiters[w].pc == Out
  }

  lemma RunOn(run: seq<State>, s': State)
    requires Run(run) && Step(run[|run| - 1], s')
    ensures Run(run + [s'])
  {
    hide Step, Init;
    var more := run + [s'];
    forall i | 0 <= i < |more| - 1 ensures Step(more[i], more[i + 1]) {
      if i < |run| - 1 { assert Step(run[i], run[i + 1]); }
    }
  }

  /** Some thread can make a step that leads on: a notifier under way, else one that sets the condition, else a
      waiter. */
  lemma SomeoneGoes(s: State) returns (s': State)
    requires Inv(s) && s.notifiers != [] && !(s.condition && AllQuiet(s) && AllOut(s))
    ensures Step(s, s') && |s'.notifiers| == |s.notifiers| && |s'.waiters| == |s.waiters|
    ensures (s'.condition && !s.condition) || (s'.condition == s.condition && Work(s') < Work(s))
  {
    hide WaiterStep, NotifierStep, Inv, Work;
    if n :| 0 <= n < |s.notifiers| && s.notifiers[n] != Quiet {
      s' := NotifierGoes(s, n);
      Sizes(s, s', n);
    } else if !s.condition {
      s' := s.(condition := true, notifiers := s.notifiers[0 := CheckEmpty(All)]);
      Sets(s, s');
    } else {
      var w :| 0 <= w < |s.waiters| && s.waiters[w].pc != Out;
      s' := WaiterGoes(s, w);
      WaiterSizes(s, s', w);
    }
  }

  lemma Sizes(s: State, s': State, n: nat)
    requires NotifierStep(s, s', n)
    ensures |s'.notifiers| == |s.notifiers|
  {
  }

  lemma WaiterSizes(s: State, s': State, w: nat)
    requires WaiterStep(s, s', w)
    ensures |s'.waiters| == |s.waiters|
  {
  }

  lemma Sets(s: State, s': State)
    requires s.notifiers != [] && s.notifiers[0] == Quiet
    requires s' == s.(condition := true, notifiers := s.notifiers[0 := CheckEmpty(All)])
    ensures NotifierStep(s, s', 0)
  {
  }

  /** Every run has a continuation to a state in which every wait has returned and nothing is left to notify. */
  lemma {:induction false} CanEnd(run: seq<State>) returns (all: seq<State>)
    requires Run(run) && run[|run| - 1].notifiers != []
    ensures Run(all) && |run| <= |all| && all[..|run|] == run
    ensures var z := all[|all| - 1];
            |z.waiters| == |run[|run| - 1].waiters| && z.condition && AllQuiet(z) && AllOut(z) && z.ring == []
    decreases !run[|run| - 1].condition, Work(run[|run| - 1])
  {
    hide Inv, Step, Work, Init, AllQuiet, AllOut;
    var s := run[|run| - 1];
    RunInv(run, |run| - 1);
    if s.condition && AllQuiet(s) && AllOut(s) {
      all := run;
      NobodyThere(s);
    } else {
      var s' := SomeoneGoes(s);
      RunOn(run, s');
      hide Run;
      all := CanEnd(run + [s']);
      assert all[..|run|] == all[..|run| + 1][..|run|] == run;
    }
  }

  lemma NobodyThere(s: State)
    requires Inv(s) && AllOut(s)
    ensures s.ring == []
  {
    if s.ring != [] { FirstWaits(s); }
  }

  lemma FirstWaits(s: State)
    requires Inv(s) && s.ring != []
    ensures s.ring[0] < |s.waiters| && s.waiters[s.ring[0]].pc != Out
  {
    var w := s.ring[0];
    assert w in s.ring;
    assert WaiterOk(s.waiters[w], Occurs(s.ring, w), Pending(s.notifiers, w));
    OccursIn(s.ring, w);
  }
}
