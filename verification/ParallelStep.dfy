/** The count and distribute phases of a parallel sample sort step, for any number of parts
    and any interleaving of the jobs, one string at a time. */
module ParallelStep {
  import opened Strings
  import opened Permute
  import opened Distribution

  /** What does not change during the step: the strings, their bucket numbers and bucket sizes, the
      cuts between the parts, and for every string its part and the place it is due. */
  datatype Config = Config(q: seq<Str>, g: seq<nat>, size: seq<nat>, cuts: seq<nat>, part: seq<nat>, dest: seq<nat>)

  ghost predicate ConfigOk(k: Config) {
    && |k.q| == |k.g| == |k.part| == |k.dest| && IsCuts(k.cuts, |k.g|) && Counts(k.g, k.size)
    && (forall i :: 0 <= i < |k.g| ==>
          InPart(k.cuts, k.part[i], i) && k.dest[i] == Dest(k.g, k.size, k.cuts, k.part[i], i))
  }

  function Parts(k: Config): int {
    |k.cuts| - 1
  }

  /** A count job and the distribute job that follows it for the same part; both hold the
      position of their next string. */
  datatype Job = Counting(i: nat) | Counted | Moving(j: nat) | Moved

  /** pwork, the jobs and the arrays they share. The number of enqueued count and distribute jobs,
      the number of writes to every place of the shadow array, and how often the code behind the
      last decrement was entered and left, are kept for the statements below. */
  datatype State = State(
    pwork: int, enqCount: nat, enqMove: nat, jobs: seq<Job>,
    bkt: seq<seq<nat>>, bktcache: seq<seq<nat>>, shadow: seq<Str>, writes: seq<nat>,
    countZero: nat, countFinished: nat, moveZero: nat, moveFinished: nat)

  ghost predicate Init(k: Config, s: State) {
    && s.pwork == Parts(k) && s.enqCount == 0 && s.enqMove == 0
    && |s.jobs| == Parts(k) && (forall p :: 0 <= p < Parts(k) ==> s.jobs[p] == Counting(k.cuts[p]))
    && |s.bkt| == Parts(k) && (forall p :: 0 <= p < Parts(k) ==> s.bkt[p] == seq(|k.size|, _ => 0))
    && |s.bktcache| == Parts(k) && (forall p :: 0 <= p < Parts(k) ==> s.bktcache[p] == [])
    && |s.shadow| == |s.writes| == |k.q| && (forall i :: 0 <= i < |k.q| ==> s.writes[i] == 0)
    && s.countZero == s.countFinished == s.moveZero == s.moveFinished == 0
  }

  // ---- steps --------------------------------------------------------------------------

  /** sample() makes the next count job available. */
  ghost predicate EnqueueCount(k: Config, s: State, s': State) {
    s.enqCount < Parts(k) && s' == s.(enqCount := s.enqCount + 1)
  }

  /** Classify and count one string. */
  ghost predicate CountString(k: Config, s: State, s': State, p: nat) {
    && p < s.enqCount && p < |s.jobs| && p < |s.bkt| && p < |s.bktcache| && p + 1 < |k.cuts|
    && s.jobs[p].Counting? && s.jobs[p].i < k.cuts[p + 1] && s.jobs[p].i < |k.g|
    && var i := s.jobs[p].i;
       var c := k.g[i];
       && c < |s.bkt[p]|
       && s' == s.(jobs := s.jobs[p := Counting(i + 1)],
                   bktcache := s.bktcache[p := s.bktcache[p] + [c]],
                   bkt := s.bkt[p := s.bkt[p][c := s.bkt[p][c] + 1]])
  }

  /** The atomic decrement at the end of a count job. */
  ghost predicate CountEnd(k: Config, s: State, s': State, p: nat) {
    && p < s.enqCount && p < |s.jobs| && p + 1 < |k.cuts| && s.jobs[p].Counting? && s.jobs[p].i >= k.cuts[p + 1]
    && s' == s.(jobs := s.jobs[p := Counted], pwork := s.pwork - 1,
                countZero := s.countZero + if s.pwork - 1 == 0 then 1 else 0)
  }

  /** The running sum of count_finished: over the buckets, and for each over the parts. */
  ghost function Before(bkt: seq<seq<nat>>, c: nat, p: nat): nat
    decreases c, p
  {
    if p > 0 && p <= |bkt| then Before(bkt, c, p - 1) + (if c < |bkt[p - 1]| then bkt[p - 1][c] else 0)
    else if c > 0 then Before(bkt, c - 1, |bkt|)
    else 0
  }

  ghost predicate PrefixSummed(bkt: seq<seq<nat>>, bkt': seq<seq<nat>>) {
    && |bkt'| == |bkt|
    && forall p :: 0 <= p < |bkt| ==>
         |bkt'[p]| == |bkt[p]| && forall c :: 0 <= c < |bkt[p]| ==> bkt'[p][c] == Before(bkt, c, p + 1)
  }

  /** count_finished, up to the enqueueing of the distribute jobs. */
  ghost predicate CountFinished(k: Config, s: State, s': State) {
    && s.countZero > s.countFinished && PrefixSummed(s.bkt, s'.bkt)
    && s' == s.(bkt := s'.bkt, pwork := Parts(k), countFinished := s.countFinished + 1)
  }

  ghost predicate EnqueueMove(k: Config, s: State, s': State) {
    && s.countFinished > 0 && s.enqMove < Parts(k) && s.enqMove < |s.jobs| && s.enqMove < |k.cuts|
    && s' == s.(enqMove := s.enqMove + 1, jobs := s.jobs[s.enqMove := Moving(k.cuts[s.enqMove])])
  }

  /** Move one string to the place its boundary is lowered to. */
  ghost predicate MoveString(k: Config, s: State, s': State, p: nat) {
    && p < |s.jobs| && p < |s.bkt| && p < |s.bktcache| && p + 1 < |k.cuts|
    && s.jobs[p].Moving? && k.cuts[p] <= s.jobs[p].j < k.cuts[p + 1]
    && s.jobs[p].j < |k.q| && s.jobs[p].j - k.cuts[p] < |s.bktcache[p]|
    && var i := s.jobs[p].j;
       var c := s.bktcache[p][i - k.cuts[p]];
       && c < |s.bkt[p]| && 0 < s.bkt[p][c] <= |s.shadow| && s.bkt[p][c] <= |s.writes|
       && var d := s.bkt[p][c] - 1;
          s' == s.(jobs := s.jobs[p := Moving(i + 1)], bkt := s.bkt[p := s.bkt[p][c := d]],
                   shadow := s.shadow[d := k.q[i]], writes := s.writes[d := s.writes[d] + 1])
  }

  ghost predicate MoveEnd(k: Config, s: State, s': State, p: nat) {
    && p < |s.jobs| && p + 1 < |k.cuts| && s.jobs[p].Moving? && s.jobs[p].j >= k.cuts[p + 1]
    && s' == s.(jobs := s.jobs[p := Moved], pwork := s.pwork - 1,
                moveZero := s.moveZero + if s.pwork - 1 == 0 then 1 else 0)
  }

  /** distribute_finished goes on with the boundaries of part 0. */
  ghost predicate MoveFinished(k: Config, s: State, s': State) {
    s.moveZero > s.moveFinished && s' == s.(moveFinished := s.moveFinished + 1)
  }

  ghost predicate Step(k: Config, s: State, s': State) {
    || EnqueueCount(k, s, s') || CountFinished(k, s, s') || EnqueueMove(k, s, s') || MoveFinished(k, s, s')
    || (exists p: nat :: CountString(k, s, s', p)) || (exists p: nat :: CountEnd(k, s, s', p))
    || (exists p: nat :: MoveString(k, s, s', p)) || (exists p: nat :: MoveEnd(k, s, s', p))
  }

  ghost predicate Run(k: Config, run: seq<State>) {
    run != [] && Init(k, run[0]) && forall i :: 0 <= i < |run| - 1 ==> Step(k, run[i], run[i + 1])
  }

  // ---- invariant -------------------------------------------------------------------------

  predicate IsDone(job: Job, moving: bool) {
    if moving then job.Moved? else job.Counted?
  }

  /** Jobs of the current phase that have not passed their decrement. */
  function Pending(jobs: seq<Job>, moving: bool): nat {
    if jobs == [] then 0
    else Pending(jobs[..|jobs| - 1], moving) + (if IsDone(jobs[|jobs| - 1], moving) then 0 else 1)
  }

  lemma {:induction false} PendingUpdate(jobs: seq<Job>, moving: bool, p: nat, job: Job)
    requires p < |jobs|
    ensures Pending(jobs[p := job], moving)
            == Pending(jobs, moving) - (if IsDone(jobs[p], moving) then 0 else 1) + (if IsDone(job, moving) then 0 else 1)
  {
    var n := |jobs| - 1;
    if p < n {
      assert jobs[p := job][..n] == jobs[..n][p := job];
      PendingUpdate(jobs[..n], moving, p, job);
    } else {
      assert jobs[p := job][..n] == jobs[..n];
    }
  }

  lemma {:induction false} PendingNone(jobs: seq<Job>, moving: bool)
    ensures Pending(jobs, moving) == 0 <==> forall p :: 0 <= p < |jobs| ==> IsDone(jobs[p], moving)
  {
    if jobs != [] {
      PendingNone(jobs[..|jobs| - 1], moving);
    }
  }

  lemma {:induction false} PendingAll(jobs: seq<Job>, moving: bool)
    requires forall p :: 0 <= p < |jobs| ==> !IsDone(jobs[p], moving)
    ensures Pending(jobs, moving) == |jobs|
  {
    if jobs != [] { PendingAll(jobs[..|jobs| - 1], moving); }
  }

  /** Part p while it is counted. */
  ghost predicate PartCounting(k: Config, p: nat, job: Job, bkt: seq<nat>, cache: seq<nat>, started: bool)
    requires ConfigOk(k) && p < Parts(k)
  {
    && (job.Counting? || job.Counted?)
    && var i := if job.Counting? then job.i else k.cuts[p + 1];
       && k.cuts[p] <= i <= k.cuts[p + 1] <= |k.g| && (!started ==> job == Counting(k.cuts[p]))
       && |bkt| == |k.size| && (forall c :: 0 <= c < |bkt| ==> bkt[c] == Count(k.g, k.cuts[p], i, c))
       && cache == k.g[k.cuts[p]..i]
  }

  /** Position up to which the strings of a part have been moved. */
  function MovedTo(k: Config, p: nat, job: Job): nat
    requires p < |k.cuts| - 1
  {
    match job
    case Moving(j) => j
    case Moved => k.cuts[p + 1]
    case _ => k.cuts[p]
  }

  /** Part p while it is distributed. */
  ghost predicate PartMoving(k: Config, p: nat, job: Job, bkt: seq<nat>, cache: seq<nat>, started: bool)
    requires ConfigOk(k) && p < Parts(k)
  {
    && (if started then job.Moving? || job.Moved? else job.Counted?)
    && var i := MovedTo(k, p, job);
       && k.cuts[p] <= i <= k.cuts[p + 1] <= |k.g|
       && |bkt| == |k.size| && (forall c :: 0 <= c < |bkt| ==> bkt[c] == Border(k.g, k.size, k.cuts, p, c, i))
       && cache == k.g[k.cuts[p]..k.cuts[p + 1]]
  }

  predicate IsMoved(k: Config, jobs: seq<Job>, i: nat) {
    i < |k.part| && k.part[i] < |jobs| && k.part[i] < |k.cuts| - 1 && i < MovedTo(k, k.part[i], jobs[k.part[i]])
  }

  /** Every moved string stands at its place, and the place was written once; the others were not. */
  ghost predicate Written(k: Config, jobs: seq<Job>, shadow: seq<Str>, writes: seq<nat>) {
    && |shadow| == |writes| == |k.q| == |k.dest|
    && forall i :: 0 <= i < |k.dest| ==>
         && k.dest[i] < |shadow|
         && writes[k.dest[i]] == (if IsMoved(k, jobs, i) then 1 else 0)
         && (IsMoved(k, jobs, i) ==> shadow[k.dest[i]] == k.q[i])
  }

  ghost predicate AllCounting(k: Config, jobs: seq<Job>, bkt: seq<seq<nat>>, cache: seq<seq<nat>>, enq: nat)
    requires ConfigOk(k)
  {
    && |jobs| == |bkt| == |cache| == Parts(k)
    && forall p :: 0 <= p < |jobs| ==> PartCounting(k, p, jobs[p], bkt[p], cache[p], p < enq)
  }

  ghost predicate AllMoving(k: Config, jobs: seq<Job>, bkt: seq<seq<nat>>, cache: seq<seq<nat>>, enq: nat)
    requires ConfigOk(k)
  {
    && |jobs| == |bkt| == |cache| == Parts(k)
    && forall p :: 0 <= p < |jobs| ==> PartMoving(k, p, jobs[p], bkt[p], cache[p], p < enq)
  }

  ghost predicate CountPhase(k: Config, s: State)
    requires ConfigOk(k)
  {
    && s.enqCount <= Parts(k) && s.enqMove == 0 && s.countFinished == s.moveZero == s.moveFinished == 0
    && AllCounting(k, s.jobs, s.bkt, s.bktcache, s.enqCount)
    && s.pwork == Pending(s.jobs, false) && s.countZero == (if s.pwork == 0 then 1 else 0)
    && Written(k, s.jobs, s.shadow, s.writes)
  }

  ghost predicate MovePhase(k: Config, s: State)
    requires ConfigOk(k)
  {
    && s.enqCount == Parts(k) && s.enqMove <= Parts(k) && s.countFinished == s.countZero == 1
    && AllMoving(k, s.jobs, s.bkt, s.bktcache, s.enqMove)
    && s.pwork == Pending(s.jobs, true) && s.moveZero == (if s.pwork == 0 then 1 else 0) && s.moveFinished <= s.moveZero
    && Written(k, s.jobs, s.shadow, s.writes)
  }

  ghost predicate Inv(k: Config, s: State)
    requires ConfigOk(k)
  {
    CountPhase(k, s) || MovePhase(k, s)
  }

  // ---- every step keeps it ------------------------------------------------------------------

  lemma DestRange(k: Config, i: nat)
    requires ConfigOk(k) && i < |k.g|
    ensures k.dest[i] < |k.g|
  {
    DestInBucket(k.g, k.size, k.cuts, k.part[i], i);
  }

  lemma InitInv(k: Config, s: State)
    requires ConfigOk(k) && Init(k, s)
    ensures Inv(k, s)
  {
    forall p | 0 <= p < Parts(k) ensures PartCounting(k, p, s.jobs[p], s.bkt[p], s.bktcache[p], false) {
      assert k.cuts[p] <= k.cuts[p + 1] <= k.cuts[|k.cuts| - 1];
    }
    PendingAll(s.jobs, false);
    forall i | 0 <= i < |k.dest| ensures k.dest[i] < |k.g| && !IsMoved(k, s.jobs, i) {
      DestRange(k, i);
      assert InPart(k.cuts, k.part[i], i);
    }
  }

  lemma EnqueueCountInv(k: Config, s: State, s': State)
    requires ConfigOk(k) && Inv(k, s) && EnqueueCount(k, s, s')
    ensures Inv(k, s')
  {
    hide Written, PartCounting;
    assert CountPhase(k, s);
    forall p | 0 <= p < |s.jobs| ensures PartCounting(k, p, s.jobs[p], s.bkt[p], s.bktcache[p], p < s'.enqCount) {
      StartLater(k, p, s.jobs[p], s.bkt[p], s.bktcache[p], p < s.enqCount);
    }
  }

  lemma StartLater(k: Config, p: nat, job: Job, bkt: seq<nat>, cache: seq<nat>, started: bool)
    requires ConfigOk(k) && p < Parts(k) && PartCounting(k, p, job, bkt, cache, started)
    ensures PartCounting(k, p, job, bkt, cache, true)
  {
  }

  /** A job that counts has moved nothing. */
  lemma WrittenSame(k: Config, jobs: seq<Job>, p: nat, job: Job, shadow: seq<Str>, writes: seq<nat>)
    requires Written(k, jobs, shadow, writes) && p < |jobs|
    requires p < |k.cuts| - 1 ==> MovedTo(k, p, jobs[p]) == MovedTo(k, p, job)
    ensures Written(k, jobs[p := job], shadow, writes)
  {
    forall i | 0 <= i < |k.dest| ensures IsMoved(k, jobs, i) == IsMoved(k, jobs[p := job], i) {
    }
  }

  lemma JobCounting(k: Config, s: State, p: nat)
    requires ConfigOk(k) && Inv(k, s) && p < s.enqCount && p < |s.jobs| && s.jobs[p].Counting?
    ensures CountPhase(k, s) && p < |s.bkt| && p < |s.bktcache| && p < Parts(k)
    ensures PartCounting(k, p, s.jobs[p], s.bkt[p], s.bktcache[p], true) && s.jobs[p].i <= |k.g| && |s.bkt[p]| == |k.size|
  {
    assert CountPhase(k, s);
    assert PartCounting(k, p, s.jobs[p], s.bkt[p], s.bktcache[p], true);
  }

  lemma CountingInv(k: Config, s: State)
    requires ConfigOk(k) && CountPhase(k, s)
    ensures Inv(k, s)
  {
  }

  lemma CountStringInv(k: Config, s: State, s': State, p: nat)
    requires ConfigOk(k) && Inv(k, s) && CountString(k, s, s', p)
    ensures Inv(k, s')
  {
    hide Written, PartCounting, ConfigOk, MovePhase, IsMoved, Inv, Pending;
    JobCounting(k, s, p);
    var i := s.jobs[p].i;
    PartCountString(k, p, s.jobs[p], s.bkt[p], s.bktcache[p], i);
    PendingUpdate(s.jobs, false, p, Counting(i + 1));
    WrittenSame(k, s.jobs, p, Counting(i + 1), s.shadow, s.writes);
    CountingInv(k, s');
  }

  lemma PartCountString(k: Config, p: nat, job: Job, bkt: seq<nat>, cache: seq<nat>, i: nat)
    requires ConfigOk(k) && p < Parts(k) && PartCounting(k, p, job, bkt, cache, true) && job == Counting(i)
    requires i < k.cuts[p + 1] && i < |k.g| && k.g[i] < |bkt|
    ensures PartCounting(k, p, Counting(i + 1), bkt[k.g[i] := bkt[k.g[i]] + 1], cache + [k.g[i]], true)
  {
  }

  lemma PartCountEnd(k: Config, p: nat, job: Job, bkt: seq<nat>, cache: seq<nat>)
    requires ConfigOk(k) && p < Parts(k) && PartCounting(k, p, job, bkt, cache, true)
    requires job.Counting? && job.i >= k.cuts[p + 1]
    ensures PartCounting(k, p, Counted, bkt, cache, true)
  {
  }

  lemma CountEndInv(k: Config, s: State, s': State, p: nat)
    requires ConfigOk(k) && Inv(k, s) && CountEnd(k, s, s', p)
    ensures Inv(k, s')
  {
    assert CountPhase(k, s);
    assert PartCounting(k, p, s.jobs[p], s.bkt[p], s.bktcache[p], true);
    hide Written, PartCounting, ConfigOk, MovePhase, IsMoved;
    PartCountEnd(k, p, s.jobs[p], s.bkt[p], s.bktcache[p]);
    PendingUpdate(s.jobs, false, p, Counted);
    WrittenSame(k, s.jobs, p, Counted, s.shadow, s.writes);
    hide Pending;
    assert CountPhase(k, s');
  }

  /** All strings of part q have been counted. */
  ghost predicate PartFull(k: Config, q: nat, bkt: seq<nat>) {
    && q + 1 < |k.cuts| && k.cuts[q] <= k.cuts[q + 1] <= |k.g| && |bkt| == |k.size|
    && forall d :: 0 <= d < |bkt| ==> bkt[d] == Count(k.g, k.cuts[q], k.cuts[q + 1], d)
  }

  /** The running sum yields all boundaries. */
  lemma {:induction false} BeforeIsBorder(k: Config, bkt: seq<seq<nat>>, c: nat, p: nat)
    requires ConfigOk(k) && |bkt| == Parts(k) && c < |k.size| && p <= Parts(k)
    requires forall q :: 0 <= q < |bkt| ==> PartFull(k, q, bkt[q])
    ensures k.cuts[p] <= |k.g| && Before(bkt, c, p) == Start(k.size, c) + Count(k.g, 0, k.cuts[p], c)
    decreases c, p
  {
    assert k.cuts[p] <= k.cuts[|k.cuts| - 1];
    if p > 0 {
      BeforeIsBorder(k, bkt, c, p - 1);
      assert PartFull(k, p - 1, bkt[p - 1]);
      CountSplit(k.g, 0, k.cuts[p - 1], k.cuts[p], c);
    } else if c > 0 {
      BeforeIsBorder(k, bkt, c - 1, |bkt|);
      CountAll(k, c - 1);
    }
  }

  lemma CountAll(k: Config, c: nat)
    requires ConfigOk(k) && c < |k.size|
    ensures Count(k.g, 0, |k.g|, c) == k.size[c]
  {
    CountIsMultiset(k.g, c, |k.g|);
    assert k.g[..|k.g|] == k.g;
  }

  lemma PartSummed(k: Config, bkt: seq<seq<nat>>, bkt': seq<seq<nat>>, p: nat, cache: seq<nat>)
    requires ConfigOk(k) && p < |bkt| == Parts(k) && (forall q :: 0 <= q < |bkt| ==> PartFull(k, q, bkt[q]))
    requires PrefixSummed(bkt, bkt') && cache == k.g[k.cuts[p]..k.cuts[p + 1]]
    ensures PartMoving(k, p, Counted, bkt'[p], cache, false)
  {
    assert PartFull(k, p, bkt[p]);
    forall c | 0 <= c < |k.size| ensures bkt'[p][c] == Border(k.g, k.size, k.cuts, p, c, k.cuts[p]) {
      BeforeIsBorder(k, bkt, c, p + 1);
      BorderInclusive(k.g, k.size, k.cuts, p, c);
    }
  }

  lemma AllCounted(k: Config, s: State)
    requires ConfigOk(k) && CountPhase(k, s) && s.pwork == 0
    ensures |s.jobs| == |s.bkt| == |s.bktcache| == Parts(k) && s.enqCount == Parts(k)
    ensures forall q :: 0 <= q < |s.bkt| ==>
              PartFull(k, q, s.bkt[q]) && s.jobs[q] == Counted && s.bktcache[q] == k.g[k.cuts[q]..k.cuts[q + 1]]
  {
    PendingNone(s.jobs, false);
    assert Parts(k) > 0;
    forall q | 0 <= q < |s.bkt| {
      CountedPart(k, q, s.jobs[q], s.bkt[q], s.bktcache[q], q < s.enqCount);
    }
    CountedPart(k, Parts(k) - 1, s.jobs[Parts(k) - 1], s.bkt[Parts(k) - 1], s.bktcache[Parts(k) - 1], Parts(k) - 1 < s.enqCount);
  }

  lemma CountedPart(k: Config, q: nat, job: Job, bkt: seq<nat>, cache: seq<nat>, started: bool)
    requires ConfigOk(k) && q < Parts(k)
    ensures PartCounting(k, q, job, bkt, cache, started) && IsDone(job, false)
            ==> PartFull(k, q, bkt) && job == Counted && cache == k.g[k.cuts[q]..k.cuts[q + 1]] && started
  {
  }

  lemma CountFinishedInv(k: Config, s: State, s': State)
    requires ConfigOk(k) && Inv(k, s) && CountFinished(k, s, s')
    ensures Inv(k, s')
  {
    assert CountPhase(k, s);
    hide ConfigOk, Written, PartFull, PartMoving, PrefixSummed, Pending, AllCounting;
    AllCounted(k, s);
    forall p | 0 <= p < |s.jobs| ensures PartMoving(k, p, s.jobs[p], s'.bkt[p], s.bktcache[p], false) {
      PartSummed(k, s.bkt, s'.bkt, p, s.bktcache[p]);
    }
    assert |s'.bkt| == |s.bkt| by { SummedSize(s.bkt, s'.bkt); }
    PendingAll(s.jobs, true);
    assert Parts(k) > 0 by { PartsPositive(k); }
    assert MovePhase(k, s');
  }

  lemma SummedSize(bkt: seq<seq<nat>>, bkt': seq<seq<nat>>)
    requires PrefixSummed(bkt, bkt')
    ensures |bkt'| == |bkt|
  {
  }

  lemma PartsPositive(k: Config)
    requires ConfigOk(k)
    ensures Parts(k) > 0
  {
  }

  lemma EnqueueMoveInv(k: Config, s: State, s': State)
    requires ConfigOk(k) && Inv(k, s) && EnqueueMove(k, s, s')
    ensures Inv(k, s')
  {
    var p := s.enqMove;
    assert MovePhase(k, s);
    assert PartMoving(k, p, s.jobs[p], s.bkt[p], s.bktcache[p], false);
    hide Written, CountPhase, IsMoved, PartMoving;
    PartEnqueued(k, p, s.jobs[p], s.bkt[p], s.bktcache[p]);
    PendingUpdate(s.jobs, true, p, Moving(k.cuts[p]));
    WrittenSame(k, s.jobs, p, Moving(k.cuts[p]), s.shadow, s.writes);
    hide Pending, ConfigOk;
    forall q | 0 <= q < |s'.jobs| ensures PartMoving(k, q, s'.jobs[q], s'.bkt[q], s'.bktcache[q], q < s'.enqMove) {
      assert q != p ==> PartMoving(k, q, s.jobs[q], s.bkt[q], s.bktcache[q], q < s.enqMove);
    }
    assert MovePhase(k, s');
  }

  lemma PartEnqueued(k: Config, p: nat, job: Job, bkt: seq<nat>, cache: seq<nat>)
    requires ConfigOk(k) && p < Parts(k) && PartMoving(k, p, job, bkt, cache, false)
    ensures PartMoving(k, p, Moving(k.cuts[p]), bkt, cache, true)
    ensures !IsDone(job, true) && MovedTo(k, p, job) == MovedTo(k, p, Moving(k.cuts[p]))
  {
  }

  lemma SamePart(cuts: seq<nat>, n: nat, p: nat, q: nat, i: nat)
    requires IsCuts(cuts, n) && InPart(cuts, p, i) && InPart(cuts, q, i)
    ensures p == q
  {
    assert cuts[if p + 1 <= q then p + 1 else q] <= cuts[q];
    assert cuts[if q + 1 <= p then q + 1 else p] <= cuts[p];
  }

  /** The boundary of the string's bucket is one above its place. */
  lemma PartMoveString(k: Config, p: nat, job: Job, bkt: seq<nat>, cache: seq<nat>, i: nat)
    requires ConfigOk(k) && p < Parts(k) && PartMoving(k, p, job, bkt, cache, true) && job == Moving(i) && i < k.cuts[p + 1]
    ensures i < |k.g| && k.part[i] == p && i - k.cuts[p] < |cache| && cache[i - k.cuts[p]] == k.g[i] < |bkt|
    ensures i < |k.q| && bkt[k.g[i]] == k.dest[i] + 1 <= |k.q|
    ensures PartMoving(k, p, Moving(i + 1), bkt[k.g[i] := k.dest[i]], cache, true)
  {
    assert InPart(k.cuts, p, i) && InPart(k.cuts, k.part[i], i);
    SamePart(k.cuts, |k.g|, p, k.part[i], i);
    var bkt' := bkt[k.g[i] := k.dest[i]];
    forall c | 0 <= c < |bkt'| ensures bkt'[c] == Border(k.g, k.size, k.cuts, p, c, i + 1) {
      BorderStep(k.g, k.size, k.cuts, p, c, i);
    }
    BorderStep(k.g, k.size, k.cuts, p, k.g[i], i);
    DestRange(k, i);
  }

  lemma DestsDiffer(k: Config, i: nat, j: nat)
    requires ConfigOk(k) && i < |k.g| && j < |k.g| && i != j
    ensures k.dest[i] != k.dest[j]
  {
    if i < j {
      DestInjective(k.g, k.size, k.cuts, k.part[i], i, k.part[j], j);
    } else {
      DestInjective(k.g, k.size, k.cuts, k.part[j], j, k.part[i], i);
    }
  }

  lemma WrittenMove(k: Config, jobs: seq<Job>, p: nat, i: nat, shadow: seq<Str>, writes: seq<nat>)
    requires ConfigOk(k) && Written(k, jobs, shadow, writes) && p < |jobs| == Parts(k)
    requires i < |k.g| && k.part[i] == p && jobs[p] == Moving(i)
    ensures k.dest[i] < |shadow|
    ensures Written(k, jobs[p := Moving(i + 1)], shadow[k.dest[i] := k.q[i]], writes[k.dest[i] := writes[k.dest[i]] + 1])
  {
    var jobs', d := jobs[p := Moving(i + 1)], k.dest[i];
    assert d < |shadow| && !IsMoved(k, jobs, i) && IsMoved(k, jobs', i);
    forall j | 0 <= j < |k.dest| && j != i ensures k.dest[j] != d && IsMoved(k, jobs', j) == IsMoved(k, jobs, j) {
      DestsDiffer(k, i, j);
    }
  }

  /** What the step does, in terms of the place that the string has by its number. */
  lemma MoveStringIs(k: Config, s: State, s': State, p: nat)
    requires ConfigOk(k) && MoveString(k, s, s', p) && p < Parts(k)
    requires PartMoving(k, p, s.jobs[p], s.bkt[p], s.bktcache[p], true)
    ensures var i := s.jobs[p].j;
            && i < |k.g| == |k.dest| == |k.part| && k.part[i] == p && i < |k.q| && i < k.cuts[p + 1] && k.g[i] < |s.bkt[p]|
            && k.dest[i] < |s.shadow| && k.dest[i] < |s.writes|
            && PartMoving(k, p, Moving(i + 1), s.bkt[p][k.g[i] := k.dest[i]], s.bktcache[p], true)
            && s' == s.(jobs := s.jobs[p := Moving(i + 1)], bkt := s.bkt[p := s.bkt[p][k.g[i] := k.dest[i]]],
                        shadow := s.shadow[k.dest[i] := k.q[i]], writes := s.writes[k.dest[i] := s.writes[k.dest[i]] + 1])
  {
    hide PartMoving;
    PartMoveString(k, p, s.jobs[p], s.bkt[p], s.bktcache[p], s.jobs[p].j);
  }

  lemma MoveStringInv(k: Config, s: State, s': State, p: nat)
    requires ConfigOk(k) && Inv(k, s) && MoveString(k, s, s', p)
    ensures Inv(k, s')
  {
    hide Written, CountPhase, IsMoved, PartMoving, ConfigOk, Pending, AllMoving, Inv;
    JobMoving(k, s, p);
    MoveStringIs(k, s, s', p);
    var i := s.jobs[p].j;
    PendingUpdate(s.jobs, true, p, Moving(i + 1));
    WrittenMove(k, s.jobs, p, i, s.shadow, s.writes);
    AllMovingUpdate(k, s.jobs, s.bkt, s.bktcache, s.enqMove, p, Moving(i + 1), s.bkt[p][k.g[i] := k.dest[i]]);
    MovingInv(k, s');
  }

  lemma MovingInv(k: Config, s: State)
    requires ConfigOk(k) && MovePhase(k, s)
    ensures Inv(k, s)
  {
  }

  lemma NotCounting(k: Config, p: nat, job: Job, bkt: seq<nat>, cache: seq<nat>, started: bool)
    requires ConfigOk(k) && p < Parts(k) && job.Moving?
    ensures !PartCounting(k, p, job, bkt, cache, started)
  {
  }

  lemma AllMovingUpdate(k: Config, jobs: seq<Job>, bkt: seq<seq<nat>>, cache: seq<seq<nat>>, enq: nat,
                        p: nat, job: Job, b: seq<nat>)
    requires ConfigOk(k) && AllMoving(k, jobs, bkt, cache, enq) && p < |jobs| && p < enq
    requires PartMoving(k, p, job, b, cache[p], true)
    ensures AllMoving(k, jobs[p := job], bkt[p := b], cache, enq)
  {
    hide PartMoving, ConfigOk;
  }

  lemma JobMoving(k: Config, s: State, p: nat)
    requires ConfigOk(k) && Inv(k, s) && p < |s.jobs| && s.jobs[p].Moving?
    ensures MovePhase(k, s) && p < s.enqMove && |s.jobs| == |s.bkt| == |s.bktcache| == Parts(k)
    ensures PartMoving(k, p, s.jobs[p], s.bkt[p], s.bktcache[p], true)
  {
    NotCounting(k, p, s.jobs[p], s.bkt[p], s.bktcache[p], p < s.enqCount);
    assert MovePhase(k, s);
    assert PartMoving(k, p, s.jobs[p], s.bkt[p], s.bktcache[p], p < s.enqMove);
  }

  lemma PartMoveEnd(k: Config, p: nat, job: Job, bkt: seq<nat>, cache: seq<nat>)
    requires ConfigOk(k) && p < Parts(k) && PartMoving(k, p, job, bkt, cache, true) && job.Moving? && job.j >= k.cuts[p + 1]
    ensures PartMoving(k, p, Moved, bkt, cache, true) && MovedTo(k, p, job) == MovedTo(k, p, Moved)
  {
  }

  lemma MoveEndInv(k: Config, s: State, s': State, p: nat)
    requires ConfigOk(k) && Inv(k, s) && MoveEnd(k, s, s', p)
    ensures Inv(k, s')
  {
    JobMoving(k, s, p);
    hide Written, CountPhase, IsMoved, PartMoving, ConfigOk;
    PartMoveEnd(k, p, s.jobs[p], s.bkt[p], s.bktcache[p]);
    PendingUpdate(s.jobs, true, p, Moved);
    WrittenSame(k, s.jobs, p, Moved, s.shadow, s.writes);
    PendingPositive(s.jobs, true, p);
    hide Pending;
    assert MovePhase(k, s');
  }

  lemma {:induction false} PendingPositive(jobs: seq<Job>, moving: bool, p: nat)
    requires p < |jobs| && !IsDone(jobs[p], moving)
    ensures Pending(jobs, moving) > 0
  {
    if p < |jobs| - 1 { PendingPositive(jobs[..|jobs| - 1], moving, p); }
  }

  /** Every step of every job keeps the invariant. */
  lemma StepInv(k: Config, s: State, s': State)
    requires ConfigOk(k) && Inv(k, s) && Step(k, s, s')
    ensures Inv(k, s')
  {
    hide Inv, ConfigOk, EnqueueCount, CountString, CountEnd, CountFinished, EnqueueMove, MoveString, MoveEnd, MoveFinished;
    if EnqueueCount(k, s, s') { EnqueueCountInv(k, s, s'); }
    else if CountFinished(k, s, s') { CountFinishedInv(k, s, s'); }
    else if EnqueueMove(k, s, s') { EnqueueMoveInv(k, s, s'); }
    else if MoveFinished(k, s, s') { MoveFinishedInv(k, s, s'); }
    else if p: nat :| CountString(k, s, s', p) { CountStringInv(k, s, s', p); }
    else if p: nat :| CountEnd(k, s, s', p) { CountEndInv(k, s, s', p); }
    else if p: nat :| MoveString(k, s, s', p) { MoveStringInv(k, s, s', p); }
    else if p: nat :| MoveEnd(k, s, s', p) { MoveEndInv(k, s, s', p); }
  }

  lemma MoveFinishedInv(k: Config, s: State, s': State)
    requires ConfigOk(k) && Inv(k, s) && MoveFinished(k, s, s')
    ensures Inv(k, s')
  {
    hide Written, AllMoving, AllCounting, ConfigOk, Pending;
    assert MovePhase(k, s');
  }

  lemma {:induction false} RunInv(k: Config, run: seq<State>, i: nat)
    requires ConfigOk(k) && Run(k, run) && i < |run|
    ensures Inv(k, run[i])
    decreases i
  {
    hide Inv, ConfigOk, Step, Init;
    if i == 0 {
      InitInv(k, run[0]);
    } else {
      RunInv(k, run, i - 1);
      StepInv(k, run[i - 1], run[i - 1 + 1]);
    }
  }

  // ---- what every run achieves ------------------------------------------------------------

  /** Every place of the shadow array has been written exactly once, the strings stand in ascending
      buckets, and part 0 holds the exclusive bucket boundaries. */
  ghost predicate Distributed(k: Config, s: State, f: Str -> nat) {
    && |s.shadow| == |s.writes| == |k.q|
    && (forall d :: 0 <= d < |k.q| ==> s.writes[d] == 1)
    && InBuckets(s.shadow, k.size, f) && multiset(s.shadow) == multiset(k.q)
    && Scattered(k.q, s.shadow, k.dest)
    && |s.bkt| > 0 && |s.bkt[0]| == |k.size|
    && (forall c :: 0 <= c < |k.size| ==> s.bkt[0][c] == Start(k.size, c))
  }

  /** When distribute_finished has started, the strings are distributed. Their places are the same
      for all interleavings, and the code behind each decrement ran once. */
  lemma Finished(k: Config, run: seq<State>, f: Str -> nat)
    requires ConfigOk(k) && Paired(k.g, k.q, f) && Run(k, run) && run[|run| - 1].moveFinished > 0
    ensures Distributed(k, run[|run| - 1], f)
    ensures run[|run| - 1].countFinished == 1 && run[|run| - 1].moveFinished == 1
  {
    hide ConfigOk, Paired, Init, Step, Distributed, CountPhase, MovePhase;
    RunInv(k, run, |run| - 1);
    FinishedState(k, run[|run| - 1], f);
  }

  lemma FinishedState(k: Config, s: State, f: Str -> nat)
    requires ConfigOk(k) && Paired(k.g, k.q, f) && Inv(k, s) && s.moveFinished > 0
    ensures Distributed(k, s, f) && s.countFinished == 1 && s.moveFinished == 1
  {
    assert MovePhase(k, s);
    AllMovedAway(k, s);
    AllScattered(k, s);
    hide MovePhase, CountPhase, Scattered, IsMoved, Written, InBuckets, Paired;
    ScatteredMultiset(k.q, s.shadow, k.dest);
    DestsInBuckets(k);
    ScatteredBuckets(k.q, s.shadow, k.dest, k.g, k.size, f);
  }

  lemma DestsInBuckets(k: Config)
    requires ConfigOk(k)
    ensures |k.g| == |k.dest| && Counts(k.g, k.size)
    ensures forall i :: 0 <= i < |k.g| ==> Start(k.size, k.g[i]) <= k.dest[i] < Start(k.size, k.g[i] + 1)
  {
    forall i | 0 <= i < |k.g| ensures Start(k.size, k.g[i]) <= k.dest[i] < Start(k.size, k.g[i] + 1) {
      DestInBucket(k.g, k.size, k.cuts, k.part[i], i);
    }
  }

  lemma AllScattered(k: Config, s: State)
    requires ConfigOk(k) && Written(k, s.jobs, s.shadow, s.writes)
    requires forall i :: 0 <= i < |k.dest| ==> IsMoved(k, s.jobs, i)
    ensures Scattered(k.q, s.shadow, k.dest)
    ensures forall d :: 0 <= d < |k.q| ==> s.writes[d] == 1
  {
    forall i, j | 0 <= i < j < |k.dest| ensures k.dest[i] != k.dest[j] { DestsDiffer(k, i, j); }
    assert Scattered(k.q, s.shadow, k.dest);
    forall d | 0 <= d < |k.q| ensures s.writes[d] == 1 {
      var i := ScatteredOnto(k.q, s.shadow, k.dest, d);
    }
  }

  lemma AllMovedAway(k: Config, s: State)
    requires ConfigOk(k) && MovePhase(k, s) && s.pwork == 0
    ensures forall i :: 0 <= i < |k.dest| ==> IsMoved(k, s.jobs, i)
    ensures |s.bkt| > 0 && |s.bkt[0]| == |k.size|
    ensures forall c :: 0 <= c < |k.size| ==> s.bkt[0][c] == Start(k.size, c)
  {
    PendingNone(s.jobs, true);
    forall i | 0 <= i < |k.dest| ensures IsMoved(k, s.jobs, i) {
      assert InPart(k.cuts, k.part[i], i);
      assert IsDone(s.jobs[k.part[i]], true);
    }
    assert IsDone(s.jobs[0], true);
    assert PartMoving(k, 0, s.jobs[0], s.bkt[0], s.bktcache[0], 0 < s.enqMove);
    forall c | 0 <= c < |k.size| ensures s.bkt[0][c] == Start(k.size, c) {
      BorderExclusive(k.g, k.size, k.cuts, c);
    }
  }

  // ---- no run gets stuck, and every input has such a run ------------------------------------

  /** Until distribute_finished has started, some job can go on: in particular no boundary is
      lowered below zero and no string is moved out of the array. */
  lemma Progress(k: Config, s: State) returns (s': State)
    requires ConfigOk(k) && Inv(k, s) && s.moveFinished == 0
    ensures Step(k, s, s')
  {
    if CountPhase(k, s) {
      s' := CountProgress(k, s);
    } else {
      s' := MoveProgress(k, s);
    }
  }

  lemma {:induction false} FindPending(jobs: seq<Job>, moving: bool) returns (p: nat)
    requires Pending(jobs, moving) > 0
    ensures p < |jobs| && !IsDone(jobs[p], moving)
  {
    var n := |jobs| - 1;
    if !IsDone(jobs[n], moving) { p := n; } else { p := FindPending(jobs[..n], moving); }
  }

  lemma CountProgress(k: Config, s: State) returns (s': State)
    requires ConfigOk(k) && CountPhase(k, s)
    ensures Step(k, s, s')
  {
    if s.enqCount < Parts(k) {
      s' := s.(enqCount := s.enqCount + 1);
      assert EnqueueCount(k, s, s');
    } else if s.pwork == 0 {
      var bkt' := seq(|s.bkt|, p requires 0 <= p < |s.bkt| => seq(|s.bkt[p]|, c requires 0 <= c => Before(s.bkt, c, p + 1)));
      s' := s.(bkt := bkt', pwork := Parts(k), countFinished := s.countFinished + 1);
      assert CountFinished(k, s, s');
    } else {
      var p := FindPending(s.jobs, false);
      s' := CountJobProgress(k, s, p);
    }
  }

  lemma CountJobProgress(k: Config, s: State, p: nat) returns (s': State)
    requires ConfigOk(k) && CountPhase(k, s) && s.enqCount == Parts(k) && p < |s.jobs| && !IsDone(s.jobs[p], false)
    ensures Step(k, s, s')
  {
    hide Written, Pending;
    assert PartCounting(k, p, s.jobs[p], s.bkt[p], s.bktcache[p], p < s.enqCount);
    var i := s.jobs[p].i;
    if i < k.cuts[p + 1] {
      var c := k.g[i];
      s' := s.(jobs := s.jobs[p := Counting(i + 1)], bktcache := s.bktcache[p := s.bktcache[p] + [c]],
               bkt := s.bkt[p := s.bkt[p][c := s.bkt[p][c] + 1]]);
      assert CountString(k, s, s', p);
    } else {
      s' := s.(jobs := s.jobs[p := Counted], pwork := s.pwork - 1,
               countZero := s.countZero + if s.pwork - 1 == 0 then 1 else 0);
      assert CountEnd(k, s, s', p);
    }
  }

  lemma MoveProgress(k: Config, s: State) returns (s': State)
    requires ConfigOk(k) && MovePhase(k, s) && s.moveFinished == 0
    ensures Step(k, s, s')
  {
    if s.enqMove < Parts(k) {
      var p := s.enqMove;
      s' := s.(enqMove := p + 1, jobs := s.jobs[p := Moving(k.cuts[p])]);
      assert EnqueueMove(k, s, s');
    } else if s.pwork == 0 {
      s' := s.(moveFinished := s.moveFinished + 1);
      assert MoveFinished(k, s, s');
    } else {
      var p := FindPending(s.jobs, true);
      assert PartMoving(k, p, s.jobs[p], s.bkt[p], s.bktcache[p], p < s.enqMove);
      s' := JobProgress(k, s, p);
    }
  }

  lemma JobProgress(k: Config, s: State, p: nat) returns (s': State)
    requires ConfigOk(k) && MovePhase(k, s) && p < Parts(k) && s.jobs[p].Moving?
    requires PartMoving(k, p, s.jobs[p], s.bkt[p], s.bktcache[p], true)
    ensures Step(k, s, s')
  {
    hide Pending, CountPhase, AllCounting, PrefixSummed, Before, Border, Dest, Count;
    var i := s.jobs[p].j;
    if i < k.cuts[p + 1] {
      PartMoveString(k, p, s.jobs[p], s.bkt[p], s.bktcache[p], i);
      var d := k.dest[i];
      s' := s.(jobs := s.jobs[p := Moving(i + 1)], bkt := s.bkt[p := s.bkt[p][k.g[i] := d]],
               shadow := s.shadow[d := k.q[i]], writes := s.writes[d := s.writes[d] + 1]);
      assert MoveString(k, s, s', p);
    } else {
      s' := s.(jobs := s.jobs[p := Moved], pwork := s.pwork - 1,
               moveZero := s.moveZero + if s.pwork - 1 == 0 then 1 else 0);
      assert MoveEnd(k, s, s', p);
    }
  }

  // ---- no run goes on for ever -----------------------------------------------------------------

  /** Strings a job still has to count and move, and its changes of phase. */
  function JobLeft(n: nat, job: Job): nat {
    match job
    case Counting(i) => n + 3 + (if i < n then n - i else 0)
    case Counted => n + 2
    case Moving(j) => 1 + (if j < n then n - j else 0)
    case Moved => 0
  }

  function JobsLeft(n: nat, jobs: seq<Job>): nat {
    if jobs == [] then 0 else JobsLeft(n, jobs[..|jobs| - 1]) + JobLeft(n, jobs[|jobs| - 1])
  }

  function Left(k: Config, s: State): int {
    JobsLeft(|k.q|, s.jobs) + (Parts(k) - s.enqCount) + (1 - s.countFinished) + (1 - s.moveFinished)
  }

  lemma {:induction false} JobsLeftUpdate(n: nat, jobs: seq<Job>, p: nat, job: Job)
    requires p < |jobs|
    ensures JobsLeft(n, jobs[p := job]) == JobsLeft(n, jobs) - JobLeft(n, jobs[p]) + JobLeft(n, job)
  {
    var m := |jobs| - 1;
    if p < m {
      assert jobs[p := job][..m] == jobs[..m][p := job];
      JobsLeftUpdate(n, jobs[..m], p, job);
    } else {
      assert jobs[p := job][..m] == jobs[..m];
    }
  }

  /** Every step of every job leaves less to do, whichever it is. */
  lemma StepLeft(k: Config, s: State, s': State)
    requires ConfigOk(k) && Inv(k, s) && Step(k, s, s')
    ensures Left(k, s') < Left(k, s)
  {
    hide JobsLeft, Inv, ConfigOk, Pending, Before, PrefixSummed;
    var n := |k.q|;
    if EnqueueMove(k, s, s') {
      NextCounted(k, s);
      JobsLeftUpdate(n, s.jobs, s.enqMove, Moving(k.cuts[s.enqMove]));
    } else if p: nat :| CountString(k, s, s', p) {
      SameSizes(k);
      JobsLeftUpdate(n, s.jobs, p, Counting(s.jobs[p].i + 1));
    } else if p: nat :| CountEnd(k, s, s', p) {
      JobsLeftUpdate(n, s.jobs, p, Counted);
    } else if p: nat :| MoveString(k, s, s', p) {
      JobsLeftUpdate(n, s.jobs, p, Moving(s.jobs[p].j + 1));
    } else if p: nat :| MoveEnd(k, s, s', p) {
      JobsLeftUpdate(n, s.jobs, p, Moved);
    }
  }

  lemma SameSizes(k: Config)
    requires ConfigOk(k)
    ensures |k.q| == |k.g|
  {
  }

  lemma NextCounted(k: Config, s: State)
    requires ConfigOk(k) && Inv(k, s) && s.countFinished > 0 && s.enqMove < Parts(k)
    ensures s.enqMove < |s.jobs| && s.jobs[s.enqMove].Counted?
  {
    hide ConfigOk, Written, Pending, CountPhase;
    assert MovePhase(k, s) by { NotCountPhase(k, s); }
    assert PartMoving(k, s.enqMove, s.jobs[s.enqMove], s.bkt[s.enqMove], s.bktcache[s.enqMove], false);
  }

  lemma NotCountPhase(k: Config, s: State)
    requires ConfigOk(k) && s.countFinished > 0
    ensures !CountPhase(k, s)
  {
  }

  lemma LeftBounds(k: Config, s: State)
    requires ConfigOk(k) && Inv(k, s)
    ensures Left(k, s) >= 0
  {
    hide ConfigOk, Written, Pending, AllCounting, AllMoving;
  }

  /** In whatever order the jobs go on, the step comes to its end: each string is counted once and moved once,
      and each part makes four changes of phase. */
  lemma {:induction false} RunsEnd(k: Config, run: seq<State>, i: nat)
    requires ConfigOk(k) && Run(k, run) && i < |run|
    ensures i <= Left(k, run[0]) - Left(k, run[i])
    decreases i
  {
    hide ConfigOk, Inv, Step, Init, Left;
    if i > 0 {
      RunsEnd(k, run, i - 1);
      RunInv(k, run, i - 1);
      assert Step(k, run[i - 1], run[i - 1 + 1]);
      StepLeft(k, run[i - 1], run[i]);
    }
  }

  lemma {:induction false} JobsLeftAtStart(n: nat, jobs: seq<Job>)
    requires forall p :: 0 <= p < |jobs| ==> jobs[p].Counting?
    ensures JobsLeft(n, jobs) <= |jobs| * (2 * n + 3)
  {
    if jobs != [] {
      JobsLeftAtStart(n, jobs[..|jobs| - 1]);
      assert |jobs| * (2 * n + 3) == (|jobs| - 1) * (2 * n + 3) + (2 * n + 3);
    }
  }

  ghost predicate Stuck(k: Config, s: State) {
    forall s' :: !Step(k, s, s')
  }

  /** No run is longer than this, and one that cannot go on has distributed all strings. */
  lemma EveryRunArrives(k: Config, run: seq<State>, f: Str -> nat)
    requires ConfigOk(k) && Paired(k.g, k.q, f) && Run(k, run)
    ensures |run| <= Parts(k) * (2 * |k.q| + 4) + 3
    ensures Stuck(k, run[|run| - 1]) ==> Distributed(k, run[|run| - 1], f) && run[|run| - 1].moveFinished == 1
  {
    var s := run[|run| - 1];
    RunsEnd(k, run, |run| - 1);
    RunInv(k, run, |run| - 1);
    LeftBounds(k, s);
    StartLeft(k, run[0]);
    hide ConfigOk, Inv, Init, Step, Left, Distributed, Paired;
    if Stuck(k, s) {
      if s.moveFinished == 0 {
        var s' := Progress(k, s);
      }
      Finished(k, run, f);
    }
  }

  lemma StartLeft(k: Config, s: State)
    requires ConfigOk(k) && Init(k, s)
    ensures Left(k, s) <= Parts(k) * (2 * |k.q| + 4) + 2
  {
    hide ConfigOk;
    JobsLeftAtStart(|k.q|, s.jobs);
    assert Parts(k) * (2 * |k.q| + 4) == Parts(k) * (2 * |k.q| + 3) + Parts(k);
  }

  /** The cuts of the source: parts of psize strings, the last ones shorter or empty. */
  function SourceCuts(n: nat, parts: nat): (cuts: seq<nat>)
    requires parts > 0
  {
    var psize := (n + parts - 1) / parts;
    seq(parts + 1, p requires 0 <= p => if p * psize < n then p * psize else n)
  }

  lemma SourceCutsOk(n: nat, parts: nat)
    requires parts > 0
    ensures IsCuts(SourceCuts(n, parts), n)
  {
    var psize := (n + parts - 1) / parts;
    var cuts := SourceCuts(n, parts);
    Ceiling(n, parts, psize);
    forall p, q | 0 <= p <= q < |cuts| ensures cuts[p] <= cuts[q] {
      MulMono(p, q, psize);
    }
  }

  lemma Ceiling(n: nat, parts: nat, psize: nat)
    requires parts > 0 && psize == (n + parts - 1) / parts
    ensures parts * psize >= n
  {
    var m := n + parts - 1;
    assert m == parts * (m / parts) + m % parts;
  }

  lemma MulMono(p: nat, q: nat, m: nat)
    requires p <= q
    ensures p * m <= q * m
  {
    assert q * m == p * m + (q - p) * m;
  }

  /** No part has more than its share of the strings, rounded up. */
  lemma SourceCutsEven(n: nat, parts: nat, p: nat)
    requires parts > 0 && p < parts
    ensures var cuts := SourceCuts(n, parts); (cuts[p + 1] - cuts[p]) * parts <= n + parts - 1
  {
    hide *;
    var psize, cuts := (n + parts - 1) / parts, SourceCuts(n, parts);
    SourceCutsStep(n, parts, p);
    MulMono(cuts[p + 1] - cuts[p], psize, parts);
    Rounded(n + parts - 1, parts);
  }

  lemma Rounded(m: nat, parts: nat)
    requires parts > 0
    ensures m / parts * parts <= m
  {
  }

  lemma SourceCutsStep(n: nat, parts: nat, p: nat)
    requires parts > 0 && p < parts
    ensures var cuts := SourceCuts(n, parts); |cuts| == parts + 1 && 0 <= cuts[p + 1] - cuts[p] <= (n + parts - 1) / parts
  {
    NextPart(p, (n + parts - 1) / parts);
  }

  lemma NextPart(p: nat, psize: nat)
    ensures (p + 1) * psize == p * psize + psize && p * psize >= 0
  {
  }

  /** Every string set, classifier and number of parts gives a configuration. */
  lemma EveryConfig(q: seq<Str>, g: seq<nat>, size: seq<nat>, parts: nat) returns (k: Config)
    requires parts > 0 && |g| == |q| && Counts(g, size)
    ensures ConfigOk(k) && k.q == q && k.g == g && k.size == size && k.cuts == SourceCuts(|q|, parts)
  {
    var cuts, part, dest := SourceCuts(|q|, parts), [], [];
    SourceCutsOk(|q|, parts);
    while |part| < |q|
      invariant |part| == |dest| <= |q|
      invariant forall i :: 0 <= i < |part| ==> InPart(cuts, part[i], i) && dest[i] == Dest(g, size, cuts, part[i], i)
    {
      var i := |part|;
      var p := FindPart(cuts, i, |cuts| - 1);
      part, dest := part + [p], dest + [Dest(g, size, cuts, p, i)];
    }
    k := Config(q, g, size, cuts, part, dest);
  }
}
