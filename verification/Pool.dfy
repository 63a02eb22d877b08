/**
 The two-worker preparation pool of scripts/mac-preparation.ts.

 A submitted work is split into the synchronous part of `#start` that begins it and a later event in
 which it ends; between the two, other events may happen. A work's synchronous part does not call
 back into the pool. Promises are the `outcome` map: a job is in it once it settled.
 */
module Pool {
  import opened Options

  type Job = nat
  type Reason = int

  datatype Outcome = Resolved | Rejected(error: Reason)

  /** The pool's fields, the works that are running, and the history of submissions and begins. */
  datatype PoolState = PoolState(
    queue: seq<Job>, pending: set<Job>, active: nat,
    stopped: bool, failure: Reason, parent: Option<Reason>,
    running: set<Job>, outcome: map<Job, Outcome>,
    submitted: seq<Job>, begun: seq<Job>)

  const WORKERS := 2

  predicate Aborted(s: PoolState) {
    s.stopped || s.parent.Some?
  }

  /** The pool's own first cancellation wins over the parent's reason. */
  function AbortReason(s: PoolState): Reason
    requires Aborted(s)
  {
    if s.stopped then s.failure else s.parent.value
  }

  /** The first queued job takes a worker. */
  function BeginOne(s: PoolState): PoolState
    requires s.queue != []
  {
    var job := s.queue[0];
    s.(queue := s.queue[1..], active := s.active + 1, running := s.running + {job}, begun := s.begun + [job])
  }

  /** Jobs leave the queue in order while a worker is free. */
  function BeginQueued(s: PoolState): PoolState
    decreases |s.queue|
  {
    if s.active < WORKERS && s.queue != [] then BeginQueued(BeginOne(s)) else s
  }

  function RejectPending(s: PoolState, error: Reason): PoolState {
    s.(outcome := s.outcome + (map j | j in s.pending :: Rejected(error)), pending := {}, queue := [])
  }

  /** What `#drain` leaves behind. */
  function Drained(s: PoolState): PoolState {
    if !Aborted(s) then BeginQueued(s)
    else if s.active == 0 then RejectPending(s, AbortReason(s))
    else s
  }

  datatype Event =
    | Submit(job: Job)
    | Cancel(error: Reason)
    | ParentAborts(reason: Reason)
    | Ends(job: Job, thrown: Option<Reason>)

  /** A work can end only once and only while it runs; a parent signal aborts at most once. */
  predicate Enabled(s: PoolState, e: Event) {
    match e
    case Submit(j) => j !in s.submitted
    case Cancel(_) => true
    case ParentAborts(_) => s.parent.None?
    case Ends(j, _) => j in s.running
  }

  function Cancelled(s: PoolState, error: Reason): PoolState {
    Drained(if s.stopped then s else s.(stopped := true, failure := error))
  }

  function Queued(s: PoolState, j: Job): PoolState {
    s.(pending := s.pending + {j}, queue := s.queue + [j], submitted := s.submitted + [j])
  }

  /** The try and catch clauses of `#start`: a work that resolves under an aborted signal counts as a failure. */
  function AfterWork(s: PoolState, j: Job, error: Option<Reason>): PoolState {
    if error.None? && !Aborted(s) then s.(outcome := s.outcome[j := Resolved], pending := s.pending - {j})
    else Cancelled(s, if error.Some? then error.value else AbortReason(s))
  }

  function Apply(s: PoolState, e: Event): PoolState
    requires Enabled(s, e) && (e.Ends? ==> s.active > 0)
  {
    match e
    case Submit(j) => Drained(Queued(s, j))
    case Cancel(error) => Cancelled(s, error)
    case ParentAborts(reason) => s.(parent := Some(reason))
    case Ends(j, error) =>
      Drained(AfterWork(s, j, error).(active := s.active - 1, running := s.running - {j}))
  }

  // ---------------------------------------------------------------------------
  // The class

  class MacPreparationPool {
    var queue: seq<Job>
    var pending: set<Job>
    var active: nat
    var stopped: bool
    var failure: Reason
    var parent: Option<Reason>
    var outcome: map<Job, Outcome>
    ghost var running: set<Job>
    ghost var submitted: seq<Job>
    ghost var begun: seq<Job>

    ghost function State(): PoolState
      reads this
    {
      PoolState(queue, pending, active, stopped, failure, parent, running, outcome, submitted, begun)
    }

    constructor (parent: Option<Reason>)
      ensures State() == PoolState([], {}, 0, false, 0, parent, {}, map[], [], [])
    {
      this.queue, this.pending, this.active := [], {}, 0;
      this.stopped, this.failure, this.parent := false, 0, parent;
      this.outcome, this.running, this.submitted, this.begun := map[], {}, [], [];
    }

    method Run(job: Job)
      requires Inv(State()) && Enabled(State(), Submit(job))
      modifies this
      ensures State() == Apply(old(State()), Submit(job)) && Inv(State())
    {
      StepKeepsInv(State(), Submit(job));
      pending := pending + {job};
      queue := queue + [job];
      submitted := submitted + [job];
      Drain();
    }

    method CancelPool(error: Reason)
      requires Inv(State())
      modifies this
      ensures State() == Apply(old(State()), Cancel(error)) && Inv(State())
    {
      StepKeepsInv(State(), Cancel(error));
      Stop(error);
    }

    /** The body of `cancel`, also reached from the catch clause of `#start`. */
    method Stop(error: Reason)
      modifies this
      ensures State() == Cancelled(old(State()), error)
    {
      if !stopped {
        failure := error;
        stopped := true;
      }
      Drain();
    }

    method Drain()
      modifies this
      ensures State() == Drained(old(State()))
    {
      if stopped || parent.Some? {
        if active == 0 {
          RejectAll(if stopped then failure else parent.value);
        }
        return;
      }
      StartQueued();
    }

    method RejectAll(error: Reason)
      modifies this
      ensures State() == RejectPending(old(State()), error)
    {
      var rest := pending;
      while rest != {}
        invariant rest <= pending
        invariant State() == old(State()).(outcome := outcome)
        invariant forall j :: j in outcome <==> j in old(outcome) || (j in pending && j !in rest)
        invariant forall j :: j in outcome ==>
                    outcome[j] == (if j in pending && j !in rest then Rejected(error) else old(outcome)[j])
        decreases rest
      {
        var job :| job in rest;
        outcome := outcome[job := Rejected(error)];
        rest := rest - {job};
      }
      assert outcome == old(outcome) + (map j | j in pending :: Rejected(error));
      pending := {};
      queue := [];
    }

    method StartQueued()
      requires !Aborted(State())
      modifies this
      ensures State() == BeginQueued(old(State()))
    {
      while active < WORKERS && queue != []
        invariant !Aborted(State())
        invariant BeginQueued(State()) == BeginQueued(old(State()))
        decreases |queue|
      {
        var job := queue[0];
        queue := queue[1..];
        Start(job);
      }
    }

    /** The synchronous part of `#start`: the signal is not aborted, so the work begins. */
    method Start(job: Job)
      requires !Aborted(State())
      modifies this
      ensures State() == old(State()).(active := old(active) + 1, running := old(running) + {job},
                                       begun := old(begun) + [job])
    {
      active := active + 1;
      running := running + {job};
      begun := begun + [job];
    }

    /** The rest of `#start`, once the work resolved or threw: its try and catch clauses, then its finally. */
    method End(job: Job, error: Option<Reason>)
      requires Inv(State()) && Enabled(State(), Ends(job, error))
      modifies this
      ensures State() == Apply(old(State()), Ends(job, error)) && Inv(State())
    {
      ghost var s := State();
      StepKeepsInv(s, Ends(job, error));
      Settle(job, error);
      AfterWorkKeepsWorkers(s, job, error);
      ghost var u := State();
      active := active - 1;
      running := running - {job};
      assert State() == u.(active := s.active - 1, running := s.running - {job});
      Drain();
    }

    method Settle(job: Job, error: Option<Reason>)
      modifies this
      ensures State() == AfterWork(old(State()), job, error)
    {
      if error.Some? {
        Stop(error.value);
      } else if stopped || parent.Some? {
        Stop(if stopped then failure else parent.value);
      } else {
        outcome := outcome[job := Resolved];
        pending := pending - {job};
      }
    }
  }

  /** Cancelling while a work is still active only records the failure. */
  lemma AfterWorkKeepsWorkers(s: PoolState, j: Job, error: Option<Reason>)
    requires s.active > 0
    ensures AfterWork(s, j, error).active == s.active && AfterWork(s, j, error).running == s.running
  {
  }

  // ---------------------------------------------------------------------------
  // Invariant

  predicate Distinct(q: seq<Job>) {
    forall i, j :: 0 <= i < j < |q| ==> q[i] != q[j]
  }

  /** The conditions that do not depend on whether the queue was drained. */
  ghost predicate Core(s: PoolState) {
    && s.active == |s.running| <= WORKERS
    && Distinct(s.queue)
    && (forall j :: j in s.queue ==> j in s.pending && j !in s.running)
    && (forall j :: j in s.running ==> j in s.pending)
    && (forall j :: j in s.pending ==> j !in s.outcome)
    && (forall j :: j in s.submitted <==> j in s.pending || j in s.outcome)
    && s.begun <= s.submitted
    && (!Aborted(s) ==> Live(s))
  }

  /** While nothing is aborted, pending is exactly queued plus running and nothing was lost or rejected. */
  ghost predicate Live(s: PoolState) {
    && (forall j :: j in s.pending ==> j in s.running || j in s.queue)
    && s.submitted == s.begun + s.queue
    && (forall j :: j in s.outcome ==> s.outcome[j] == Resolved)
  }

  ghost predicate Inv(s: PoolState) {
    && Core(s)
    && (!Aborted(s) && s.queue != [] ==> s.active == WORKERS)
    && (Aborted(s) && s.active == 0 ==> s.pending == {})
  }

  lemma HeadAndTail(q: seq<Job>)
    requires Distinct(q) && q != []
    ensures Distinct(q[1..]) && q[0] !in q[1..]
    ensures forall j :: j in q <==> j == q[0] || j in q[1..]
  {
    assert q == [q[0]] + q[1..];
  }

  lemma OneMoreLast(q: seq<Job>, job: Job)
    requires Distinct(q) && job !in q
    ensures Distinct(q + [job])
    ensures forall j :: j in q + [job] <==> j == job || j in q
  {
  }

  lemma BeginOneKeepsCore(s: PoolState)
    requires Core(s) && !Aborted(s) && s.queue != [] && s.active < WORKERS
    ensures Core(BeginOne(s))
  {
    var t := BeginOne(s);
    HeadAndTail(s.queue);
    assert |t.running| == |s.running| + 1;
    BeginOneKeepsOrder(s);
  }

  lemma BeginOneKeepsOrder(s: PoolState)
    requires s.queue != [] && s.submitted == s.begun + s.queue
    ensures BeginOne(s).submitted == BeginOne(s).begun + BeginOne(s).queue
  {
    assert s.queue == [s.queue[0]] + s.queue[1..];
  }

  lemma {:induction false} BeginQueuedKeepsCore(s: PoolState)
    requires Core(s) && !Aborted(s)
    ensures Inv(BeginQueued(s))
    decreases |s.queue|
  {
    if s.active < WORKERS && s.queue != [] {
      BeginOneKeepsCore(s);
      BeginQueuedKeepsCore(BeginOne(s));
    }
  }

  lemma DrainedKeepsCore(s: PoolState)
    requires Core(s)
    ensures Inv(Drained(s))
  {
    if !Aborted(s) {
      BeginQueuedKeepsCore(s);
    }
  }

  lemma QueuedKeepsCore(s: PoolState, j: Job)
    requires Core(s) && j !in s.submitted
    ensures Core(Queued(s, j))
  {
    assert j !in s.pending && j !in s.outcome;
    OneMoreLast(s.queue, j);
    assert s.begun + s.queue + [j] == s.begun + (s.queue + [j]);
    assert s.begun <= s.submitted + [j];
  }

  lemma SubmitKeepsInv(s: PoolState, j: Job)
    requires Inv(s) && j !in s.submitted
    ensures Inv(Apply(s, Submit(j)))
  {
    QueuedKeepsCore(s, j);
    DrainedKeepsCore(Queued(s, j));
  }

  lemma EndKeepsInv(s: PoolState, j: Job, error: Option<Reason>)
    requires Inv(s) && j in s.running && s.active > 0
    ensures Inv(Apply(s, Ends(j, error)))
  {
    var u := AfterWork(s, j, error);
    var t := u.(active := s.active - 1, running := s.running - {j});
    assert |t.running| == |s.running| - 1;
    DrainedKeepsCore(t);
  }

  lemma RunningIsActive(s: PoolState, j: Job)
    requires Inv(s) && j in s.running
    ensures s.active > 0
  {
    assert |s.running - {j}| == |s.running| - 1;
  }

  lemma StepKeepsInv(s: PoolState, e: Event)
    requires Inv(s) && Enabled(s, e)
    ensures e.Ends? ==> s.active > 0
    ensures Inv(Apply(s, e))
  {
    match e
    case Submit(j) => SubmitKeepsInv(s, j);
    case Cancel(error) => DrainedKeepsCore(if s.stopped then s else s.(stopped := true, failure := error));
    case ParentAborts(reason) =>
    case Ends(j, error) =>
      RunningIsActive(s, j);
      EndKeepsInv(s, j, error);
  }

  // ---------------------------------------------------------------------------
  // Runs

  function Fresh(parent: Option<Reason>): PoolState {
    PoolState([], {}, 0, false, 0, parent, {}, map[], [], [])
  }

  /** Any order of submissions, cancellations, aborts and endings. */
  ghost predicate Run(trace: seq<PoolState>, events: seq<Event>) {
    && |trace| == |events| + 1 && trace[0] == Fresh(trace[0].parent)
    && forall i :: 0 <= i < |events| ==> MovesAt(trace, events, i)
  }

  predicate MovesAt(trace: seq<PoolState>, events: seq<Event>, i: nat) {
    i < |events| && |trace| == |events| + 1 && Moves(trace[i], events[i], trace[i + 1])
  }

  predicate Moves(s: PoolState, e: Event, t: PoolState) {
    Enabled(s, e) && (e.Ends? ==> s.active > 0) && t == Apply(s, e)
  }

  lemma {:induction false} RunKeepsInv(trace: seq<PoolState>, events: seq<Event>, k: nat)
    requires Run(trace, events) && k < |trace|
    ensures Inv(trace[k])
  {
    if k > 0 {
      RunKeepsInv(trace, events, k - 1);
      assert MovesAt(trace, events, k - 1);
      StepKeepsInv(trace[k - 1], events[k - 1]);
    }
  }

  lemma {:induction false} BeginQueuedFrame(s: PoolState)
    ensures var t := BeginQueued(s);
            && t.outcome == s.outcome && t.stopped == s.stopped && t.failure == s.failure && t.parent == s.parent
            && 2 * |t.queue| + t.active <= 2 * |s.queue| + s.active
            && (s.active < WORKERS && s.queue != [] ==> 2 * |t.queue| + t.active < 2 * |s.queue| + s.active)
    decreases |s.queue|
  {
    if s.active < WORKERS && s.queue != [] {
      BeginQueuedFrame(BeginOne(s));
    }
  }

  lemma DrainSettles(s: PoolState)
    ensures var t := Drained(s);
            && t.stopped == s.stopped && t.failure == s.failure && t.parent == s.parent
            && t.outcome == (if Aborted(s) && s.active == 0
                             then s.outcome + (map j | j in s.pending :: Rejected(AbortReason(s))) else s.outcome)
            && (Aborted(s) ==> t.active == s.active)
  {
    if !Aborted(s) {
      BeginQueuedFrame(s);
    }
  }

  /** `t` rejected everything that was waiting. */
  ghost predicate RejectsAll(s: PoolState, t: PoolState, waiting: set<Job>) {
    && Aborted(t) && t.active == 0
    && t.outcome == s.outcome + (map j | j in waiting :: Rejected(AbortReason(t)))
  }

  /** What one step settles: nothing, the work that resolved, or everything pending, by rejection. */
  lemma OutcomeOfStep(s: PoolState, e: Event, t: PoolState)
    requires Inv(s) && Moves(s, e, t)
    ensures || t.outcome == s.outcome
            || (e.Ends? && e.thrown.None? && !Aborted(s) && t.outcome == s.outcome[e.job := Resolved])
            || RejectsAll(s, t, if e.Submit? then s.pending + {e.job} else s.pending)
  {
    match e
    case Submit(k) => DrainSettles(Queued(s, k));
    case Cancel(error) => DrainSettles(if s.stopped then s else s.(stopped := true, failure := error));
    case ParentAborts(_) =>
    case Ends(k, error) => OutcomeOfEnd(s, k, error);
  }

  lemma OutcomeOfEnd(s: PoolState, k: Job, error: Option<Reason>)
    requires Inv(s) && k in s.running && s.active > 0
    ensures var t := Apply(s, Ends(k, error));
            || t.outcome == s.outcome
            || (error.None? && !Aborted(s) && t.outcome == s.outcome[k := Resolved])
            || RejectsAll(s, t, s.pending)
  {
    var u := AfterWork(s, k, error);
    DrainSettles(u.(active := s.active - 1, running := s.running - {k}));
  }

  /** A settled promise keeps its outcome, and only a job that was waiting, running or just submitted settles. */
  lemma SettlesOnce(s: PoolState, e: Event, t: PoolState, j: Job)
    requires Inv(s) && Moves(s, e, t)
    ensures j in s.outcome ==> j in t.outcome && t.outcome[j] == s.outcome[j]
    ensures j in t.outcome && j !in s.outcome ==> j in s.pending || e == Submit(j)
  {
    OutcomeOfStep(s, e, t);
  }

  /** No work begins in an aborted pool, nor in the step that aborts it, and an abort is final. */
  lemma NothingBeginsAfterAbort(s: PoolState, e: Event, t: PoolState)
    requires Inv(s) && Moves(s, e, t)
    ensures Aborted(s) ==> Aborted(t)
    ensures Aborted(t) ==> t.begun == s.begun
    ensures s.stopped ==> t.stopped && t.failure == s.failure
  {
    match e
    case Submit(k) => BeginQueuedFrame(Queued(s, k));
    case Cancel(_) =>
    case ParentAborts(_) =>
    case Ends(k, error) =>
      BeginQueuedFrame(AfterWork(s, k, error).(active := s.active - 1, running := s.running - {k}));
  }

  /** A job is rejected only in an aborted pool with no work running, and with the reason of the abort. */
  lemma RejectedOnlyWhenIdle(s: PoolState, e: Event, t: PoolState, j: Job)
    requires Inv(s) && Moves(s, e, t)
    requires j !in s.outcome && j in t.outcome && t.outcome[j].Rejected?
    ensures Aborted(t) && t.active == 0 && t.running == {} && t.outcome[j].error == AbortReason(t)
  {
    match e
    case Submit(k) => BeginQueuedFrame(Queued(s, k));
    case Cancel(_) =>
    case ParentAborts(_) =>
    case Ends(k, error) =>
      BeginQueuedFrame(AfterWork(s, k, error).(active := s.active - 1, running := s.running - {k}));
    StepKeepsInv(s, e);
  }

  /** Over every run: once aborted, nothing more begins. */
  lemma {:induction false} AbortIsFinal(trace: seq<PoolState>, events: seq<Event>, i: nat, k: nat)
    requires Run(trace, events) && i <= k < |trace| && Aborted(trace[i])
    ensures Aborted(trace[k]) && trace[k].begun == trace[i].begun
  {
    if i < k {
      AbortIsFinal(trace, events, i, k - 1);
      RunKeepsInv(trace, events, k - 1);
      assert MovesAt(trace, events, k - 1);
      NothingBeginsAfterAbort(trace[k - 1], events[k - 1], trace[k]);
    }
  }

  /** Over every run: a settled job keeps its outcome for good. */
  lemma {:induction false} OutcomeIsFinal(trace: seq<PoolState>, events: seq<Event>, i: nat, k: nat, j: Job)
    requires Run(trace, events) && i <= k < |trace| && j in trace[i].outcome
    ensures j in trace[k].outcome && trace[k].outcome[j] == trace[i].outcome[j]
  {
    if i < k {
      OutcomeIsFinal(trace, events, i, k - 1, j);
      RunKeepsInv(trace, events, k - 1);
      assert MovesAt(trace, events, k - 1);
      SettlesOnce(trace[k - 1], events[k - 1], trace[k], j);
    }
  }

  lemma {:induction false} FailureIsFinal(trace: seq<PoolState>, events: seq<Event>, i: nat, k: nat)
    requires Run(trace, events) && i <= k < |trace| && trace[i].stopped
    ensures trace[k].stopped && trace[k].failure == trace[i].failure
  {
    if i < k {
      FailureIsFinal(trace, events, i, k - 1);
      RunKeepsInv(trace, events, k - 1);
      assert MovesAt(trace, events, k - 1);
      NothingBeginsAfterAbort(trace[k - 1], events[k - 1], trace[k]);
    }
  }

  // ---------------------------------------------------------------------------
  // Which error, from the events alone

  /** The reason of the parent's abort, if it aborted before event `k`. */
  function ParentAbort(initial: Option<Reason>, events: seq<Event>, k: nat): Option<Reason>
    requires k <= |events|
  {
    if k == 0 then initial
    else if ParentAbort(initial, events, k - 1).Some? then ParentAbort(initial, events, k - 1)
    else if events[k - 1].ParentAborts? then Some(events[k - 1].reason)
    else None
  }

  /** With what event `i` stops a pool: its argument, what the work threw, or the abort it resolved under. */
  function Stops(initial: Option<Reason>, events: seq<Event>, i: nat): Option<Reason>
    requires i < |events|
  {
    match events[i]
    case Cancel(error) => Some(error)
    case Ends(_, thrown) => if thrown.Some? then thrown else ParentAbort(initial, events, i)
    case _ => None
  }

  /** The error of the first event that stopped the pool. */
  function FirstStop(initial: Option<Reason>, events: seq<Event>, k: nat): Option<Reason>
    requires k <= |events|
  {
    if k == 0 then None
    else if FirstStop(initial, events, k - 1).Some? then FirstStop(initial, events, k - 1)
    else Stops(initial, events, k - 1)
  }

  /** What the pool rejects with and what join throws: the first stop, or else the parent's reason. */
  function AbortError(initial: Option<Reason>, events: seq<Event>, k: nat): Option<Reason>
    requires k <= |events|
  {
    var first := FirstStop(initial, events, k);
    if first.Some? then first else ParentAbort(initial, events, k)
  }

  lemma {:induction false} FirstStopIs(initial: Option<Reason>, events: seq<Event>, k: nat)
    requires k <= |events| && FirstStop(initial, events, k).Some?
    ensures exists i :: 0 <= i < k && Stops(initial, events, i) == FirstStop(initial, events, k)
                        && forall j :: 0 <= j < i ==> Stops(initial, events, j).None?
  {
    if FirstStop(initial, events, k - 1).Some? {
      FirstStopIs(initial, events, k - 1);
    } else {
      NoStop(initial, events, k - 1);
    }
  }

  lemma {:induction false} NoStop(initial: Option<Reason>, events: seq<Event>, k: nat)
    requires k <= |events| && FirstStop(initial, events, k).None?
    ensures forall j :: 0 <= j < k ==> Stops(initial, events, j).None?
  {
    if k > 0 {
      NoStop(initial, events, k - 1);
    }
  }

  /** The pool's fields say what the events did. */
  predicate Tells(s: PoolState, initial: Option<Reason>, events: seq<Event>, k: nat)
    requires k <= |events|
  {
    && s.parent == ParentAbort(initial, events, k)
    && s.stopped == FirstStop(initial, events, k).Some?
    && (s.stopped ==> s.failure == FirstStop(initial, events, k).value)
  }

  lemma StepTells(s: PoolState, initial: Option<Reason>, events: seq<Event>, k: nat, t: PoolState)
    requires k < |events| && Tells(s, initial, events, k) && Moves(s, events[k], t)
    ensures Tells(t, initial, events, k + 1)
  {
    match events[k]
    case Submit(j) => DrainSettles(Queued(s, j));
    case Cancel(error) => DrainSettles(if s.stopped then s else s.(stopped := true, failure := error));
    case ParentAborts(_) =>
    case Ends(j, thrown) =>
      var u := AfterWork(s, j, thrown);
      var error := if thrown.Some? then thrown.value else if Aborted(s) then AbortReason(s) else 0;
      DrainSettles(if s.stopped then s else s.(stopped := true, failure := error));
      DrainSettles(u.(active := s.active - 1, running := s.running - {j}));
  }

  lemma {:induction false} RunTells(trace: seq<PoolState>, events: seq<Event>, k: nat)
    requires Run(trace, events) && k < |trace|
    ensures Tells(trace[k], trace[0].parent, events, k)
  {
    if k > 0 {
      RunTells(trace, events, k - 1);
      assert MovesAt(trace, events, k - 1);
      StepTells(trace[k - 1], trace[0].parent, events, k - 1, trace[k]);
    }
  }

  /** A stopped pool keeps the error of the first event that stopped it. */
  lemma FailureIsTheFirstStop(trace: seq<PoolState>, events: seq<Event>, k: nat) returns (i: nat)
    requires Run(trace, events) && k < |trace| && trace[k].stopped
    ensures i < k && Stops(trace[0].parent, events, i) == Some(trace[k].failure)
    ensures forall j :: 0 <= j < i ==> Stops(trace[0].parent, events, j).None?
  {
    RunTells(trace, events, k);
    FirstStopIs(trace[0].parent, events, k);
    i :| 0 <= i < k && Stops(trace[0].parent, events, i) == FirstStop(trace[0].parent, events, k)
         && forall j :: 0 <= j < i ==> Stops(trace[0].parent, events, j).None?;
  }

  /**
   How each job settles: it resolves in the event that ends its work without an error while nothing was aborted,
   and otherwise it is rejected with the error of the first stop, or with the parent's reason if nothing stopped.
   */
  lemma SettlesWith(trace: seq<PoolState>, events: seq<Event>, k: nat, j: Job)
    requires Run(trace, events) && k < |events| && j !in trace[k].outcome && j in trace[k + 1].outcome
    ensures var error := AbortError(trace[0].parent, events, k + 1);
            trace[k + 1].outcome[j] == (if error.Some? then Rejected(error.value) else Resolved)
    ensures trace[k + 1].outcome[j].Resolved? ==> events[k] == Ends(j, None)
  {
    RunKeepsInv(trace, events, k);
    RunTells(trace, events, k + 1);
    assert MovesAt(trace, events, k);
    OutcomeOfStep(trace[k], events[k], trace[k + 1]);
    NothingBeginsAfterAbort(trace[k], events[k], trace[k + 1]);
    if trace[k + 1].outcome[j].Resolved? {
      ResolvedStep(trace[k], events[k], trace[k + 1], j);
    } else {
      RejectedOnlyWhenIdle(trace[k], events[k], trace[k + 1], j);
    }
  }

  lemma ResolvedStep(s: PoolState, e: Event, t: PoolState, j: Job)
    requires Inv(s) && Moves(s, e, t) && j !in s.outcome && j in t.outcome && t.outcome[j].Resolved?
    ensures e == Ends(j, None) && !Aborted(s) && !Aborted(t)
  {
    OutcomeOfStep(s, e, t);
    AbortedByStep(s, e, t);
  }

  /** After the pool's own cancel, every rejection of the run carries the error of the first event that stopped it. */
  lemma RejectionsCarryFirstCancel(trace: seq<PoolState>, events: seq<Event>, i: nat, k: nat, j: Job)
    requires Run(trace, events) && i <= k < |events| && trace[i].stopped
    requires j !in trace[k].outcome && j in trace[k + 1].outcome
    ensures Some(trace[i].failure) == FirstStop(trace[0].parent, events, i)
    ensures trace[k + 1].outcome[j] == Rejected(trace[i].failure)
  {
    RunTells(trace, events, i);
    RunTells(trace, events, k + 1);
    FailureIsFinal(trace, events, i, k + 1);
    SettlesWith(trace, events, k, j);
  }

  /** In every reachable state at most two works run, and they began in the order of submission. */
  lemma TwoWorkersInOrder(trace: seq<PoolState>, events: seq<Event>, k: nat)
    requires Run(trace, events) && k < |trace|
    ensures |trace[k].running| == trace[k].active <= 2
    ensures trace[k].begun <= trace[k].submitted
    ensures !Aborted(trace[k]) ==> trace[k].submitted == trace[k].begun + trace[k].queue
    ensures !Aborted(trace[k]) && trace[k].queue != [] ==> trace[k].active == 2
  {
    RunKeepsInv(trace, events, k);
  }

  // ---------------------------------------------------------------------------
  // Progress

  /** How many endings the pool can still wait for. */
  function Remaining(s: PoolState): nat {
    2 * |s.queue| + s.active
  }

  lemma EndingsMakeProgress(s: PoolState, e: Event, t: PoolState)
    requires Inv(s) && Moves(s, e, t) && e.Ends?
    ensures Remaining(t) < Remaining(s)
  {
    BeginQueuedFrame(AfterWork(s, e.job, e.thrown).(active := s.active - 1, running := s.running - {e.job}));
  }

  /** Nothing is stranded: every promise is settled exactly when no work is running. */
  lemma SettledIffIdle(s: PoolState)
    requires Inv(s)
    ensures (forall j :: j in s.submitted ==> j in s.outcome) <==> s.running == {}
    ensures s.running == {} ==> s.queue == [] && s.pending == {}
  {
    assert s.queue != [] ==> s.queue[0] in s.pending;
    if s.running == {} {
      assert s.active == 0;
    } else {
      var j :| j in s.running;
      assert j in s.pending;
    }
  }

  /** If works end, all of them settle: endings alone bring any state to one where no work runs, in Remaining steps. */
  lemma {:induction false} EndingsSettleEverything(trace: seq<PoolState>, events: seq<Event>)
    requires |trace| == |events| + 1 && Inv(trace[0])
    requires forall i :: 0 <= i < |events| ==> events[i].Ends? && Moves(trace[i], events[i], trace[i + 1])
    ensures Inv(trace[|events|]) && |events| + Remaining(trace[|events|]) <= Remaining(trace[0])
    ensures |events| == Remaining(trace[0]) ==>
              forall j :: j in trace[|events|].submitted ==> j in trace[|events|].outcome
  {
    if |events| > 0 {
      var n := |events| - 1;
      EndingsSettleEverything(trace[..|events|], events[..n]);
      StepKeepsInv(trace[n], events[n]);
      EndingsMakeProgress(trace[n], events[n], trace[n + 1]);
    }
    SettledIffIdle(trace[|events|]);
  }

  /** What `join` throws once the promises it waits for are settled. */
  function JoinError(s: PoolState): Option<Reason> {
    if s.stopped then Some(s.failure) else s.parent
  }

  /** A cancellation, an abort of the parent, or a work that throws. */
  predicate Aborts(e: Event) {
    e.Cancel? || e.ParentAborts? || (e.Ends? && e.thrown.Some?)
  }

  lemma AbortedByStep(s: PoolState, e: Event, t: PoolState)
    requires Moves(s, e, t)
    ensures Aborted(t) <==> Aborted(s) || Aborts(e)
  {
    match e
    case Submit(j) => DrainSettles(Queued(s, j));
    case Cancel(error) => DrainSettles(if s.stopped then s else s.(stopped := true, failure := error));
    case ParentAborts(_) =>
    case Ends(j, error) =>
      var u := AfterWork(s, j, error);
      DrainSettles(s.(stopped := true, failure := if error.Some? then error.value else 0));
      DrainSettles(u.(active := s.active - 1, running := s.running - {j}));
  }

  lemma {:induction false} AbortedIff(trace: seq<PoolState>, events: seq<Event>, k: nat)
    requires Run(trace, events) && k < |trace|
    ensures Aborted(trace[k]) <==> trace[0].parent.Some? || exists i :: 0 <= i < k && Aborts(events[i])
  {
    if k > 0 {
      AbortedIff(trace, events, k - 1);
      assert MovesAt(trace, events, k - 1);
      AbortedByStep(trace[k - 1], events[k - 1], trace[k]);
      assert (exists i :: 0 <= i < k && Aborts(events[i]))
        <==> Aborts(events[k - 1]) || exists i :: 0 <= i < k - 1 && Aborts(events[i]);
    }
  }

  /**
   runMacPreparations on a pool of its own waits for all its branches and then joins: at that point no
   branch is running and nothing waits, and join throws exactly when the parent was aborted from the start,
   or the pool was cancelled, the parent aborted or some branch threw since. In particular it throws whenever
   a branch was rejected. What it throws is the error of the first stop, or else the parent's reason.
   */
  lemma OwnPoolSettles(trace: seq<PoolState>, events: seq<Event>, k: nat)
    requires Run(trace, events) && k < |trace|
    requires forall j :: j in trace[k].submitted ==> j in trace[k].outcome
    ensures trace[k].running == {} && trace[k].queue == [] && trace[k].pending == {}
    ensures JoinError(trace[k]).Some?
            <==> trace[0].parent.Some? || exists i :: 0 <= i < k && Aborts(events[i])
    ensures (exists j :: j in trace[k].outcome && trace[k].outcome[j].Rejected?) ==> JoinError(trace[k]).Some?
    ensures JoinError(trace[k]) == AbortError(trace[0].parent, events, k)
  {
    RunTells(trace, events, k);
    RunKeepsInv(trace, events, k);
    SettledIffIdle(trace[k]);
    AbortedIff(trace, events, k);
  }
}
