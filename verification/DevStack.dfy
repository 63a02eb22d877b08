/**
 The shutdown machine of runDevelopmentStack in scripts/dev.ts: the mutually re-entrant stop and
 settleService, startService, and the events that call them, over distinct services.

 A child ends with an "exit" or an "error" event, or both. startService may also throw out of spawn.
 */
module DevStack {
  import opened Options

  type Service = string
  type Failure = int

  datatype Promise = Pending | Resolved | Rejected(failure: Failure)

  datatype Timer = Unset | Armed | Cleared

  /**
   `children` are the services that were spawned, `ended` those of them with a terminal event, and `lost`
   those whose spawn threw; the last two are history.
   */
  datatype Stack = Stack(
    services: set<Service>, stopping: bool, remaining: int, terminalFailure: Option<Failure>,
    settled: set<Service>, unspawned: set<Service>, children: set<Service>,
    timer: Timer, promise: Promise, ended: set<Service>, lost: set<Service>)

  function Fresh(services: set<Service>): Stack {
    Stack(services, false, |services|, None, {}, services, {}, Unset, Pending, {}, {})
  }

  /** A promise settles once; the recorded failure decides how. */
  function Settle(p: Promise, failure: Option<Failure>): Promise {
    if !p.Pending? then p
    else if failure.Some? then Rejected(failure.value)
    else Resolved
  }

  function Record(s: Stack, failure: Option<Failure>): Stack {
    if s.terminalFailure.None? then s.(terminalFailure := failure) else s
  }

  /** The end of `stop`: the last service to settle releases the stack. */
  function Release(s: Stack): Stack {
    if s.remaining != 0 then s
    else s.(timer := if s.timer == Armed then Cleared else s.timer, promise := Settle(s.promise, s.terminalFailure))
  }

  /** The first stop settles everything that was never spawned, at once, and arms the force timer. */
  function Stopping(s: Stack): Stack {
    if s.stopping then s
    else
      s.(stopping := true, settled := s.settled + s.unspawned, remaining := s.remaining - |s.unspawned - s.settled|,
         unspawned := {}, timer := Armed)
  }

  function Stopped(s: Stack, failure: Option<Failure>): Stack {
    Release(Stopping(Record(s, failure)))
  }

  function ServiceSettled(s: Stack, service: Service, failure: Option<Failure>): Stack {
    if service in s.settled then s
    else Stopped(s.(settled := s.settled + {service}, remaining := s.remaining - 1), failure)
  }

  /** `remaining` is the number of unsettled services. */
  ghost predicate Counts(s: Stack) {
    s.unspawned <= s.services && s.settled <= s.services && s.remaining == |s.services - s.settled|
  }

  datatype Event =
    | Abort
    | StartupFails(failure: Failure)
    | Start(service: Service, throws: bool)
    | Exit(service: Service, unexpected: Failure)
    | Error(service: Service, failure: Failure)

  predicate Enabled(s: Stack, e: Event) {
    match e
    case Exit(service, _) => service in s.children
    case Error(service, _) => service in s.children
    case _ => true
  }

  function ChildEnds(s: Stack, service: Service, failure: Option<Failure>): Stack {
    ServiceSettled(s, service, failure).(ended := s.ended + {service})
  }

  function Apply(s: Stack, e: Event): Stack {
    match e
    case Abort => Stopped(s, None)
    case StartupFails(failure) => Stopped(s, Some(failure))
    case Start(service, throws) =>
      if s.stopping || service !in s.unspawned then s
      else if throws then s.(unspawned := s.unspawned - {service}, lost := s.lost + {service})
      else s.(unspawned := s.unspawned - {service}, children := s.children + {service})
    case Exit(service, unexpected) => ChildEnds(s, service, if s.stopping then None else Some(unexpected))
    case Error(service, failure) => ChildEnds(s, service, Some(failure))
  }

  // ---------------------------------------------------------------------------
  // The closures of runDevelopmentStack, as one object

  class DevelopmentStack {
    const services: set<Service>
    var stopping: bool
    var remaining: int
    var terminalFailure: Option<Failure>
    var settled: set<Service>
    var unspawned: set<Service>
    var children: set<Service>
    var forceTimer: Timer
    var promise: Promise
    ghost var ended: set<Service>
    ghost var lost: set<Service>

    ghost function State(): Stack
      reads this
    {
      Stack(services, stopping, remaining, terminalFailure, settled, unspawned, children, forceTimer, promise,
            ended, lost)
    }

    constructor (services: set<Service>)
      ensures State() == Fresh(services)
    {
      this.services := services;
      this.stopping, this.remaining, this.terminalFailure := false, |services|, None;
      this.settled, this.unspawned, this.children := {}, services, {};
      this.forceTimer, this.promise := Unset, Pending;
      this.ended, this.lost := {}, {};
    }

    method Stop(failure: Option<Failure>)
      requires Counts(State())
      modifies this
      ensures State() == Stopped(old(State()), failure) && Counts(State())
      decreases if stopping then 0 else 1, 0
    {
      ghost var s := Record(State(), failure);
      StoppedKeepsCounts(State(), failure);
      if terminalFailure.None? {
        terminalFailure := failure;
      }
      if !stopping {
        stopping := true;
        SettleUnspawned();
        unspawned := {};
        forceTimer := Armed;
      }
      assert Release(State()) == Release(Stopping(s));
      ReleaseIfDone();
    }

    method ReleaseIfDone()
      modifies this
      ensures State() == Release(old(State()))
    {
      if remaining != 0 {
        return;
      }
      if forceTimer == Armed {
        forceTimer := Cleared;
      }
      promise := Settle(promise, terminalFailure);
    }

    /** Each of these calls re-enters Stop; the last one may already settle the promise. */
    method SettleUnspawned()
      requires stopping && Counts(State())
      modifies this
      ensures State() == UnspawnedSettled(old(State()), old(unspawned))
      decreases 0, 2
    {
      ghost var s := State();
      var rest := unspawned;
      ghost var done: set<Service> := {};
      assert State() == UnspawnedSettled(s, {});
      while rest != {}
        invariant rest !! done && rest + done == s.unspawned
        invariant State() == UnspawnedSettled(s, done) && Counts(State())
        decreases rest
      {
        var service :| service in rest;
        SettledOneMore(s, done, service);
        SettleService(service, None);
        done := done + {service};
        rest := rest - {service};
      }
      assert done == s.unspawned;
    }

    method SettleService(service: Service, failure: Option<Failure>)
      requires Counts(State()) && service in services
      modifies this
      ensures State() == ServiceSettled(old(State()), service, failure) && Counts(State())
      decreases if stopping then 0 else 1, 1
    {
      if service in settled {
        return;
      }
      OneFewerCounts(State(), service);
      settled := settled + {service};
      remaining := remaining - 1;
      Stop(failure);
    }

    method StartService(service: Service, throws: bool)
      modifies this
      ensures State() == Apply(old(State()), Start(service, throws))
    {
      if stopping || service !in unspawned {
        return;
      }
      unspawned := unspawned - {service};
      if throws {
        lost := lost + {service};
        return;
      }
      children := children + {service};
    }

    method OnExit(service: Service, unexpected: Failure)
      requires Counts(State()) && service in services
      modifies this
      ensures State() == Apply(old(State()), Exit(service, unexpected))
    {
      SettleService(service, if stopping then None else Some(unexpected));
      ended := ended + {service};
    }

    method OnError(service: Service, failure: Failure)
      requires Counts(State()) && service in services
      modifies this
      ensures State() == Apply(old(State()), Error(service, failure))
    {
      SettleService(service, Some(failure));
      ended := ended + {service};
    }
  }

  /** The stack after `done` of the unspawned services went through settleService during the first stop. */
  function UnspawnedSettled(s: Stack, done: set<Service>): Stack {
    var n := |done - s.settled|;
    var t := s.(settled := s.settled + done, remaining := s.remaining - n);
    if n == 0 then t else Release(t)
  }

  lemma SettledOneMore(s: Stack, done: set<Service>, service: Service)
    requires s.stopping && Counts(s) && service in s.services && service !in done && done <= s.services
    ensures ServiceSettled(UnspawnedSettled(s, done), service, None) == UnspawnedSettled(s, done + {service})
  {
    assert s.settled + (done + {service}) == s.settled + done + {service};
    if service in s.settled {
      assert done + {service} - s.settled == done - s.settled;
    } else {
      NewlySettled(s, done, service);
    }
  }

  /** Before the last of them the stack is not released, so settling one more is the counter one lower. */
  lemma NewlySettled(s: Stack, done: set<Service>, service: Service)
    requires s.stopping && Counts(s) && service in s.services && service !in done && done <= s.services
    requires service !in s.settled
    ensures ServiceSettled(UnspawnedSettled(s, done), service, None) == UnspawnedSettled(s, done + {service})
  {
    var before, after := done - s.settled, done + {service} - s.settled;
    assert after == before + {service} && |after| == |before| + 1;
    SubsetSize(after, s.services - s.settled);
    var u := s.(settled := s.settled + done, remaining := s.remaining - |before|);
    assert UnspawnedSettled(s, done) == u;
    StopAgain(u.(settled := u.settled + {service}, remaining := u.remaining - 1));
    assert u.settled + {service} == s.settled + (done + {service});
  }

  /** A stop without a failure, once stopping, only checks whether all services settled. */
  lemma StopAgain(s: Stack)
    requires s.stopping
    ensures Stopped(s, None) == Release(s)
  {
  }

  lemma SubsetSize(a: set<Service>, b: set<Service>)
    requires a <= b
    ensures |a| <= |b|
    ensures |a| == |b| ==> a == b
  {
    assert b == a + (b - a);
  }

  lemma StoppedKeepsCounts(s: Stack, failure: Option<Failure>)
    requires Counts(s)
    ensures Counts(Stopped(s, failure))
  {
    var fresh' := s.unspawned - s.settled;
    assert s.services - s.settled == (s.services - (s.settled + s.unspawned)) + fresh';
  }

  // ---------------------------------------------------------------------------
  // Every order of events

  /** Every service is unspawned, a child, lost, or settled without ever being spawned; children settle by ending. */
  ghost predicate Accounted(s: Stack) {
    && (forall x :: x in s.services ==> x in s.settled || x in s.unspawned || x in s.children || x in s.lost)
    && (forall x :: x in s.unspawned ==> x !in s.settled && x !in s.children && x !in s.lost)
    && (forall x :: x in s.lost ==> x in s.services && x !in s.settled && x !in s.children)
    && (forall x :: x in s.children ==> x in s.services && (x in s.settled ==> x in s.ended))
    && (forall x :: x in s.ended ==> x in s.settled && x in s.children)
  }

  ghost predicate Inv(s: Stack) {
    && Counts(s)
    && Accounted(s)
    && Phase(s)
  }

  /** Before the first stop nothing is settled; after it the timer and the promise follow `remaining`. */
  ghost predicate Phase(s: Stack) {
    && (s.stopping ==> s.unspawned == {}
                       && s.timer == (if s.remaining == 0 then Cleared else Armed)
                       && (s.promise.Pending? <==> s.remaining != 0))
    && (!s.stopping ==> s.settled == {} && s.promise.Pending? && s.timer == Unset && s.terminalFailure.None?)
    && (s.promise.Rejected? ==> s.terminalFailure == Some(s.promise.failure))
  }

  lemma StoppedKeepsInv(s: Stack, failure: Option<Failure>)
    requires Inv(s)
    ensures Inv(Stopped(s, failure))
  {
    StoppedKeepsCounts(s, failure);
    var t := Stopped(s, failure);
    assert s.unspawned - s.settled == s.unspawned;
    assert t.remaining == |t.services - t.settled|;
  }

  lemma StoppedKeepsPhase(s: Stack, failure: Option<Failure>)
    requires s.promise.Rejected? ==> s.terminalFailure == Some(s.promise.failure)
    requires s.stopping ==> s.unspawned == {} && s.timer == (if s.promise.Pending? then Armed else Cleared)
    requires s.stopping ==> s.promise.Pending? || s.remaining == 0
    requires !s.stopping ==> s.promise.Pending? && s.timer == Unset
    ensures Phase(Stopped(s, failure)) && Stopped(s, failure).stopping
  {
  }

  lemma SettledKeepsInv(s: Stack, service: Service, failure: Option<Failure>)
    requires Inv(s) && service in s.children
    ensures Inv(ChildEnds(s, service, failure))
  {
    if service in s.settled {
      assert s.(ended := s.ended + {service}) == s;
    } else {
      NewlySettledKeepsInv(s, service, failure);
    }
  }

  lemma NewlySettledKeepsInv(s: Stack, service: Service, failure: Option<Failure>)
    requires Inv(s) && service in s.children && service !in s.settled
    ensures Inv(ChildEnds(s, service, failure))
  {
    var u := s.(settled := s.settled + {service}, remaining := s.remaining - 1);
    OneFewerCounts(s, service);
    StoppedKeepsCounts(u, failure);
    StoppedKeepsPhase(u, failure);
    EndedIsAccounted(s, service, failure);
  }

  lemma OneFewerCounts(s: Stack, service: Service)
    requires Counts(s) && service in s.services && service !in s.settled
    ensures s.remaining > 0 && Counts(s.(settled := s.settled + {service}, remaining := s.remaining - 1))
  {
    assert service in s.services - s.settled;
    assert s.services - (s.settled + {service}) == s.services - s.settled - {service};
  }

  lemma EndedIsAccounted(s: Stack, service: Service, failure: Option<Failure>)
    requires Accounted(s) && service in s.children && service !in s.settled
    ensures Accounted(ChildEnds(s, service, failure))
  {
    SettledSets(s, service, failure);
    AccountedAfter(s, ChildEnds(s, service, failure), service);
  }

  /** What settling one service does to the sets. */
  lemma SettledSets(s: Stack, service: Service, failure: Option<Failure>)
    requires service !in s.settled
    ensures var t := ServiceSettled(s, service, failure);
            && t.children == s.children && t.lost == s.lost && t.services == s.services && t.ended == s.ended
            && t.settled == s.settled + {service} + (if s.stopping then {} else s.unspawned)
            && t.unspawned == (if s.stopping then s.unspawned else {})
  {
  }

  lemma AccountedAfter(s: Stack, t: Stack, service: Service)
    requires Accounted(s) && service in s.children
    requires t.children == s.children && t.lost == s.lost && t.services == s.services && t.ended == s.ended + {service}
    requires t.settled == s.settled + {service} + (if s.stopping then {} else s.unspawned)
    requires t.unspawned == if s.stopping then s.unspawned else {}
    ensures Accounted(t)
  {
  }

  lemma StartKeepsInv(s: Stack, service: Service, throws: bool)
    requires Inv(s)
    ensures Inv(Apply(s, Start(service, throws)))
  {
  }

  lemma ChildEndKeepsInv(s: Stack, service: Service, failure: Option<Failure>, t: Stack)
    requires Inv(s) && service in s.children && t == ChildEnds(s, service, failure)
    ensures Inv(t) && t.services == s.services
  {
    SettledKeepsInv(s, service, failure);
  }

  lemma StopKeepsInv(s: Stack, failure: Option<Failure>, t: Stack)
    requires Inv(s) && t == Stopped(s, failure)
    ensures Inv(t) && t.services == s.services
  {
    StoppedKeepsInv(s, failure);
  }

  lemma StepKeepsInv(s: Stack, e: Event, t: Stack)
    requires Inv(s) && Moves(s, e, t)
    ensures Inv(t) && t.services == s.services
  {
    match e
    case Abort => StopKeepsInv(s, None, t);
    case StartupFails(failure) => StopKeepsInv(s, Some(failure), t);
    case Start(service, throws) => StartKeepsInv(s, service, throws);
    case Exit(service, unexpected) => ChildEndKeepsInv(s, service, if s.stopping then None else Some(unexpected), t);
    case Error(service, failure) => ChildEndKeepsInv(s, service, Some(failure), t);
  }

  predicate Moves(s: Stack, e: Event, t: Stack) {
    Enabled(s, e) && t == Apply(s, e)
  }

  predicate MovesAt(trace: seq<Stack>, events: seq<Event>, i: nat) {
    i < |events| && i + 1 < |trace| && Moves(trace[i], events[i], trace[i + 1])
  }

  ghost predicate Run(services: set<Service>, trace: seq<Stack>, events: seq<Event>) {
    && |trace| == |events| + 1 && trace[0] == Fresh(services)
    && forall i :: 0 <= i < |events| ==> MovesAt(trace, events, i)
  }

  lemma FreshIsRight(services: set<Service>)
    ensures Inv(Fresh(services))
  {
    assert services - {} == services;
  }

  lemma {:induction false} RunKeepsInv(services: set<Service>, trace: seq<Stack>, events: seq<Event>, k: nat)
    requires Run(services, trace, events) && k < |trace|
    ensures Inv(trace[k]) && trace[k].services == services
  {
    if k == 0 {
      FreshIsRight(services);
    } else {
      RunKeepsInv(services, trace, events, k - 1);
      assert MovesAt(trace, events, k - 1);
      StepKeepsInv(trace[k - 1], events[k - 1], trace[k]);
    }
  }

  /** `remaining` counts the unsettled services and is never negative, whatever the order of events. */
  lemma RemainingIsUnsettled(services: set<Service>, trace: seq<Stack>, events: seq<Event>, k: nat)
    requires Run(services, trace, events) && k < |trace|
    ensures Inv(trace[k])
    ensures trace[k].services == services && trace[k].remaining == |services - trace[k].settled| >= 0
  {
    RunKeepsInv(services, trace, events, k);
  }

  /** Nothing is spawned after stopping, stopping is final, and a recorded failure or settled promise never changes. */
  lemma StepFrame(s: Stack, e: Event, t: Stack)
    requires Moves(s, e, t)
    ensures && (s.stopping ==> t.stopping && t.children == s.children)
            && (s.terminalFailure.Some? ==> t.terminalFailure == s.terminalFailure)
            && (!s.promise.Pending? ==> t.promise == s.promise)
            && (s.promise.Pending? && !t.promise.Pending? ==> t.promise == Settle(Pending, t.terminalFailure))
            && s.lost <= t.lost
  {
  }

  /** Over every run: once stopping, no service is spawned any more, and a settled promise stays as it is. */
  lemma {:induction false} StoppingIsFinal(
    services: set<Service>, trace: seq<Stack>, events: seq<Event>, i: nat, k: nat)
    requires Run(services, trace, events) && i <= k < |trace|
    ensures trace[i].stopping ==> trace[k].stopping && trace[k].children == trace[i].children
    ensures !trace[i].promise.Pending? ==> trace[k].promise == trace[i].promise
  {
    if i < k {
      StoppingIsFinal(services, trace, events, i, k - 1);
      assert MovesAt(trace, events, k - 1);
      StepFrame(trace[k - 1], events[k - 1], trace[k]);
    }
  }

  // ---------------------------------------------------------------------------
  // What a stack does, from its events alone

  /** Nothing but starts among the first `k` events: only then is the stack not stopping. */
  predicate OnlyStarts(events: seq<Event>, k: nat)
    requires k <= |events|
  {
    forall m :: 0 <= m < k ==> events[m].Start?
  }

  predicate EndsChild(e: Event, service: Service) {
    (e.Exit? || e.Error?) && e.service == service
  }

  predicate EndedBefore(events: seq<Event>, k: nat, service: Service)
    requires k <= |events|
  {
    exists m :: 0 <= m < k && EndsChild(events[m], service)
  }

  /**
   The failure that event `i` brings: of startup, of the first terminal event of a child if that is an error, or
   of an exit before anything asked the stack to stop.
   */
  function Fails(events: seq<Event>, i: nat): Option<Failure>
    requires i < |events|
  {
    match events[i]
    case StartupFails(failure) => Some(failure)
    case Error(service, failure) => if EndedBefore(events, i, service) then None else Some(failure)
    case Exit(_, unexpected) => if OnlyStarts(events, i) then Some(unexpected) else None
    case _ => None
  }

  function FirstFailure(events: seq<Event>, k: nat): Option<Failure>
    requires k <= |events|
  {
    if k == 0 then None
    else if FirstFailure(events, k - 1).Some? then FirstFailure(events, k - 1)
    else Fails(events, k - 1)
  }

  lemma {:induction false} FirstFailureIs(events: seq<Event>, k: nat)
    requires k <= |events|
    ensures FirstFailure(events, k).None? <==> forall i :: 0 <= i < k ==> Fails(events, i).None?
    ensures FirstFailure(events, k).Some? ==>
              exists i :: 0 <= i < k && Fails(events, i) == FirstFailure(events, k)
                          && forall j :: 0 <= j < i ==> Fails(events, j).None?
  {
    if k > 0 {
      FirstFailureIs(events, k - 1);
    }
  }

  /** The stack's own fields say what the events did. */
  ghost predicate Tells(s: Stack, events: seq<Event>, k: nat)
    requires k <= |events|
  {
    && (s.stopping <==> !OnlyStarts(events, k))
    && (forall x :: x in s.ended <==> EndedBefore(events, k, x))
    && s.terminalFailure == FirstFailure(events, k)
  }

  lemma StepTells(s: Stack, events: seq<Event>, k: nat, t: Stack)
    requires k < |events| && Inv(s) && Tells(s, events, k) && Moves(s, events[k], t)
    ensures Tells(t, events, k + 1)
  {
    if events[k].Exit? || events[k].Error? {
      ChildSettlesByEnding(s, events[k].service);
    }
    StepRecords(s, events[k], t);
    assert OnlyStarts(events, k + 1) <==> OnlyStarts(events, k) && events[k].Start?;
    forall x
      ensures x in t.ended <==> EndedBefore(events, k + 1, x)
    {
      assert EndsChild(events[k], x) ==> EndedBefore(events, k + 1, x);
    }
  }

  /** What one event does to the flag, to the ended children and to the recorded failure. */
  lemma StepRecords(s: Stack, e: Event, t: Stack)
    requires Moves(s, e, t)
    requires e.Exit? || e.Error? ==> (e.service in s.settled <==> e.service in s.ended)
    requires e.Exit? || e.Error? ==> (e.service in s.settled ==> s.stopping)
    ensures t.stopping <==> s.stopping || !e.Start?
    ensures forall x :: x in t.ended <==> x in s.ended || EndsChild(e, x)
    ensures t.terminalFailure == if s.terminalFailure.Some? then s.terminalFailure else Brings(s, e)
  {
  }

  function Brings(s: Stack, e: Event): Option<Failure> {
    match e
    case StartupFails(failure) => Some(failure)
    case Error(service, failure) => if service in s.ended then None else Some(failure)
    case Exit(_, unexpected) => if s.stopping then None else Some(unexpected)
    case _ => None
  }

  lemma ChildSettlesByEnding(s: Stack, service: Service)
    requires Inv(s) && service in s.children
    ensures service in s.settled <==> service in s.ended
    ensures service in s.settled ==> s.stopping
  {
  }

  lemma {:induction false} RunTells(services: set<Service>, trace: seq<Stack>, events: seq<Event>, k: nat)
    requires Run(services, trace, events) && k < |trace|
    ensures Tells(trace[k], events, k)
  {
    if k > 0 {
      RunTells(services, trace, events, k - 1);
      RunKeepsInv(services, trace, events, k - 1);
      assert MovesAt(trace, events, k - 1);
      StepTells(trace[k - 1], events, k - 1, trace[k]);
    }
  }

  /** The step `m` in which a settled promise settled. */
  lemma {:induction false} SettledAt(services: set<Service>, trace: seq<Stack>, events: seq<Event>, k: nat)
    returns (m: nat)
    requires Run(services, trace, events) && k < |trace| && !trace[k].promise.Pending?
    ensures m < k && trace[m].promise.Pending? && trace[m + 1].promise == trace[k].promise
    ensures trace[k].promise == Settle(Pending, trace[m + 1].terminalFailure)
  {
    assert MovesAt(trace, events, k - 1);
    StepFrame(trace[k - 1], events[k - 1], trace[k]);
    if trace[k - 1].promise.Pending? {
      m := k - 1;
    } else {
      m := SettledAt(services, trace, events, k - 1);
    }
  }

  /**
   The first failure is the one reported: a stack that settled in step `m` rejects with the first failure that
   the events up to `m` brought.
   */
  lemma FirstFailureReported(services: set<Service>, trace: seq<Stack>, events: seq<Event>, k: nat, i: nat)
    returns (m: nat)
    requires Run(services, trace, events) && k < |trace| && !trace[k].promise.Pending?
    ensures m < k && trace[m].promise.Pending? && trace[m + 1].promise == trace[k].promise
    ensures i <= m && Fails(events, i).Some? && (forall j :: 0 <= j < i ==> Fails(events, j).None?) ==>
              trace[k].promise == Rejected(Fails(events, i).value)
  {
    m := SettledAt(services, trace, events, k);
    RunTells(services, trace, events, m + 1);
    FirstFailureIs(events, m + 1);
  }

  /** A settled stack resolved exactly when no event up to the step that settled it brought a failure. */
  lemma ResolvedMeansNoFailure(services: set<Service>, trace: seq<Stack>, events: seq<Event>, k: nat)
    returns (m: nat)
    requires Run(services, trace, events) && k < |trace| && !trace[k].promise.Pending?
    ensures m < k && trace[m].promise.Pending? && trace[m + 1].promise == trace[k].promise
    ensures trace[k].promise.Resolved? <==> forall i :: 0 <= i <= m ==> Fails(events, i).None?
  {
    m := SettledAt(services, trace, events, k);
    RunTells(services, trace, events, m + 1);
    FirstFailureIs(events, m + 1);
  }

  /** Event `i` starts the service: for the first time, and before anything asked the stack to stop. */
  predicate StartsAt(services: set<Service>, events: seq<Event>, i: nat, service: Service, throws: bool)
    requires i < |events|
  {
    && events[i] == Start(service, throws) && service in services && OnlyStarts(events, i)
    && forall j :: 0 <= j < i ==> !Starts(events[j], service)
  }

  predicate Starts(e: Event, service: Service) {
    e.Start? && e.service == service
  }

  predicate StartedBy(services: set<Service>, events: seq<Event>, k: nat, service: Service, throws: bool)
    requires k <= |events|
  {
    exists i :: 0 <= i < k && StartsAt(services, events, i, service, throws)
  }

  /** What the stack's sets say of one service. */
  predicate Spawns(services: set<Service>, s: Stack, events: seq<Event>, k: nat, service: Service)
    requires k <= |events|
  {
    && (service in s.children <==> StartedBy(services, events, k, service, false))
    && (service in s.lost <==> StartedBy(services, events, k, service, true))
    && (OnlyStarts(events, k) ==>
          (service in s.unspawned <==> service in services && forall i :: 0 <= i < k ==> !Starts(events[i], service)))
  }

  lemma StepSpawnsOne(services: set<Service>, s: Stack, events: seq<Event>, k: nat, t: Stack, service: Service)
    requires k < |events| && Spawns(services, s, events, k, service) && Moves(s, events[k], t)
    requires s.stopping <==> !OnlyStarts(events, k)
    ensures Spawns(services, t, events, k + 1, service)
  {
    StepSpawns(s, events[k], t, service);
    assert OnlyStarts(events, k + 1) <==> OnlyStarts(events, k) && events[k].Start?;
    forall throws
      ensures StartedBy(services, events, k + 1, service, throws)
              <==> StartedBy(services, events, k, service, throws) || StartsAt(services, events, k, service, throws)
    {
    }
    StartsNow(services, s, events, k, service, false);
    StartsNow(services, s, events, k, service, true);
  }

  lemma StartsNow(services: set<Service>, s: Stack, events: seq<Event>, k: nat, service: Service, throws: bool)
    requires k < |events| && (s.stopping <==> !OnlyStarts(events, k))
    requires Spawns(services, s, events, k, service)
    ensures StartsAt(services, events, k, service, throws)
            <==> events[k] == Start(service, throws) && !s.stopping && service in s.unspawned
  {
  }

  /** Exactly the services started in time were spawned, or lost when their spawn threw. */
  lemma {:induction false} SpawnedExactly(
    services: set<Service>, trace: seq<Stack>, events: seq<Event>, k: nat, service: Service)
    requires Run(services, trace, events) && k < |trace|
    ensures Spawns(services, trace[k], events, k, service)
  {
    if k > 0 {
      SpawnedExactly(services, trace, events, k - 1, service);
      RunTells(services, trace, events, k - 1);
      assert MovesAt(trace, events, k - 1);
      StepSpawnsOne(services, trace[k - 1], events, k - 1, trace[k], service);
    }
  }

  lemma StepSpawns(s: Stack, e: Event, t: Stack, service: Service)
    requires Moves(s, e, t)
    ensures service in t.children
            <==> service in s.children || (e == Start(service, false) && !s.stopping && service in s.unspawned)
    ensures service in t.lost
            <==> service in s.lost || (e == Start(service, true) && !s.stopping && service in s.unspawned)
    ensures !s.stopping && e.Start? ==>
              (service in t.unspawned <==> service in s.unspawned && e.service != service)
  {
  }

  /**
   Once stopping, with every spawned child ended, the stack has settled and its force timer is cleared if
   and only if no start threw: a service whose spawn threw is neither unspawned nor a child, so nothing
   settles it.
   */
  lemma SettlesIffNoneLost(services: set<Service>, trace: seq<Stack>, events: seq<Event>, k: nat)
    requires Run(services, trace, events) && k < |trace|
    requires trace[k].stopping && trace[k].children <= trace[k].ended
    ensures !trace[k].promise.Pending? && trace[k].timer == Cleared <==> trace[k].lost == {}
  {
    RemainingIsUnsettled(services, trace, events, k);
    var s := trace[k];
    if s.lost == {} {
      assert s.services - s.settled == {};
    } else {
      var service :| service in s.lost;
      assert service in s.services - s.settled;
    }
  }

  /** From a start that threw on, no event ever settles the stack. */
  lemma {:induction false} LostNeverSettles(
    services: set<Service>, trace: seq<Stack>, events: seq<Event>, j: nat, k: nat)
    requires Run(services, trace, events) && j <= k < |trace| && trace[j].lost != {}
    ensures trace[j].lost <= trace[k].lost && trace[k].promise.Pending?
  {
    if j < k {
      LostNeverSettles(services, trace, events, j, k - 1);
      assert MovesAt(trace, events, k - 1);
      StepFrame(trace[k - 1], events[k - 1], trace[k]);
    }
    RemainingIsUnsettled(services, trace, events, k);
    LostKeepsPending(trace[k]);
  }

  lemma LostKeepsPending(s: Stack)
    requires Inv(s) && s.lost != {}
    ensures s.promise.Pending?
  {
    var service :| service in s.lost;
    assert service in s.services - s.settled;
  }

  /** The concrete case: the only service's spawn throws, and startup reports it. */
  lemma ThrowingSpawnHangs(service: Service, failure: Failure)
    ensures var s := Apply(Apply(Fresh({service}), Start(service, true)), StartupFails(failure));
            s.stopping && s.children == {} && s.promise == Pending && s.timer == Armed && s.remaining == 1
  {
    assert {service} - {service} == {};
  }
}
