/**
 The turn clock of evals/agent-tools/timing.ts: rounds of waiting and tool time, per event. Times are real
 numbers of milliseconds; every event carries the time it was noted at.
 */
module TurnClock {
  import opened Options

  type CallId = string

  datatype Round = Round(waitMs: real, toolMs: real, tools: nat)

  datatype Event = Started(callId: CallId) | Completed(callId: CallId) | Other

  datatype Timing = Timing(rounds: seq<Round>, finalWaitMs: real, totalMs: real)

  datatype Noted = Noted(event: Event, now: real)

  function Sum(rounds: seq<Round>): real {
    if rounds == [] then 0.0 else rounds[0].waitMs + rounds[0].toolMs + Sum(rounds[1..])
  }

  function Tools(rounds: seq<Round>): nat {
    if rounds == [] then 0 else rounds[0].tools + Tools(rounds[1..])
  }

  predicate NonNegative(rounds: seq<Round>) {
    forall i :: 0 <= i < |rounds| ==> rounds[i].waitMs >= 0.0 && rounds[i].toolMs >= 0.0
  }

  lemma {:induction false} LastRound(rounds: seq<Round>, last: Round)
    ensures Sum(rounds + [last]) == Sum(rounds) + last.waitMs + last.toolMs
    ensures Tools(rounds + [last]) == Tools(rounds) + last.tools
  {
    if rounds == [] {
      assert rounds + [last] == [last];
    } else {
      LastRound(rounds[1..], last);
      assert (rounds + [last])[1..] == rounds[1..] + [last];
    }
  }

  /** The rounds with the last one replaced. */
  function WithLast(rounds: seq<Round>, last: Round): seq<Round>
    requires rounds != []
  {
    rounds[..|rounds| - 1] + [last]
  }

  lemma Replaced(rounds: seq<Round>, last: Round)
    requires rounds != []
    ensures var was := rounds[|rounds| - 1];
            && Sum(WithLast(rounds, last)) == Sum(rounds) - was.waitMs - was.toolMs + last.waitMs + last.toolMs
            && Tools(WithLast(rounds, last)) + was.tools == Tools(rounds) + last.tools
  {
    var front, was := rounds[..|rounds| - 1], rounds[|rounds| - 1];
    assert rounds == front + [was];
    LastRound(front, was);
    LastRound(front, last);
  }

  /** The calls that were started, however often. */
  function StartedIds(events: seq<Noted>): set<CallId> {
    if events == [] then {}
    else StartedIds(events[..|events| - 1])
         + (var last := events[|events| - 1].event; if last.Started? then {last.callId} else {})
  }

  /** The clock's fields. */
  datatype Snapshot = Snapshot(
    rounds: seq<Round>, seen: set<CallId>, running: set<CallId>, idleSince: real, toolsSince: Option<real>)

  /** The completion of the last running call ends the round; any other completion is ignored. */
  function AfterCompleted(s: Snapshot, callId: CallId, now: real): Snapshot {
    var t := s.(running := s.running - {callId});
    if callId !in s.running || t.running != {} || s.toolsSince.None? || s.rounds == [] then t
    else t.(rounds := WithLast(s.rounds, s.rounds[|s.rounds| - 1].(toolMs := now - s.toolsSince.value)),
            toolsSince := None, idleSince := now)
  }

  /** A repeated start of a running call turns the time since the tools began into waiting. */
  function AfterRestated(s: Snapshot, callId: CallId, now: real): Snapshot {
    if callId !in s.running || s.toolsSince.None? || s.rounds == [] then s
    else
      var last := s.rounds[|s.rounds| - 1];
      s.(rounds := WithLast(s.rounds, last.(waitMs := last.waitMs + (now - s.toolsSince.value))),
         toolsSince := Some(now))
  }

  /** A first start joins the round that is running tools, or opens the next one. */
  function AfterStart(s: Snapshot, callId: CallId, now: real): Snapshot {
    var joined := s.(seen := s.seen + {callId}, running := s.running + {callId});
    if s.toolsSince.None? then
      joined.(rounds := s.rounds + [Round(now - s.idleSince, 0.0, 1)], toolsSince := Some(now))
    else if s.rounds == [] then joined
    else
      var last := s.rounds[|s.rounds| - 1];
      joined.(rounds := WithLast(s.rounds, last.(tools := last.tools + 1)))
  }

  function After(s: Snapshot, event: Event, now: real): Snapshot {
    match event
    case Other => s
    case Completed(callId) => AfterCompleted(s, callId, now)
    case Started(callId) => if callId in s.seen then AfterRestated(s, callId, now) else AfterStart(s, callId, now)
  }

  lemma SeenAfter(s: Snapshot, event: Event, now: real)
    ensures After(s, event, now).seen == s.seen + (if event.Started? then {event.callId} else {})
  {
    if event.Started? && event.callId in s.seen {
      assert s.seen + {event.callId} == s.seen;
    }
  }

  function Played(start: real, events: seq<Noted>): Snapshot {
    if events == [] then Snapshot([], {}, {}, start, None)
    else var last := events[|events| - 1]; After(Played(start, events[..|events| - 1]), last.event, last.now)
  }

  class Clock {
    const startedAt: real
    var rounds: seq<Round>
    var seen: set<CallId>
    var running: set<CallId>
    var idleSince: real
    var toolsSince: Option<real>

    /**
     What was measured so far covers the time up to the last change between waiting and tools, and every
     call seen is counted in one round.
     */
    ghost predicate Valid(now: real)
      reads this
    {
      && running <= seen && |seen| == Tools(rounds) && NonNegative(rounds)
      && (toolsSince.Some? <==> running != {})
      && startedAt + Sum(rounds) == (if toolsSince.Some? then toolsSince.value else idleSince)
      && (toolsSince.Some? ==> rounds != [] && rounds[|rounds| - 1].toolMs == 0.0 && toolsSince.value <= now)
      && startedAt <= idleSince <= now
    }

    ghost function State(): Snapshot
      reads this
    {
      Snapshot(rounds, seen, running, idleSince, toolsSince)
    }

    constructor (now: real)
      ensures State() == Snapshot([], {}, {}, now, None)
      ensures Valid(now) && startedAt == now && seen == {}
    {
      startedAt := now;
      idleSince := now;
      rounds, seen, running, toolsSince := [], {}, {}, None;
    }

    method Note(event: Event, before: real, now: real)
      requires Valid(before) && before <= now
      modifies this
      ensures Valid(now) && State() == After(old(State()), event, now)
    {
      match event {
        case Other =>
        case Completed(callId) => NoteCompleted(callId, before, now);
        case Started(callId) =>
          if callId in seen {
            NoteRestated(callId, before, now);
          } else {
            NoteFirstStart(callId, before, now);
          }
      }
    }

    method NoteCompleted(callId: CallId, before: real, now: real)
      requires Valid(before) && before <= now
      modifies this
      ensures Valid(now) && State() == AfterCompleted(old(State()), callId, now)
    {
      var was := callId in running;
      running := running - {callId};
      if !was || running != {} {
        return;
      }
      SetLast(rounds[|rounds| - 1].(toolMs := now - toolsSince.value));
      toolsSince := None;
      idleSince := now;
    }

    /** A start repeated while the call runs: until then the model was still working, so that time was a wait. */
    method NoteRestated(callId: CallId, before: real, now: real)
      requires Valid(before) && before <= now && callId in seen
      modifies this
      ensures Valid(now) && State() == AfterRestated(old(State()), callId, now)
    {
      if callId in running && toolsSince.Some? {
        SetLast(rounds[|rounds| - 1].(waitMs := rounds[|rounds| - 1].waitMs + (now - toolsSince.value)));
        toolsSince := Some(now);
      }
    }

    method NoteFirstStart(callId: CallId, before: real, now: real)
      requires Valid(before) && before <= now && callId !in seen
      modifies this
      ensures Valid(now) && State() == AfterStart(old(State()), callId, now)
    {
      seen := seen + {callId};
      running := running + {callId};
      if toolsSince.None? {
        toolsSince := Some(now);
        OpenRound(Round(now - idleSince, 0.0, 0));
      }
      CountTool();
      assert |seen| == |old(seen)| + 1 && callId in running;
    }

    method CountTool()
      requires rounds != [] && NonNegative(rounds)
      modifies `rounds
      ensures rounds != [] && NonNegative(rounds) && rounds[|rounds| - 1].toolMs == old(rounds[|rounds| - 1].toolMs)
      ensures Sum(rounds) == old(Sum(rounds)) && Tools(rounds) == old(Tools(rounds)) + 1
      ensures rounds == WithLast(old(rounds), old(rounds[|rounds| - 1]).(tools := old(rounds[|rounds| - 1]).tools + 1))
    {
      SetLast(rounds[|rounds| - 1].(tools := rounds[|rounds| - 1].tools + 1));
    }

    method OpenRound(round: Round)
      modifies `rounds
      ensures rounds == old(rounds) + [round]
      ensures Sum(rounds) == Sum(old(rounds)) + round.waitMs + round.toolMs
      ensures Tools(rounds) == Tools(old(rounds)) + round.tools
      ensures NonNegative(old(rounds)) && round.waitMs >= 0.0 && round.toolMs >= 0.0 ==> NonNegative(rounds)
    {
      LastRound(rounds, round);
      rounds := rounds + [round];
    }

    /** rounds.at(-1) is updated in place. */
    method SetLast(last: Round)
      requires rounds != []
      modifies `rounds
      ensures rounds == WithLast(old(rounds), last)
      ensures var was := old(rounds)[|old(rounds)| - 1];
              && Sum(rounds) == Sum(old(rounds)) - was.waitMs - was.toolMs + last.waitMs + last.toolMs
              && Tools(rounds) + was.tools == Tools(old(rounds)) + last.tools
      ensures rounds[|rounds| - 1] == last && |rounds| == |old(rounds)|
      ensures NonNegative(old(rounds)) && last.waitMs >= 0.0 && last.toolMs >= 0.0 ==> NonNegative(rounds)
    {
      Replaced(rounds, last);
      rounds := WithLast(rounds, last);
    }

    method Finish(before: real, now: real) returns (timing: Timing)
      requires Valid(before) && before <= now
      modifies this
      ensures timing.totalMs == now - startedAt
      ensures timing.totalMs == Sum(timing.rounds) + timing.finalWaitMs
      ensures NonNegative(timing.rounds) && timing.finalWaitMs >= 0.0
      ensures Tools(timing.rounds) == |old(seen)|
      ensures timing.rounds == (if old(toolsSince).None? then old(rounds)
                                else WithLast(old(rounds),
                                          old(rounds)[|old(rounds)| - 1].(toolMs := now - old(toolsSince).value)))
    {
      if toolsSince.Some? {
        SetLast(rounds[|rounds| - 1].(toolMs := now - toolsSince.value));
      }
      timing := Timing(rounds, if toolsSince.None? then now - idleSince else 0.0, now - startedAt);
    }
  }

  // ---------------------------------------------------------------------------
  // Which time is tool time, from the events alone

  /** The calls started by the first `n` events. */
  function Begun(events: seq<Noted>, n: nat): set<CallId>
    requires n <= |events|
  {
    if n == 0 then {}
    else Begun(events, n - 1) + (if events[n - 1].event.Started? then {events[n - 1].event.callId} else {})
  }

  /** The calls running after the first `n` events: a call runs from its first start to its completion. */
  function Active(events: seq<Noted>, n: nat): set<CallId>
    requires n <= |events|
  {
    if n == 0 then {}
    else
      var before := Active(events, n - 1);
      match events[n - 1].event
      case Started(c) => if c in Begun(events, n - 1) then before else before + {c}
      case Completed(c) => before - {c}
      case Other => before
  }

  /** Event `n` starts a running call once more. */
  predicate Restates(events: seq<Noted>, n: nat)
    requires n < |events|
  {
    events[n].event.Started? && events[n].event.callId in Active(events, n)
  }

  /** Some call runs all the way from event `i` past event `n`. */
  predicate Unbroken(events: seq<Noted>, i: nat, n: nat)
    requires n <= |events|
  {
    forall m :: i < m <= n ==> Active(events, m) != {}
  }

  /**
   The time after event `i`, of `n`, is tool time if some call runs then, and none is restated before the tools
   next end: until a call is complete the model is still working.
   */
  predicate IsToolTime(events: seq<Noted>, n: nat, i: nat)
    requires i < n <= |events|
  {
    Active(events, i + 1) != {} && forall j :: i < j < n && Unbroken(events, i, j) ==> !Restates(events, j)
  }

  function Lasts(events: seq<Noted>, n: nat, end: real, i: nat): real
    requires i < n <= |events|
  {
    (if i + 1 < n then events[i + 1].now else end) - events[i].now
  }

  /** The tool time after each of the first `k` of `n` events. */
  function ToolTime(events: seq<Noted>, n: nat, end: real, k: nat): real
    requires k <= n <= |events|
  {
    if k == 0 then 0.0
    else ToolTime(events, n, end, k - 1)
         + (if IsToolTime(events, n, k - 1) then Lasts(events, n, end, k - 1) else 0.0)
  }

  /** That part of it that a restatement now would still turn into waiting. */
  function OpenTime(events: seq<Noted>, n: nat, end: real, k: nat): real
    requires k <= n <= |events|
  {
    if k == 0 then 0.0
    else OpenTime(events, n, end, k - 1)
         + (if IsToolTime(events, n, k - 1) && Unbroken(events, k - 1, n) then Lasts(events, n, end, k - 1) else 0.0)
  }

  lemma IntervalAfter(events: seq<Noted>, n: nat, i: nat)
    requires i < n < |events|
    ensures Unbroken(events, i, n + 1) <==> Unbroken(events, i, n) && Active(events, n + 1) != {}
    ensures IsToolTime(events, n + 1, i)
            <==> IsToolTime(events, n, i) && !(Unbroken(events, i, n) && Restates(events, n))
  {
  }

  /** What one more event does to the time before it. */
  lemma {:induction false} TimeAfter(events: seq<Noted>, n: nat, end: real, k: nat)
    requires k <= n < |events|
    ensures ToolTime(events, n + 1, end, k)
         == ToolTime(events, n, events[n].now, k)
            - (if Restates(events, n) then OpenTime(events, n, events[n].now, k) else 0.0)
    ensures OpenTime(events, n + 1, end, k)
         == if Restates(events, n) || Active(events, n + 1) == {} then 0.0 else OpenTime(events, n, events[n].now, k)
  {
    if k > 0 {
      TimeAfter(events, n, end, k - 1);
      IntervalAfter(events, n, k - 1);
    }
  }

  /** The sum of all rounds' tool time. */
  function ToolMs(rounds: seq<Round>): real {
    if rounds == [] then 0.0 else ToolMs(rounds[..|rounds| - 1]) + rounds[|rounds| - 1].toolMs
  }

  lemma LastToolMs(rounds: seq<Round>, last: Round)
    ensures ToolMs(rounds + [last]) == ToolMs(rounds) + last.toolMs
    ensures rounds != [] ==>
              ToolMs(WithLast(rounds, last)) == ToolMs(rounds) - rounds[|rounds| - 1].toolMs + last.toolMs
  {
    assert (rounds + [last])[..|rounds|] == rounds;
    if rounds != [] {
      assert WithLast(rounds, last)[..|rounds| - 1] == rounds[..|rounds| - 1];
    }
  }

  /** The clock after `n` events: who runs, and how much tool time is in its rounds and how much is still open. */
  ghost predicate Measures(s: Snapshot, events: seq<Noted>, n: nat)
    requires n <= |events|
  {
    && s.seen == Begun(events, n) && s.running == Active(events, n) && s.running <= s.seen
    && (s.toolsSince.Some? <==> s.running != {})
    && (s.toolsSince.Some? ==> s.rounds != [] && s.rounds[|s.rounds| - 1].toolMs == 0.0)
    && forall end :: TimeSplits(s, events, n, end)
  }

  ghost predicate TimeSplits(s: Snapshot, events: seq<Noted>, n: nat, end: real)
    requires n <= |events|
  {
    && OpenTime(events, n, end, n) == (if s.toolsSince.Some? then end - s.toolsSince.value else 0.0)
    && ToolTime(events, n, end, n) == ToolMs(s.rounds) + OpenTime(events, n, end, n)
  }

  lemma StepRuns(s: Snapshot, events: seq<Noted>, n: nat)
    requires n < |events| && Measures(s, events, n)
    ensures var t := After(s, events[n].event, events[n].now);
            && t.seen == Begun(events, n + 1) && t.running == Active(events, n + 1) && t.running <= t.seen
            && (t.toolsSince.Some? <==> t.running != {})
            && (t.toolsSince.Some? ==> t.rounds != [] && t.rounds[|t.rounds| - 1].toolMs == 0.0)
  {
    SeenAfter(s, events[n].event, events[n].now);
    if events[n].event.Started? && events[n].event.callId in s.seen {
      assert s.seen == s.seen + {events[n].event.callId};
    }
  }

  /** The rounds grow by the open time when the last call completes, and by nothing else. */
  lemma StepMeasures(s: Snapshot, event: Event, now: real)
    requires s.toolsSince.Some? ==> s.rounds != [] && s.rounds[|s.rounds| - 1].toolMs == 0.0
    ensures var t := After(s, event, now);
            ToolMs(t.rounds) == ToolMs(s.rounds)
              + (if s.toolsSince.Some? && t.toolsSince.None? then now - s.toolsSince.value else 0.0)
  {
    if s.rounds != [] {
      var last := s.rounds[|s.rounds| - 1];
      if s.toolsSince.Some? {
        LastToolMs(s.rounds, last.(toolMs := now - s.toolsSince.value));
        LastToolMs(s.rounds, last.(waitMs := last.waitMs + (now - s.toolsSince.value)));
      }
      LastToolMs(s.rounds, last.(tools := last.tools + 1));
    }
    LastToolMs(s.rounds, Round(now - s.idleSince, 0.0, 1));
  }

  lemma StepSplits(s: Snapshot, events: seq<Noted>, n: nat, end: real)
    requires n < |events| && Measures(s, events, n)
    ensures TimeSplits(After(s, events[n].event, events[n].now), events, n + 1, end)
  {
    var now := events[n].now;
    StepRuns(s, events, n);
    StepMeasures(s, events[n].event, now);
    TimeAfter(events, n, end, n);
    assert TimeSplits(s, events, n, now);
    assert Unbroken(events, n, n + 1) <==> Active(events, n + 1) != {};
    assert IsToolTime(events, n + 1, n) <==> Active(events, n + 1) != {};
  }

  lemma {:induction false} PlayedMeasures(start: real, events: seq<Noted>, n: nat)
    requires n <= |events|
    ensures Measures(Played(start, events[..n]), events, n)
  {
    if n > 0 {
      PlayedMeasures(start, events, n - 1);
      assert events[..n][..n - 1] == events[..n - 1];
      var s := Played(start, events[..n - 1]);
      StepRuns(s, events, n - 1);
      forall end
        ensures TimeSplits(Played(start, events[..n]), events, n, end)
      {
        StepSplits(s, events, n - 1, end);
      }
    }
  }

  /** Each event is noted no earlier than the one before it. */
  predicate InOrder(start: real, events: seq<Noted>, end: real) {
    && (forall i :: 0 <= i < |events| ==> start <= events[i].now <= end)
    && (forall i, j :: 0 <= i < j < |events| ==> events[i].now <= events[j].now)
  }

  /**
   Time is conserved over every turn: waits, tool time and the final wait add up to the whole, none is
   negative, and each started call is counted once, whatever is repeated, unknown or left unfinished. Of the whole,
   exactly the tool time is counted as such.
   */
  method MeasureTurn(start: real, events: seq<Noted>, end: real) returns (timing: Timing)
    requires InOrder(start, events, end) && start <= end
    ensures timing.totalMs == end - start == Sum(timing.rounds) + timing.finalWaitMs
    ensures NonNegative(timing.rounds) && timing.finalWaitMs >= 0.0
    ensures Tools(timing.rounds) == |StartedIds(events)|
    ensures ToolMs(timing.rounds) == ToolTime(events, |events|, end, |events|)
    ensures var s := Played(start, events);
            s.toolsSince.None? ==> timing.rounds == s.rounds && timing.finalWaitMs == end - s.idleSince
  {
    var clock := new Clock(start);
    var last := start;
    for i := 0 to |events|
      invariant fresh(clock) && clock.startedAt == start
      invariant start <= last <= end && clock.Valid(last)
      invariant i > 0 ==> last == events[i - 1].now
      invariant i == 0 ==> last == start
      invariant clock.seen == StartedIds(events[..i]) && clock.State() == Played(start, events[..i])
    {
      assert events[..i + 1][..i] == events[..i];
      SeenAfter(clock.State(), events[i].event, events[i].now);
      clock.Note(events[i].event, last, events[i].now);
      last := events[i].now;
    }
    assert events[..|events|] == events;
    PlayedMeasures(start, events, |events|);
    ghost var s := clock.State();
    assert TimeSplits(s, events, |events|, end);
    if s.toolsSince.Some? {
      LastToolMs(s.rounds, s.rounds[|s.rounds| - 1].(toolMs := end - s.toolsSince.value));
    }
    timing := clock.Finish(last, end);
  }
}
