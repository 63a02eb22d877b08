/**
 The Agent Phone artifact cache of scripts/release-phone-cache.ts (prepareCachedPhone), for one cache key.

 Sessions hold the revision's lock one at a time and may crash between any two effects. Between sessions
 retention may evict the entry, and anyone may damage it; the build inputs may change at any moment.
 `verify` is an arbitrary fixed relation between artifact bytes and a receipt, and digests are injective:
 the ledger's manifestSha256 is represented by the manifest it was computed from.
 */
module PhoneCache {
  import opened Options

  type Inputs = nat
  type Receipt = nat
  type Artifact = nat
  type Check = (Artifact, Receipt) -> bool

  datatype Manifest = Manifest(inputs: Inputs, receipt: Receipt)

  /** `trusted` stands for the owner, mode, link and file-set checks. */
  datatype Entry = Entry(trusted: bool, manifest: Option<Manifest>, artifact: Artifact)

  /** One returned receipt: the artifact directory, the inputs as they were last checked, and whether it was a hit. */
  datatype Outcome = Outcome(receipt: Receipt, artifact: Artifact, inputs: Inputs, hit: bool)

  datatype Pc =
    | Idle
    | Look
    | Copy(r: Receipt) | CheckCopy(r: Receipt) | RecheckHit(r: Receipt)
    | Miss(poisoned: bool)
    | Built(r: Receipt, poisoned: bool) | RecheckBuild(r: Receipt, poisoned: bool)
    // `seen` is what the recheck after the build read.
    | Publishing(r: Receipt, seen: Inputs) | Partial(r: Receipt, seen: Inputs)
    | Filled(r: Receipt, seen: Inputs, copy: Artifact)
    | Renamed(r: Receipt, seen: Inputs) | Finish(r: Receipt, seen: Inputs)

  /**
   `partials` counts leftover publication directories of the key, `out` is the artifact directory. History:
   `incomplete` says the entry's ledger write has not happened, `damaged` that someone else changed the entry
   since it was published, `completed` the manifests whose ledger write did happen, in order, and `evicted`
   whether retention ever removed the entry.
   */
  datatype State = State(
    entry: Option<Entry>, ledger: Option<Manifest>, partials: nat, current: Inputs, out: Artifact, pc: Pc,
    outcomes: seq<Outcome>, incomplete: bool, damaged: bool, completed: seq<Manifest>, evicted: bool)

  const FRESH := State(None, None, 0, 0, 0, Idle, [], false, false, [], false)

  datatype Step =
    | Crash
    | InputsChange(inputs: Inputs)
    | Evict
    | Damage(entry: Entry)
    | Begin | LookUp | CopyOut(torn: Option<Artifact>) | CopyChecked | HitRechecked
    | Build(artifact: Artifact, r: Receipt) | BuildChecked | BuildRechecked
    | MakePartial | FillPartial(copy: Artifact) | Rename | WriteLedger | PublicationFails | Return

  /** The lookup accepts the entry as it stands on disk. */
  predicate Acceptable(verify: Check, key: Inputs, s: State) {
    && s.partials == 0 && s.entry.Some? && s.entry.value.trusted
    && s.entry.value.manifest.Some? && s.ledger == s.entry.value.manifest
    && s.ledger.value.inputs == key
    && verify(s.entry.value.artifact, s.ledger.value.receipt)
  }

  ghost predicate NextStep(verify: Check, key: Inputs, s: State, t: State, step: Step) {
    match step
    // Every thrown error ends the session, like a crash.
    case Crash => t == s.(pc := Idle)
    case InputsChange(inputs) => t == s.(current := inputs)
    case Evict =>
      && s.pc.Idle?
      && t == s.(entry := None, partials := 0, incomplete := false, damaged := false, evicted := true)
    case Damage(e) => s.pc.Idle? && s.entry.Some? && t == s.(entry := Some(e), damaged := true)
    case Begin => s.pc.Idle? && s.current == key && t == s.(pc := Look)
    // A missing entry without leftovers is a plain miss; anything else that fails poisons the key.
    case LookUp =>
      && s.pc.Look?
      && t == s.(pc := if Acceptable(verify, key, s) then Copy(s.ledger.value.receipt)
                       else Miss(s.partials > 0 || s.entry.Some?))
    // Files are copied one by one, so a failure leaves any mixture behind.
    case CopyOut(torn) =>
      && s.pc.Copy? && s.entry.Some?
      && t == (if torn.None? then s.(out := s.entry.value.artifact, pc := CheckCopy(s.pc.r))
               else s.(out := torn.value, pc := Miss(true)))
    case CopyChecked =>
      s.pc.CheckCopy? && t == s.(pc := if verify(s.out, s.pc.r) then RecheckHit(s.pc.r) else Miss(true))
    case HitRechecked =>
      && s.pc.RecheckHit?
      && t == (if s.current == key then
                 s.(pc := Idle, outcomes := s.outcomes + [Outcome(s.pc.r, s.out, s.current, true)])
               else s.(pc := Miss(true)))
    case Build(artifact, r) => s.pc.Miss? && t == s.(out := artifact, pc := Built(r, s.pc.poisoned))
    case BuildChecked => s.pc.Built? && verify(s.out, s.pc.r) && t == s.(pc := RecheckBuild(s.pc.r, s.pc.poisoned))
    case BuildRechecked =>
      && s.pc.RecheckBuild? && s.current == key
      && t == s.(pc := if s.pc.poisoned then Finish(s.pc.r, s.current) else Publishing(s.pc.r, s.current))
    case MakePartial => s.pc.Publishing? && t == s.(partials := s.partials + 1, pc := Partial(s.pc.r, s.pc.seen))
    // What was copied is verified once more: copying may have torn it.
    case FillPartial(copy) =>
      s.pc.Partial? && verify(copy, s.pc.r) && t == s.(pc := Filled(s.pc.r, s.pc.seen, copy))
    // rename(2) refuses to replace a directory that is there. The manifest has the inputs of the key.
    case Rename =>
      && s.pc.Filled? && s.entry.None? && s.partials > 0
      && t == s.(entry := Some(Entry(true, Some(Manifest(key, s.pc.r)), s.pc.copy)), partials := s.partials - 1,
                 incomplete := true, damaged := false, pc := Renamed(s.pc.r, s.pc.seen))
    case WriteLedger =>
      && s.pc.Renamed?
      && var m := Manifest(key, s.pc.r);
         t == s.(ledger := Some(m), completed := s.completed + [m], incomplete := false,
                 pc := Finish(s.pc.r, s.pc.seen))
    // The failure is logged, the leftover directory removed, and the private artifact still returned.
    case PublicationFails =>
      || ((s.pc.Partial? || s.pc.Filled?) && s.partials > 0
          && t == s.(partials := s.partials - 1, pc := Finish(s.pc.r, s.pc.seen)))
      || (s.pc.Renamed? && t == s.(pc := Finish(s.pc.r, s.pc.seen)))
    case Return =>
      s.pc.Finish? && t == s.(pc := Idle, outcomes := s.outcomes + [Outcome(s.pc.r, s.out, s.pc.seen, false)])
  }

  ghost predicate StepAt(verify: Check, key: Inputs, trace: seq<State>, steps: seq<Step>, i: nat)
    requires |trace| == |steps| + 1
  {
    i < |steps| && NextStep(verify, key, trace[i], trace[i + 1], steps[i])
  }

  ghost predicate Run(verify: Check, key: Inputs, trace: seq<State>, steps: seq<Step>) {
    && |trace| == |steps| + 1 && trace[0] == FRESH.(current := trace[0].current)
    && forall i :: 0 <= i < |steps| ==> StepAt(verify, key, trace, steps, i)
  }

  /** A returned receipt was verified against the artifact directory, with the inputs the key was computed from. */
  predicate Sound(verify: Check, key: Inputs, s: State, o: Outcome) {
    verify(o.artifact, o.receipt) && o.inputs == key && (o.hit ==> Manifest(key, o.receipt) in s.completed)
  }

  function LastOf(completed: seq<Manifest>): Option<Manifest> {
    if completed == [] then None else Some(completed[|completed| - 1])
  }

  /** The ledger is that of the last completed publication, and only eviction makes room for a second one. */
  ghost predicate HistoryInv(key: Inputs, s: State) {
    && s.ledger == LastOf(s.completed) && (s.ledger.Some? ==> s.ledger.value.inputs == key)
    && (!s.evicted && (s.entry.None? || s.incomplete) ==> s.ledger.None?)
    && (s.incomplete ==> s.entry.Some?)
    && (s.pc.Renamed? ==> s.incomplete && s.entry.value.manifest == Some(Manifest(key, s.pc.r)))
  }

  /** The entry is as it was renamed into place, until someone else damages it, and has no leftovers beside it. */
  ghost predicate EntryInv(verify: Check, key: Inputs, s: State) {
    && (s.entry.Some? ==> s.partials == 0 && (s.damaged || WellPublished(verify, key, s.entry.value)))
    && (s.entry.Some? && !s.damaged && !s.incomplete ==> s.ledger == s.entry.value.manifest)
  }

  predicate WellPublished(verify: Check, key: Inputs, e: Entry) {
    e.trusted && e.manifest.Some? && e.manifest.value.inputs == key && verify(e.artifact, e.manifest.value.receipt)
  }

  /** An unpoisoned session found neither entry nor leftovers, and they do not appear under its lock. */
  ghost predicate RoomInv(s: State) {
    && (Unpoisoned(s.pc) ==> s.entry.None? && s.partials == 0)
    && (s.pc.Partial? || s.pc.Filled? ==> s.entry.None? && s.partials == 1)
  }

  predicate Unpoisoned(pc: Pc) {
    pc == Miss(false) || (pc.Built? && !pc.poisoned) || (pc.RecheckBuild? && !pc.poisoned) || pc.Publishing?
  }

  /** A built artifact past the recheck of the inputs. */
  predicate Rechecked(pc: Pc) {
    pc.Publishing? || pc.Partial? || pc.Filled? || pc.Renamed? || pc.Finish?
  }

  /** What a session is about to return is verified, and the inputs it read after the build are the key's. */
  ghost predicate PcVerified(verify: Check, key: Inputs, s: State) {
    && (s.pc.Copy? || s.pc.CheckCopy? || s.pc.RecheckHit? ==> Manifest(key, s.pc.r) in s.completed)
    && (s.pc.RecheckHit? || s.pc.RecheckBuild? || Rechecked(s.pc) ==> verify(s.out, s.pc.r))
    && (s.pc.Filled? ==> verify(s.pc.copy, s.pc.r))
    && (Rechecked(s.pc) ==> s.pc.seen == key)
  }

  ghost predicate VerifiedInv(verify: Check, key: Inputs, s: State) {
    && PcVerified(verify, key, s)
    && (forall i :: 0 <= i < |s.outcomes| ==> Sound(verify, key, s, s.outcomes[i]))
  }

  ghost predicate Inv(verify: Check, key: Inputs, s: State) {
    HistoryInv(key, s) && EntryInv(verify, key, s) && RoomInv(s) && VerifiedInv(verify, key, s)
  }

  lemma HistoryKept(verify: Check, key: Inputs, s: State, t: State, step: Step)
    requires HistoryInv(key, s) && RoomInv(s) && NextStep(verify, key, s, t, step)
    ensures HistoryInv(key, t) && s.completed <= t.completed
  {
  }

  lemma EntryKept(verify: Check, key: Inputs, s: State, t: State, step: Step)
    requires HistoryInv(key, s) && EntryInv(verify, key, s) && RoomInv(s) && PcVerified(verify, key, s)
    requires NextStep(verify, key, s, t, step)
    ensures EntryInv(verify, key, t)
  {
  }

  lemma RoomKept(verify: Check, key: Inputs, s: State, t: State, step: Step)
    requires RoomInv(s) && NextStep(verify, key, s, t, step)
    ensures RoomInv(t)
  {
  }

  lemma StepVerifies(verify: Check, key: Inputs, s: State, t: State, step: Step)
    requires HistoryInv(key, s) && PcVerified(verify, key, s) && NextStep(verify, key, s, t, step)
    ensures PcVerified(verify, key, t)
  {
  }

  lemma StepReturns(verify: Check, key: Inputs, s: State, t: State, step: Step)
    requires PcVerified(verify, key, s) && NextStep(verify, key, s, t, step)
    ensures t.outcomes == s.outcomes
            || (|t.outcomes| == |s.outcomes| + 1 && t.outcomes[..|s.outcomes|] == s.outcomes
                && Sound(verify, key, t, t.outcomes[|s.outcomes|]))
  {
  }

  lemma StepKeepsInv(verify: Check, key: Inputs, s: State, t: State, step: Step)
    requires Inv(verify, key, s) && NextStep(verify, key, s, t, step)
    ensures Inv(verify, key, t)
  {
    HistoryKept(verify, key, s, t, step);
    EntryKept(verify, key, s, t, step);
    RoomKept(verify, key, s, t, step);
    StepVerifies(verify, key, s, t, step);
    StepReturns(verify, key, s, t, step);
    forall i | 0 <= i < |t.outcomes|
      ensures Sound(verify, key, t, t.outcomes[i])
    {
      if i < |s.outcomes| {
        assert t.outcomes[i] == t.outcomes[..|s.outcomes|][i] == s.outcomes[i];
      }
    }
  }

  lemma {:induction false} RunKeepsInv(verify: Check, key: Inputs, trace: seq<State>, steps: seq<Step>, k: nat)
    requires Run(verify, key, trace, steps) && k < |trace|
    ensures Inv(verify, key, trace[k])
  {
    if k > 0 {
      RunKeepsInv(verify, key, trace, steps, k - 1);
      assert StepAt(verify, key, trace, steps, k - 1);
      StepKeepsInv(verify, key, trace[k - 1], trace[k], steps[k - 1]);
    }
  }

  /**
   Every receipt returned under an admitted cache, hit or miss, was verified against the artifact directory
   under inputs equal to the key's; and a hit returns the receipt of a publication that once completed.
   */
  lemma ReturnedReceiptsAreSound(verify: Check, key: Inputs, trace: seq<State>, steps: seq<Step>, k: nat, i: nat)
    requires Run(verify, key, trace, steps) && k < |trace| && i < |trace[k].outcomes|
    ensures Sound(verify, key, trace[k], trace[k].outcomes[i])
  {
    RunKeepsInv(verify, key, trace, steps, k);
  }

  lemma StepKeepsEntry(verify: Check, key: Inputs, s: State, t: State, step: Step)
    requires Inv(verify, key, s) && NextStep(verify, key, s, t, step)
    requires s.entry.Some? && !step.Evict? && !step.Damage?
    ensures t.entry == s.entry
  {
  }

  /** No session ever replaces or removes an existing entry: until eviction or damage it is what it was. */
  lemma {:induction false} EntryIsNeverReplaced(
    verify: Check, key: Inputs, trace: seq<State>, steps: seq<Step>, j: nat, k: nat)
    requires Run(verify, key, trace, steps) && j <= k < |trace| && trace[j].entry.Some?
    requires forall i :: j <= i < k ==> !steps[i].Evict? && !steps[i].Damage?
    ensures trace[k].entry == trace[j].entry
  {
    if j < k {
      EntryIsNeverReplaced(verify, key, trace, steps, j, k - 1);
      RunKeepsInv(verify, key, trace, steps, k - 1);
      assert StepAt(verify, key, trace, steps, k - 1);
      StepKeepsEntry(verify, key, trace[k - 1], trace[k], steps[k - 1]);
    }
  }

  /** With leftovers present no session is past a hit or on its way to a publication. */
  predicate Poisoned(s: State) {
    && s.partials > 0
    && (s.pc.Idle? || s.pc.Look? || s.pc == Miss(true) || (s.pc.Built? && s.pc.poisoned)
        || (s.pc.RecheckBuild? && s.pc.poisoned) || s.pc.Finish?)
  }

  lemma StepKeepsPoisoned(verify: Check, key: Inputs, s: State, t: State, step: Step)
    requires Poisoned(s) && NextStep(verify, key, s, t, step) && !step.Evict?
    ensures Poisoned(t) && t.partials == s.partials && t.ledger == s.ledger && t.incomplete == s.incomplete
    ensures t.outcomes == s.outcomes
            || (|t.outcomes| == |s.outcomes| + 1 && t.outcomes[..|s.outcomes|] == s.outcomes
                && !t.outcomes[|s.outcomes|].hit)
  {
  }

  /**
   Leftovers of a crashed publication poison the key until eviction: every later receipt is built anew and
   nothing is published.
   */
  lemma {:induction false} LeftoversPoison(
    verify: Check, key: Inputs, trace: seq<State>, steps: seq<Step>, j: nat, k: nat)
    requires Run(verify, key, trace, steps) && j <= k < |trace| && trace[j].pc.Idle? && trace[j].partials > 0
    requires forall i :: j <= i < k ==> !steps[i].Evict?
    ensures Poisoned(trace[k]) && trace[k].ledger == trace[j].ledger
    ensures trace[j].outcomes <= trace[k].outcomes
    ensures forall i :: |trace[j].outcomes| <= i < |trace[k].outcomes| ==> !trace[k].outcomes[i].hit
  {
    if j < k {
      LeftoversPoison(verify, key, trace, steps, j, k - 1);
      assert StepAt(verify, key, trace, steps, k - 1);
      StepKeepsPoisoned(verify, key, trace[k - 1], trace[k], steps[k - 1]);
      assert trace[k - 1].outcomes <= trace[k].outcomes;
      assert forall i :: 0 <= i < |trace[k - 1].outcomes| ==> trace[k].outcomes[i] == trace[k - 1].outcomes[i];
    }
  }

  /**
   When the entry of an incomplete publication is accepted, over every run: exactly when the ledger on disk
   names that very manifest. The ledger is that of the last publication that completed, so this needs one of
   the same key and receipt, and an eviction since.
   */
  lemma IncompleteAcceptedIff(verify: Check, key: Inputs, trace: seq<State>, steps: seq<Step>, k: nat)
    requires Run(verify, key, trace, steps) && k < |trace| && trace[k].incomplete && !trace[k].damaged
    ensures trace[k].entry.Some?
    ensures Acceptable(verify, key, trace[k]) <==> trace[k].ledger == trace[k].entry.value.manifest
    ensures trace[k].ledger == LastOf(trace[k].completed)
    ensures trace[k].ledger.Some? ==> trace[k].evicted
  {
    RunKeepsInv(verify, key, trace, steps, k);
  }

  /** The entry of a publication that completed is accepted from then on, until it is damaged or evicted. */
  lemma CompletedIsAccepted(verify: Check, key: Inputs, trace: seq<State>, steps: seq<Step>, k: nat)
    requires Run(verify, key, trace, steps) && k < |trace|
    requires trace[k].entry.Some? && !trace[k].incomplete && !trace[k].damaged
    ensures Acceptable(verify, key, trace[k])
  {
    RunKeepsInv(verify, key, trace, steps, k);
  }

  /** Damaged or not, while nothing was evicted an entry whose publication did not complete is never accepted. */
  lemma IncompleteNeverHits(verify: Check, key: Inputs, trace: seq<State>, steps: seq<Step>, k: nat)
    requires Run(verify, key, trace, steps) && k < |trace| && trace[k].incomplete && !trace[k].evicted
    ensures !Acceptable(verify, key, trace[k])
  {
    RunKeepsInv(verify, key, trace, steps, k);
  }

  /** Whatever entry is accepted, damaged ones included, has the manifest of the last completed publication. */
  lemma AcceptedWasCompleted(verify: Check, key: Inputs, trace: seq<State>, steps: seq<Step>, k: nat)
    requires Run(verify, key, trace, steps) && k < |trace| && Acceptable(verify, key, trace[k])
    ensures trace[k].entry.value.manifest == LastOf(trace[k].completed)
    ensures trace[k].incomplete ==> trace[k].evicted
  {
    RunKeepsInv(verify, key, trace, steps, k);
  }

  // ---------------------------------------------------------------------------
  // What a session returns and leaves behind

  /**
   A session in which nothing fails, from the idle state `i` to the idle state `k`: no crash, no torn copy, no
   failed publication, and inputs that stay what they were at its begin.
   */
  ghost predicate SmoothSession(verify: Check, key: Inputs, trace: seq<State>, steps: seq<Step>, i: nat, k: nat) {
    && |trace| == |steps| + 1 && i < k < |trace| && steps[i].Begin?
    && (forall m :: i <= m < k ==> StepAt(verify, key, trace, steps, m) && Smooth(steps[m]))
    && (forall m :: i < m < k ==> !trace[m].pc.Idle?)
  }

  predicate Smooth(step: Step) {
    !step.Crash? && !step.InputsChange? && !step.PublicationFails? && (step.CopyOut? ==> step.torn.None?)
  }

  /** A trusted entry without leftovers, whose manifest the ledger names, for these inputs, with a verified artifact. */
  predicate GoodEntry(verify: Check, key: Inputs, s: State) {
    && s.partials == 0 && s.entry.Some? && s.entry.value.trusted && s.ledger.Some?
    && s.entry.value.manifest == s.ledger && s.ledger.value.inputs == key
    && verify(s.entry.value.artifact, s.ledger.value.receipt)
  }

  predicate SameCache(s0: State, s: State) {
    s.entry == s0.entry && s.ledger == s0.ledger && s.partials == s0.partials
  }

  /** The entry's receipt is returned for the entry's artifact, and the cache stays as it is. */
  predicate Hit(key: Inputs, s0: State, s: State) {
    && s0.entry.Some? && s0.ledger.Some? && SameCache(s0, s) && s.out == s0.entry.value.artifact
    && s.outcomes == s0.outcomes + [Outcome(s0.ledger.value.receipt, s.out, key, true)]
  }

  /** The entry is trusted, names this receipt for these inputs, and holds an artifact verified for it. */
  predicate Holds(verify: Check, key: Inputs, s: State, r: Receipt) {
    && s.entry.Some? && s.entry.value.trusted && s.entry.value.manifest == Some(Manifest(key, r))
    && verify(s.entry.value.artifact, r)
  }

  /** A verified build is returned, and a verified copy of it is now the entry that the ledger names. */
  predicate Published(verify: Check, key: Inputs, s0: State, s: State, r: Receipt) {
    && verify(s.out, r) && s.outcomes == s0.outcomes + [Outcome(r, s.out, key, false)]
    && s.partials == 0 && s.ledger == Some(Manifest(key, r)) && Holds(verify, key, s, r)
  }

  /** A verified build is returned, and the cache stays as it is. */
  predicate Bypassed(verify: Check, key: Inputs, s0: State, s: State, r: Receipt) {
    verify(s.out, r) && s.outcomes == s0.outcomes + [Outcome(r, s.out, key, false)] && SameCache(s0, s)
  }

  predicate Copying(pc: Pc) {
    pc.Copy? || pc.CheckCopy? || pc.RecheckHit?
  }

  predicate Missing(pc: Pc) {
    pc.Miss? || pc.Built? || pc.RecheckBuild?
  }

  predicate Vacant(s: State) {
    s.entry.None? && s.partials == 0
  }

  /** Where things are inside a smooth session that began in `s0`. */
  predicate Underway(verify: Check, key: Inputs, s0: State, s: State) {
    && !s.pc.Idle? && s.current == key && s.outcomes == s0.outcomes
    && (s.pc.Look? || Copying(s.pc) || Missing(s.pc) || s.pc.Publishing? ==> SameCache(s0, s))
    && (Copying(s.pc) ==> GoodEntry(verify, key, s0) && s.pc.r == s0.ledger.value.receipt)
    && (s.pc.CheckCopy? || s.pc.RecheckHit? ==> s.out == s0.entry.value.artifact)
    && (!s.pc.Look? && !Copying(s.pc) ==> !GoodEntry(verify, key, s0))
    && (Missing(s.pc) ==> s.pc.poisoned == !Vacant(s0))
    && (s.pc.RecheckBuild? || Rechecked(s.pc) ==> verify(s.out, s.pc.r))
    && (Rechecked(s.pc) ==> s.pc.seen == key)
    && (s.pc.Publishing? || s.pc.Partial? || s.pc.Filled? || s.pc.Renamed? ==> Vacant(s0))
    && (s.pc.Partial? || s.pc.Filled? ==> s.entry.None? && s.ledger == s0.ledger && s.partials == 1)
    && (s.pc.Filled? ==> verify(s.pc.copy, s.pc.r))
    && (s.pc.Renamed? ==> s.partials == 0 && Holds(verify, key, s, s.pc.r))
    && (s.pc.Finish? ==>
          if Vacant(s0) then
            s.partials == 0 && s.ledger == Some(Manifest(key, s.pc.r)) && Holds(verify, key, s, s.pc.r)
          else SameCache(s0, s))
  }

  lemma StepKeepsUnderway(verify: Check, key: Inputs, s0: State, s: State, t: State, step: Step)
    requires Underway(verify, key, s0, s) && NextStep(verify, key, s, t, step) && Smooth(step) && !t.pc.Idle?
    ensures Underway(verify, key, s0, t)
  {
  }

  lemma EndsUnderway(verify: Check, key: Inputs, s0: State, s: State, t: State, step: Step)
    requires Underway(verify, key, s0, s) && NextStep(verify, key, s, t, step) && Smooth(step) && t.pc.Idle?
    ensures |t.outcomes| == |s0.outcomes| + 1
    ensures GoodEntry(verify, key, s0) ==> Hit(key, s0, t)
    ensures !GoodEntry(verify, key, s0) ==>
              var r := t.outcomes[|s0.outcomes|].receipt;
              if Vacant(s0) then Published(verify, key, s0, t, r) else Bypassed(verify, key, s0, t, r)
  {
  }

  lemma {:induction false} SessionUnderway(
    verify: Check, key: Inputs, trace: seq<State>, steps: seq<Step>, i: nat, k: nat)
    requires SmoothSession(verify, key, trace, steps, i, k) && !trace[k].pc.Idle?
    ensures Underway(verify, key, trace[i], trace[k])
  {
    assert StepAt(verify, key, trace, steps, k - 1);
    if k > i + 1 {
      SessionUnderway(verify, key, trace, steps, i, k - 1);
      StepKeepsUnderway(verify, key, trace[i], trace[k - 1], trace[k], steps[k - 1]);
    }
  }

  /**
   What a session comes to when nothing fails, over every run: a good entry is always a hit; with neither entry
   nor leftovers the verified build is published; and in every other case the build is returned and the cache
   left alone.
   */
  lemma SessionOutcome(verify: Check, key: Inputs, trace: seq<State>, steps: seq<Step>, i: nat, k: nat)
    requires SmoothSession(verify, key, trace, steps, i, k) && trace[k].pc.Idle?
    ensures |trace[k].outcomes| == |trace[i].outcomes| + 1
    ensures GoodEntry(verify, key, trace[i]) ==> Hit(key, trace[i], trace[k])
    ensures !GoodEntry(verify, key, trace[i]) ==>
              var r := trace[k].outcomes[|trace[i].outcomes|].receipt;
              if Vacant(trace[i]) then Published(verify, key, trace[i], trace[k], r)
              else Bypassed(verify, key, trace[i], trace[k], r)
  {
    assert StepAt(verify, key, trace, steps, k - 1);
    if k > i + 1 {
      SessionUnderway(verify, key, trace, steps, i, k - 1);
      EndsUnderway(verify, key, trace[i], trace[k - 1], trace[k], steps[k - 1]);
    }
  }

  ghost predicate Path(verify: Check, key: Inputs, trace: seq<State>, steps: seq<Step>) {
    |trace| == |steps| + 1 && forall i :: 0 <= i < |steps| ==> StepAt(verify, key, trace, steps, i)
  }

  lemma Joined(verify: Check, key: Inputs, a: seq<State>, p: seq<Step>, b: seq<State>, q: seq<Step>)
    requires Path(verify, key, a, p) && Path(verify, key, b, q) && a[|p|] == b[0]
    ensures Path(verify, key, a + b[1..], p + q)
  {
    forall i | 0 <= i < |p + q|
      ensures StepAt(verify, key, a + b[1..], p + q, i)
    {
      if i < |p| {
        assert StepAt(verify, key, a, p, i);
      } else {
        assert StepAt(verify, key, b, q, i - |p|);
      }
    }
  }

  /** From an empty cache, a session that misses and builds receipt `r`. */
  lemma UpToPublication(verify: Check, key: Inputs, s: State, a: Artifact, r: Receipt)
    returns (trace: seq<State>, steps: seq<Step>)
    requires s.pc.Idle? && s.current == key && s.entry.None? && s.partials == 0 && verify(a, r)
    ensures Path(verify, key, trace, steps) && trace[0] == s
    ensures trace[|steps|] == s.(out := a, pc := Publishing(r, key))
  {
    var s1, s2 := s.(pc := Look), s.(pc := Miss(false));
    var s3, s4 := s.(out := a, pc := Built(r, false)), s.(out := a, pc := RecheckBuild(r, false));
    var s5 := s.(out := a, pc := Publishing(r, key));
    trace := [s, s1, s2, s3, s4, s5];
    steps := [Begin, LookUp, Build(a, r), BuildChecked, BuildRechecked];
    assert NextStep(verify, key, s, s1, Begin) && NextStep(verify, key, s1, s2, LookUp);
    assert NextStep(verify, key, s2, s3, Build(a, r)) && NextStep(verify, key, s3, s4, BuildChecked);
    assert NextStep(verify, key, s4, s5, BuildRechecked);
  }

  /** What a session leaves that has just renamed its directory into place. */
  function Placed(key: Inputs, s: State, a: Artifact, r: Receipt): State {
    s.(out := a, entry := Some(Entry(true, Some(Manifest(key, r)), a)), incomplete := true, damaged := false,
       pc := Renamed(r, key))
  }

  /** It then fills a directory of its own and renames it into place. */
  lemma UpToRename(verify: Check, key: Inputs, s: State, a: Artifact, r: Receipt)
    returns (trace: seq<State>, steps: seq<Step>)
    requires s.pc.Idle? && s.current == key && s.entry.None? && s.partials == 0 && verify(a, r)
    ensures Path(verify, key, trace, steps) && trace[0] == s && trace[|steps|] == Placed(key, s, a, r)
  {
    var first, p := UpToPublication(verify, key, s, a, r);
    var b := s.(out := a, pc := Publishing(r, key));
    var b1, b2 := b.(partials := 1, pc := Partial(r, key)), b.(partials := 1, pc := Filled(r, key, a));
    var b3 := Placed(key, s, a, r);
    assert NextStep(verify, key, b, b1, MakePartial) && NextStep(verify, key, b1, b2, FillPartial(a));
    assert NextStep(verify, key, b2, b3, Rename);
    Joined(verify, key, first, p, [b, b1, b2, b3], [MakePartial, FillPartial(a), Rename]);
    trace := first + [b, b1, b2, b3][1..];
    steps := p + [MakePartial, FillPartial(a), Rename];
  }

  /**
   Eviction keeps the ledger, so the exception is real: publish, evict, rebuild the same receipt, and crash
   between the rename and the ledger write. The incomplete entry is accepted through the old ledger.
   */
  lemma StaleLedgerAccepts(verify: Check, key: Inputs, a: Artifact, r: Receipt)
    returns (trace: seq<State>, steps: seq<Step>)
    requires verify(a, r)
    ensures Run(verify, key, trace, steps)
    ensures trace[|steps|].incomplete && trace[|steps|].pc.Idle? && Acceptable(verify, key, trace[|steps|])
  {
    var first, p := UpToRename(verify, key, FRESH.(current := key), a, r);
    var m := Manifest(key, r);
    var s1 := first[|p|];
    var s2 := s1.(ledger := Some(m), completed := [m], incomplete := false, pc := Finish(r, key));
    var s3 := s2.(pc := Idle);
    var s4 := s3.(entry := None, evicted := true);
    assert s1.completed + [m] == [m];
    assert NextStep(verify, key, s1, s2, WriteLedger) && NextStep(verify, key, s2, s3, Crash);
    assert NextStep(verify, key, s3, s4, Evict);
    Joined(verify, key, first, p, [s1, s2, s3, s4], [WriteLedger, Crash, Evict]);
    var second, q := UpToRename(verify, key, s4, a, r);
    var s5 := second[|q|].(pc := Idle);
    assert NextStep(verify, key, second[|q|], s5, Crash);
    Joined(verify, key, second, q, [second[|q|], s5], [Crash]);
    var front, back := first + [s1, s2, s3, s4][1..], second + [second[|q|], s5][1..];
    Joined(verify, key, front, p + [WriteLedger, Crash, Evict], back, q + [Crash]);
    trace := front + back[1..];
    steps := p + [WriteLedger, Crash, Evict] + (q + [Crash]);
  }
}
