/**
 The phases over one state directory: prepareMac (build, submit, wait, staple), stageMac,
 installTargets and verifyTargets of scripts/release-mac.ts with the receipt they share, and the
 Agent Phone part of scripts/install-mac-local.ts.

 A session loads the saved receipts, changes its copy, and saves it atomically; a crash or an error
 between any two steps loses the copy only. Commands and their outcomes are nondeterministic.
 One session runs at a time (the state directory is locked).
 */
module MacPhases {
  type Target = nat

  /** `notarized` is false when every destination is local, so nothing is submitted to Apple. */
  datatype Config = Config(targets: seq<Target>, notarized: bool)

  /** `sealed` is a recorded artifact digest; the three arrays are only ever tested for membership. */
  datatype Receipt = Receipt(
    intent: bool, requestId: bool, accepted: bool, sealed: bool,
    staged: set<Target>, installed: set<Target>, verified: set<Target>)

  /** The local installer's own receipt about the Agent Phone build. */
  datatype PhoneReceipt = PhoneReceipt(started: bool, receipt: bool)

  datatype Pc =
    | Build | IntentSet | Submit | RequestSet | Poll | AcceptedSet | Staple | SealedSet | Done
    | PhoneStart | PhoneStartedSet | PhoneBuild | PhoneReceiptSet | LocalBuild | LocalSealedSet
    | StageAt(i: nat) | StagedSet(i: nat)
    | InstallAt(i: nat) | InstalledSet(i: nat)
    | VerifyAt(i: nat) | VerifiedSet(i: nat)

  datatype Session = NoSession | Session(mem: Receipt, phoneMem: PhoneReceipt, pc: Pc)

  /**
   `submits` and `phoneBuilds` count the commands issued for this state directory since it was created; `byHand`
   says that an operator recorded a request.
   */
  datatype State = State(
    disk: Receipt, phone: PhoneReceipt, session: Session, submits: nat, phoneBuilds: nat, byHand: bool)

  const EMPTY := Receipt(false, false, false, false, {}, {}, {})

  predicate Initial(s: State) {
    s == State(EMPTY, PhoneReceipt(false, false), NoSession, 0, 0, false)
  }

  function TargetSet(c: Config): set<Target> {
    set t | t in c.targets
  }

  /** Where prepareMac resumes on the notarized path, from what the receipt already says. */
  predicate PrepareEntry(r: Receipt, pc: Pc) {
    if !r.intent then pc == Build
    else r.requestId && pc == (if !r.accepted then Poll else if !r.sealed then Staple else Done)
  }

  datatype Step =
    | EndSession
    | OperatorRecordsRequest
    | BeginPrepare | BuildDone | SubmitIssued | PollAccepted | Stapled
    | BeginLocal | StartPhone | PhoneIssued | LocalBuilt
    | BeginStage | StagePassed
    | BeginInstall | AlreadyInstalled | InstallPassed
    | BeginVerify | VerifyPassed
    | Save

  function Continue(s: State, pc: Pc): State
    requires s.session.Session?
  {
    s.(session := s.session.(pc := pc))
  }

  function Note(s: State, mem: Receipt, pc: Pc): State
    requires s.session.Session?
  {
    s.(session := s.session.(mem := mem, pc := pc))
  }

  function Open(s: State, pc: Pc): State {
    s.(session := Session(s.disk, s.phone, pc))
  }

  /** What follows a save. */
  function AfterSave(pc: Pc): Pc {
    match pc
    case IntentSet => Submit
    case RequestSet => Poll
    case AcceptedSet => Staple
    case SealedSet => Done
    case PhoneStartedSet => PhoneBuild
    case PhoneReceiptSet => LocalBuild
    case LocalSealedSet => StageAt(0)
    case StagedSet(i) => StageAt(i + 1)
    case InstalledSet(i) => InstallAt(i + 1)
    case VerifiedSet(i) => VerifyAt(i + 1)
    case _ => pc
  }

  predicate Saves(pc: Pc) {
    pc.IntentSet? || pc.RequestSet? || pc.AcceptedSet? || pc.SealedSet? || pc.PhoneStartedSet? || pc.PhoneReceiptSet?
    || pc.LocalSealedSet? || pc.StagedSet? || pc.InstalledSet? || pc.VerifiedSet?
  }

  /** The steps that change the copy of a running session or issue a command; the others open, save or end one. */
  predicate IsWork(step: Step) {
    step.BuildDone? || step.SubmitIssued? || step.PollAccepted? || step.Stapled? || step.StartPhone?
    || step.PhoneIssued? || step.LocalBuilt? || step.StagePassed? || step.AlreadyInstalled? || step.InstallPassed?
    || step.VerifyPassed?
  }

  ghost predicate NextStep(c: Config, s: State, t: State, step: Step) {
    if IsWork(step) then s.session.Session? && SessionStep(c, s, t, step) else BoundaryStep(c, s, t, step)
  }

  ghost predicate BoundaryStep(c: Config, s: State, t: State, step: Step) {
    match step
    case EndSession => t == s.(session := NoSession)
    // An interrupted submission is reconciled by hand: the operator writes the request ID into mac.json.
    case OperatorRecordsRequest =>
      s.session.NoSession? && s.disk.intent && t == s.(disk := s.disk.(requestId := true), byHand := true)
    case BeginPrepare =>
      && s.session.NoSession? && c.notarized
      && exists pc :: PrepareEntry(s.disk, pc) && t == Open(s, pc)
    case BeginLocal =>
      && s.session.NoSession? && !c.notarized && !(s.phone.started && !s.phone.receipt)
      && t == Open(s, if s.disk.sealed then LocalSealedSet else if s.phone.receipt then LocalBuild else PhoneStart)
    case BeginStage =>
      && s.session.NoSession? && s.disk.sealed && (c.notarized ==> s.disk.accepted)
      && t == Open(s, StageAt(0))
    case BeginInstall =>
      s.session.NoSession? && TargetSet(c) <= s.disk.staged && t == Open(s, InstallAt(0))
    case BeginVerify => s.session.NoSession? && t == Open(s, VerifyAt(0))
    case Save =>
      && s.session.Session? && Saves(s.session.pc)
      && t == Continue(s, AfterSave(s.session.pc)).(disk := s.session.mem, phone := s.session.phoneMem)
    case _ => false
  }

  /** The steps of a running session that change its copy or issue a command. */
  ghost predicate SessionStep(c: Config, s: State, t: State, step: Step)
    requires s.session.Session?
  {
    var m := s.session.mem;
    var pc := s.session.pc;
    match step
    case BuildDone => pc.Build? && t == Note(s, m.(intent := true), IntentSet)
    // The command may succeed, or end the session with its outcome unknown.
    case SubmitIssued =>
      && pc.Submit?
      && (|| t == Note(s, m.(requestId := true), RequestSet).(submits := s.submits + 1)
          || t == s.(session := NoSession, submits := s.submits + 1))
    case PollAccepted => pc.Poll? && t == Note(s, m.(accepted := true), AcceptedSet)
    case Stapled => pc.Staple? && t == Note(s, if m.sealed then m else m.(sealed := true), SealedSet)
    case StartPhone =>
      pc.PhoneStart? && t == s.(session := s.session.(phoneMem := PhoneReceipt(true, false), pc := PhoneStartedSet))
    case PhoneIssued =>
      && pc.PhoneBuild?
      && (|| t == s.(session := s.session.(phoneMem := PhoneReceipt(true, true), pc := PhoneReceiptSet),
                     phoneBuilds := s.phoneBuilds + 1)
          || t == s.(session := NoSession, phoneBuilds := s.phoneBuilds + 1))
    case LocalBuilt => pc.LocalBuild? && t == Note(s, m.(sealed := true), LocalSealedSet)
    case StagePassed =>
      && pc.StageAt? && pc.i < |c.targets|
      && t == Note(s, m.(staged := m.staged + {c.targets[pc.i]}), StagedSet(pc.i))
    case AlreadyInstalled =>
      && pc.InstallAt? && pc.i < |c.targets| && c.targets[pc.i] in m.installed
      && t == Continue(s, InstallAt(pc.i + 1))
    case InstallPassed =>
      && pc.InstallAt? && pc.i < |c.targets| && c.targets[pc.i] !in m.installed
      && t == Note(s, m.(installed := m.installed + {c.targets[pc.i]}), InstalledSet(pc.i))
    case VerifyPassed =>
      && pc.VerifyAt? && pc.i < |c.targets| && c.targets[pc.i] in m.installed
      && t == Note(s, m.(verified := m.verified + {c.targets[pc.i]}), VerifiedSet(pc.i))
    case _ => false
  }

  ghost predicate Next(c: Config, s: State, t: State) {
    exists step :: NextStep(c, s, t, step)
  }

  ghost predicate NextAt(c: Config, trace: seq<State>, i: nat) {
    i + 1 < |trace| && Next(c, trace[i], trace[i + 1])
  }

  ghost predicate Run(c: Config, trace: seq<State>) {
    && |trace| > 0 && Initial(trace[0])
    && forall i :: 0 <= i < |trace| - 1 ==> NextAt(c, trace, i)
  }

  /** The phases as the receipt tells them: none is recorded before the one it needs. */
  ghost predicate InOrder(c: Config, r: Receipt) {
    && r.verified <= r.installed <= r.staged <= TargetSet(c)
    && (r.installed != {} ==> TargetSet(c) == r.staged)
    && (r.staged != {} ==> r.sealed)
    && (c.notarized ==> (r.sealed ==> r.accepted) && (r.accepted ==> r.requestId) && (r.requestId ==> r.intent))
  }

  /** Nothing recorded in `r` is missing from `q`. */
  ghost predicate Extends(r: Receipt, q: Receipt) {
    && (r.intent ==> q.intent) && (r.requestId ==> q.requestId)
    && (r.accepted ==> q.accepted) && (r.sealed ==> q.sealed)
    && r.staged <= q.staged && r.installed <= q.installed && r.verified <= q.verified
  }

  predicate OnPhonePath(pc: Pc) {
    pc.PhoneStart? || pc.PhoneStartedSet? || pc.PhoneBuild? || pc.PhoneReceiptSet? || pc.LocalBuild?
    || pc.LocalSealedSet?
  }

  /** What each point of a session may rely on. */
  ghost predicate SessionInv(c: Config, s: State)
    requires s.session.Session?
  {
    var m, pc := s.session.mem, s.session.pc;
    && InOrder(c, m) && Extends(s.disk, m)
    && (!Saves(pc) ==> m == s.disk && s.session.phoneMem == s.phone)
    && (pc.Build? || pc.IntentSet? ==> c.notarized && !s.disk.intent && !m.requestId)
    && (pc.IntentSet? ==> m.intent)
    && (pc.Submit? ==> c.notarized && s.submits == 0 && s.disk.intent && !s.disk.requestId)
    && (pc.RequestSet? || pc.Poll? ==> m.requestId)
    && (pc.AcceptedSet? || pc.Staple? ==> m.accepted)
    && (pc.PhoneStart? || pc.PhoneStartedSet? ==> !s.phone.started && !s.phone.receipt)
    && (pc.PhoneStartedSet? ==> s.session.phoneMem == PhoneReceipt(true, false))
    && (pc.PhoneBuild? ==> s.phone == PhoneReceipt(true, false) && s.phoneBuilds == 0)
    && (pc.PhoneReceiptSet? ==> s.phone.started)
    && (s.session.phoneMem.receipt ==> s.session.phoneMem.started)
    && (s.phone.started ==> s.session.phoneMem.started)
    && (OnPhonePath(pc) ==> !c.notarized)
    && (pc.LocalSealedSet? ==> m.sealed)
    && (pc.StageAt? || pc.StagedSet? ==> m.sealed)
    && (pc.InstallAt? || pc.InstalledSet? ==> TargetSet(c) == m.staged)
  }

  ghost predicate Inv(c: Config, s: State) {
    && InOrder(c, s.disk)
    && s.submits <= 1 && (s.submits == 1 ==> s.disk.intent && c.notarized)
    && s.phoneBuilds <= 1 && (s.phoneBuilds == 1 ==> s.phone.started && !c.notarized)
    && (s.phone.receipt ==> s.phone.started && s.phoneBuilds == 1)
    && (c.notarized ==> (s.disk.requestId ==> s.submits == 1 || s.byHand))
    && (!c.notarized ==> (s.disk.sealed ==> s.phone.receipt))
    && (s.session.Session? ==> SessionInv(c, s) && CommandInv(c, s))
  }

  /** What the session copy says of commands was issued for, and what each save is about to add. */
  ghost predicate CommandInv(c: Config, s: State)
    requires s.session.Session?
  {
    var m, pc := s.session.mem, s.session.pc;
    && (c.notarized ==> (m.requestId ==> s.submits == 1 || s.byHand))
    && (s.session.phoneMem.receipt ==> s.phoneBuilds == 1)
    && (!c.notarized ==> (m.sealed ==> s.session.phoneMem.receipt))
    && (pc.PhoneReceiptSet? || pc.LocalBuild? || pc.LocalSealedSet? ==> s.session.phoneMem.receipt)
    && (OnNotarizedPath(pc) ==> c.notarized)
    && (Saves(pc) ==> m == Adding(c, s.disk, pc))
    && (AtTarget(pc) ==> pc.i < |c.targets|)
  }

  predicate OnNotarizedPath(pc: Pc) {
    pc.RequestSet? || pc.Poll? || pc.AcceptedSet? || pc.Staple? || pc.SealedSet? || pc.Done?
  }

  predicate AtTarget(pc: Pc) {
    pc.StagedSet? || pc.InstalledSet? || pc.VerifiedSet?
  }

  /** The receipt with the one thing recorded that a save at this point records. */
  function Adding(c: Config, r: Receipt, pc: Pc): Receipt {
    match pc
    case IntentSet => r.(intent := true)
    case RequestSet => r.(requestId := true)
    case AcceptedSet => r.(accepted := true)
    case SealedSet => r.(sealed := true)
    case LocalSealedSet => r.(sealed := true)
    case StagedSet(i) => if i < |c.targets| then r.(staged := r.staged + {c.targets[i]}) else r
    case InstalledSet(i) => if i < |c.targets| then r.(installed := r.installed + {c.targets[i]}) else r
    case VerifiedSet(i) => if i < |c.targets| then r.(verified := r.verified + {c.targets[i]}) else r
    case _ => r
  }

  lemma PrepareStepKeepsInv(c: Config, s: State, t: State, step: Step)
    requires Inv(c, s) && s.session.Session? && SessionStep(c, s, t, step)
    requires step.BuildDone? || step.SubmitIssued? || step.PollAccepted? || step.Stapled?
    ensures Inv(c, t) && t.disk == s.disk
  {
  }

  lemma LocalStepKeepsInv(c: Config, s: State, t: State, step: Step)
    requires Inv(c, s) && s.session.Session? && SessionStep(c, s, t, step)
    requires step.StartPhone? || step.PhoneIssued? || step.LocalBuilt?
    ensures Inv(c, t) && t.disk == s.disk
  {
  }

  lemma TargetStepKeepsInv(c: Config, s: State, t: State, step: Step)
    requires Inv(c, s) && s.session.Session? && SessionStep(c, s, t, step)
    requires step.StagePassed? || step.AlreadyInstalled? || step.InstallPassed?
    ensures Inv(c, t) && t.disk == s.disk
  {
  }

  lemma VerifyStepKeepsInv(c: Config, s: State, t: State)
    requires Inv(c, s) && s.session.Session? && SessionStep(c, s, t, VerifyPassed)
    ensures Inv(c, t) && t.disk == s.disk
  {
  }

  lemma SaveKeepsSession(c: Config, s: State, t: State)
    requires Inv(c, s) && BoundaryStep(c, s, t, Save)
    ensures t.session.Session? && SessionInv(c, t)
  {
  }

  lemma SaveKeepsCommands(c: Config, s: State, t: State)
    requires Inv(c, s) && BoundaryStep(c, s, t, Save)
    ensures t.session.Session? && CommandInv(c, t)
  {
  }

  lemma SaveKeepsInv(c: Config, s: State, t: State)
    requires Inv(c, s) && BoundaryStep(c, s, t, Save)
    ensures Inv(c, t) && Extends(s.disk, t.disk)
  {
    SaveKeepsSession(c, s, t);
    SaveKeepsCommands(c, s, t);
  }

  lemma OpeningKeepsInv(c: Config, s: State, t: State, step: Step)
    requires Inv(c, s) && s.session.NoSession? && NextStep(c, s, t, step)
    ensures Inv(c, t) && Extends(s.disk, t.disk)
  {
  }

  lemma StepKeepsInv(c: Config, s: State, t: State, step: Step)
    requires Inv(c, s) && NextStep(c, s, t, step)
    ensures Inv(c, t) && Extends(s.disk, t.disk)
  {
    if s.session.NoSession? {
      OpeningKeepsInv(c, s, t, step);
    } else {
      match step
      case EndSession =>
      case Save => SaveKeepsInv(c, s, t);
      case BuildDone => PrepareStepKeepsInv(c, s, t, step);
      case SubmitIssued => PrepareStepKeepsInv(c, s, t, step);
      case PollAccepted => PrepareStepKeepsInv(c, s, t, step);
      case Stapled => PrepareStepKeepsInv(c, s, t, step);
      case StartPhone => LocalStepKeepsInv(c, s, t, step);
      case PhoneIssued => LocalStepKeepsInv(c, s, t, step);
      case LocalBuilt => LocalStepKeepsInv(c, s, t, step);
      case VerifyPassed => VerifyStepKeepsInv(c, s, t);
      case _ => TargetStepKeepsInv(c, s, t, step);
    }
  }

  lemma {:induction false} RunKeepsInv(c: Config, trace: seq<State>, k: nat)
    requires Run(c, trace) && k < |trace|
    ensures Inv(c, trace[k])
  {
    if k > 0 {
      RunKeepsInv(c, trace, k - 1);
      assert NextAt(c, trace, k - 1);
      var step :| NextStep(c, trace[k - 1], trace[k], step);
      StepKeepsInv(c, trace[k - 1], trace[k], step);
    }
  }

  /**
   Over any sequence of phases, resumes and crashes: the archive is submitted at most once and the Agent
   Phone build is started at most once per state directory, and every saved receipt is in phase order. A request
   that no operator recorded was submitted, and a sealed local build has the receipt of its one phone build.
   */
  lemma AtMostOnceInOrder(c: Config, trace: seq<State>, k: nat)
    requires Run(c, trace) && k < |trace|
    ensures trace[k].submits <= 1 && trace[k].phoneBuilds <= 1
    ensures InOrder(c, trace[k].disk)
    ensures c.notarized && trace[k].disk.staged != {} ==> trace[k].disk.accepted
    ensures c.notarized && trace[k].disk.requestId && !trace[k].byHand ==> trace[k].submits == 1
    ensures !c.notarized && trace[k].disk.sealed ==> trace[k].phone.receipt && trace[k].phoneBuilds == 1
  {
    RunKeepsInv(c, trace, k);
  }

  /** A saved receipt changes by the one thing its session has just done, or by the request an operator records. */
  lemma RecordsOneThing(c: Config, trace: seq<State>, k: nat)
    requires Run(c, trace) && k < |trace| - 1 && trace[k].disk != trace[k + 1].disk
    ensures if trace[k].session.Session? then trace[k + 1].disk == Adding(c, trace[k].disk, trace[k].session.pc)
            else trace[k + 1].disk == trace[k].disk.(requestId := true) && trace[k + 1].byHand
  {
    RunKeepsInv(c, trace, k);
    assert NextAt(c, trace, k);
    OnlySavesWrite(c, trace[k], trace[k + 1]);
  }

  lemma OnlySavesWrite(c: Config, s: State, t: State)
    requires Next(c, s, t) && t.disk != s.disk
    ensures if s.session.Session? then Saves(s.session.pc) && t.disk == s.session.mem
            else t.disk == s.disk.(requestId := true) && t.byHand
  {
  }

  /** The targets before the one a session is at are done. */
  predicate Progress(c: Config, s: State) {
    s.session.Session? ==>
      var m, pc := s.session.mem, s.session.pc;
      && (pc.StageAt? || pc.StagedSet? ==>
            pc.i <= |c.targets| && forall j :: 0 <= j < pc.i ==> c.targets[j] in m.staged)
      && (pc.InstallAt? || pc.InstalledSet? ==>
            pc.i <= |c.targets| && forall j :: 0 <= j < pc.i ==> c.targets[j] in m.installed)
      && (pc.VerifyAt? || pc.VerifiedSet? ==>
            pc.i <= |c.targets| && forall j :: 0 <= j < pc.i ==> c.targets[j] in m.verified)
      && (pc.StagedSet? ==> pc.i < |c.targets| && c.targets[pc.i] in m.staged)
      && (pc.InstalledSet? ==> pc.i < |c.targets| && c.targets[pc.i] in m.installed)
      && (pc.VerifiedSet? ==> pc.i < |c.targets| && c.targets[pc.i] in m.verified)
  }

  lemma NextKeepsProgress(c: Config, s: State, t: State)
    requires Progress(c, s) && Next(c, s, t)
    ensures Progress(c, t)
  {
    var step :| NextStep(c, s, t, step);
    if s.session.Session? {
      if step.Save? {
        SaveKeepsProgress(c, s, t);
      } else if !step.EndSession? {
        SessionStepKeepsProgress(c, s, t, step);
      }
    }
  }

  lemma SaveKeepsProgress(c: Config, s: State, t: State)
    requires Progress(c, s) && NextStep(c, s, t, Save)
    ensures Progress(c, t)
  {
  }

  lemma SessionStepKeepsProgress(c: Config, s: State, t: State, step: Step)
    requires Progress(c, s) && s.session.Session? && SessionStep(c, s, t, step)
    ensures Progress(c, t)
  {
  }

  lemma {:induction false} RunKeepsProgress(c: Config, trace: seq<State>, k: nat)
    requires Run(c, trace) && k < |trace|
    ensures Progress(c, trace[k])
  {
    if k > 0 {
      RunKeepsProgress(c, trace, k - 1);
      assert NextAt(c, trace, k - 1);
      NextKeepsProgress(c, trace[k - 1], trace[k]);
    }
  }

  /** A session that is through its targets has staged, installed or verified every one of them, and saved it. */
  lemma PhaseCompletes(c: Config, trace: seq<State>, k: nat)
    requires Run(c, trace) && k < |trace| && trace[k].session.Session?
    ensures trace[k].session.pc == StageAt(|c.targets|) ==> trace[k].disk.staged == TargetSet(c)
    ensures trace[k].session.pc == InstallAt(|c.targets|) ==> trace[k].disk.installed == TargetSet(c)
    ensures trace[k].session.pc == VerifyAt(|c.targets|) ==> trace[k].disk.verified == TargetSet(c)
  {
    RunKeepsInv(c, trace, k);
    RunKeepsProgress(c, trace, k);
  }

  // ---------------------------------------------------------------------------
  // What resuming can complete

  /** A step that no operator takes. */
  ghost predicate Proceeds(c: Config, s: State, t: State) {
    exists step: Step :: !step.OperatorRecordsRequest? && NextStep(c, s, t, step)
  }

  ghost predicate ProceedsAt(c: Config, more: seq<State>, i: nat) {
    i + 1 < |more| && Proceeds(c, more[i], more[i + 1])
  }

  ghost predicate Continues(c: Config, s: State, more: seq<State>) {
    && |more| > 0 && more[0] == s
    && forall i :: 0 <= i < |more| - 1 ==> ProceedsAt(c, more, i)
  }

  /** `more` continues `s` to a state whose receipt has the sealed artifact. */
  ghost predicate Seals(c: Config, s: State, more: seq<State>) {
    Continues(c, s, more) && more[|more| - 1].disk.sealed
  }

  lemma Prepend(c: Config, s: State, step: Step, rest: seq<State>) returns (more: seq<State>)
    requires |rest| > 0 && Seals(c, rest[0], rest)
    requires !step.OperatorRecordsRequest? && NextStep(c, s, rest[0], step)
    ensures Seals(c, s, more)
  {
    more := [s] + rest;
    forall i | 0 <= i < |more| - 1
      ensures ProceedsAt(c, more, i)
    {
      if i > 0 {
        assert ProceedsAt(c, rest, i - 1);
      }
    }
  }

  function Saved(s: State): State
    requires s.session.Session?
  {
    Continue(s, AfterSave(s.session.pc)).(disk := s.session.mem, phone := s.session.phoneMem)
  }

  lemma SaveAndGoOn(c: Config, s: State, rest: seq<State>) returns (more: seq<State>)
    requires s.session.Session? && Saves(s.session.pc) && Seals(c, Saved(s), rest)
    ensures Seals(c, s, more)
  {
    more := Prepend(c, s, Save, rest);
  }

  lemma SealFromStaple(c: Config, s: State) returns (more: seq<State>)
    requires s.session.Session? && s.session.pc.Staple?
    ensures Seals(c, s, more)
  {
    var t := Note(s, s.session.mem.(sealed := true), SealedSet);
    more := SaveAndGoOn(c, t, [Saved(t)]);
    more := Prepend(c, s, Stapled, more);
  }

  lemma SealFromPoll(c: Config, s: State) returns (more: seq<State>)
    requires s.session.Session? && s.session.pc.Poll?
    ensures Seals(c, s, more)
  {
    var t := Note(s, s.session.mem.(accepted := true), AcceptedSet);
    more := SealFromStaple(c, Saved(t));
    more := SaveAndGoOn(c, t, more);
    more := Prepend(c, s, PollAccepted, more);
  }

  lemma SealFromBuild(c: Config, s: State) returns (more: seq<State>)
    requires s.session.Session? && s.session.pc.Build?
    ensures Seals(c, s, more)
  {
    var t := Note(s, s.session.mem.(intent := true), IntentSet);
    var u := Saved(t);
    var v := Note(u, u.session.mem.(requestId := true), RequestSet).(submits := u.submits + 1);
    more := SealFromPoll(c, Saved(v));
    more := SaveAndGoOn(c, v, more);
    more := Prepend(c, u, SubmitIssued, more);
    more := SaveAndGoOn(c, t, more);
    more := Prepend(c, s, BuildDone, more);
  }

  lemma SealFromLocalBuild(c: Config, s: State) returns (more: seq<State>)
    requires s.session.Session? && s.session.pc.LocalBuild?
    ensures Seals(c, s, more)
  {
    var t := Note(s, s.session.mem.(sealed := true), LocalSealedSet);
    more := SaveAndGoOn(c, t, [Saved(t)]);
    more := Prepend(c, s, LocalBuilt, more);
  }

  lemma SealFromPhoneStart(c: Config, s: State) returns (more: seq<State>)
    requires s.session.Session? && s.session.pc.PhoneStart?
    ensures Seals(c, s, more)
  {
    var t := s.(session := s.session.(phoneMem := PhoneReceipt(true, false), pc := PhoneStartedSet));
    var u := Saved(t);
    var v := u.(session := u.session.(phoneMem := PhoneReceipt(true, true), pc := PhoneReceiptSet),
                phoneBuilds := u.phoneBuilds + 1);
    more := SealFromLocalBuild(c, Saved(v));
    more := SaveAndGoOn(c, v, more);
    more := Prepend(c, u, PhoneIssued, more);
    more := SaveAndGoOn(c, t, more);
    more := Prepend(c, s, StartPhone, more);
  }

  /** A command whose outcome is unknown: a submission without its request, or a phone build without its receipt. */
  predicate InDoubt(c: Config, s: State) {
    if c.notarized then s.disk.intent && !s.disk.requestId else s.phone.started && !s.phone.receipt
  }

  lemma SealFromRest(c: Config, s: State) returns (more: seq<State>)
    requires Inv(c, s) && s.session.NoSession? && !InDoubt(c, s)
    ensures Seals(c, s, more)
  {
    if s.disk.sealed {
      more := [s];
    } else if c.notarized {
      if !s.disk.intent {
        more := SealFromBuild(c, Open(s, Build));
      } else if !s.disk.accepted {
        more := SealFromPoll(c, Open(s, Poll));
      } else {
        more := SealFromStaple(c, Open(s, Staple));
      }
      assert PrepareEntry(s.disk, more[0].session.pc) && more[0] == Open(s, more[0].session.pc);
      more := Prepend(c, s, BeginPrepare, more);
    } else {
      if s.phone.receipt {
        more := SealFromLocalBuild(c, Open(s, LocalBuild));
      } else {
        more := SealFromPhoneStart(c, Open(s, PhoneStart));
      }
      more := Prepend(c, s, BeginLocal, more);
    }
  }

  /** Nothing but empty sessions starts while a command is in doubt. */
  ghost predicate Waits(c: Config, s: State) {
    && Inv(c, s) && InDoubt(c, s)
    && (s.session.Session? ==>
          s.session.pc == VerifyAt(0) || (s.session.pc == InstallAt(0) && c.targets == []))
  }

  lemma ProceedingWaits(c: Config, s: State, t: State)
    requires Waits(c, s) && Proceeds(c, s, t)
    ensures Waits(c, t)
  {
    var step: Step :| !step.OperatorRecordsRequest? && NextStep(c, s, t, step);
    StepKeepsInv(c, s, t, step);
    NothingToInstall(c, s);
    StaysInDoubt(c, s, t, step);
  }

  lemma StaysInDoubt(c: Config, s: State, t: State, step: Step)
    requires InDoubt(c, s) && !step.OperatorRecordsRequest? && NextStep(c, s, t, step)
    requires !s.disk.sealed && s.disk.installed == {} && (TargetSet(c) <= s.disk.staged ==> c.targets == [])
    requires s.session.Session? ==>
               && s.session.mem == s.disk
               && (s.session.pc == VerifyAt(0) || (s.session.pc == InstallAt(0) && c.targets == []))
    ensures InDoubt(c, t)
    ensures t.session.Session? ==>
              t.session.pc == VerifyAt(0) || (t.session.pc == InstallAt(0) && c.targets == [])
  {
  }

  lemma NothingToInstall(c: Config, s: State)
    requires Waits(c, s)
    ensures !s.disk.sealed && s.disk.staged == {} && s.disk.installed == {}
    ensures TargetSet(c) <= s.disk.staged ==> c.targets == []
  {
    if c.targets != [] {
      assert c.targets[0] in TargetSet(c);
    }
  }

  lemma {:induction false} WaitsForever(c: Config, s: State, more: seq<State>, k: nat)
    requires Waits(c, s) && Continues(c, s, more) && k < |more|
    ensures Waits(c, more[k])
  {
    if k > 0 {
      WaitsForever(c, s, more, k - 1);
      assert ProceedsAt(c, more, k - 1);
      ProceedingWaits(c, more[k - 1], more[k]);
    }
  }

  /**
   What resuming can complete: between sessions of any run, some continuation without an operator seals the
   artifact if and only if no command is in doubt.
   */
  lemma ResumesIff(c: Config, trace: seq<State>, k: nat)
    requires Run(c, trace) && k < |trace| && trace[k].session.NoSession?
    ensures (exists more :: Seals(c, trace[k], more)) <==> !InDoubt(c, trace[k])
  {
    RunKeepsInv(c, trace, k);
    var s := trace[k];
    if InDoubt(c, s) {
      forall more | Seals(c, s, more)
        ensures false
      {
        WaitsForever(c, s, more, |more| - 1);
        NothingToInstall(c, more[|more| - 1]);
      }
    } else {
      var more := SealFromRest(c, s);
    }
  }

  lemma NextGrows(c: Config, s: State, t: State)
    requires Inv(c, s) && Next(c, s, t)
    ensures Extends(s.disk, t.disk)
  {
    var step :| NextStep(c, s, t, step);
    StepKeepsInv(c, s, t, step);
  }

  lemma GrowsAt(c: Config, trace: seq<State>, k: nat)
    requires Run(c, trace) && k < |trace| - 1
    ensures Extends(trace[k].disk, trace[k + 1].disk)
  {
    RunKeepsInv(c, trace, k);
    assert NextAt(c, trace, k);
    NextGrows(c, trace[k], trace[k + 1]);
  }

  lemma ExtendsIsTransitive(a: Receipt, b: Receipt, c: Receipt)
    requires Extends(a, b) && Extends(b, c)
    ensures Extends(a, c)
  {
  }

  /** A saved receipt never forgets: whatever one session recorded, every later receipt of the run still says. */
  lemma {:induction false} ReceiptsOnlyGrow(c: Config, trace: seq<State>, j: nat, k: nat)
    requires Run(c, trace) && j <= k < |trace|
    ensures Extends(trace[j].disk, trace[k].disk)
  {
    if j < k {
      ReceiptsOnlyGrow(c, trace, j, k - 1);
      GrowsAt(c, trace, k - 1);
      ExtendsIsTransitive(trace[j].disk, trace[k - 1].disk, trace[k].disk);
    }
  }
}
