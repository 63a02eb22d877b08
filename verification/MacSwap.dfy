/**
 The bundle swap of scripts/release-mac.ts (installTargets, verifyTargets) and
 scripts/mac-app-cleanup.py for one application path.

 Any number of revisions may be installed, one session at a time (the installer holds
 the application lock). Every effect on a bundle slot is one step, and a session may end
 between any two of them, by a crash, a thrown error or a cancellation. A check passes only
 for a sound bundle of its revision; it may also fail for one, and every read may fail.
 Bytes go bad in an interrupted copy, in an interrupted removal, and between the last check
 of the prepared copy and its check in place.
 */
module MacSwap {
  import opened Options

  type Revision = nat

  /**
   `id` tells two bundles with the same bytes apart, `revision` is None when Info.plist is unreadable, and
   `sound` says that the rest is what was signed and inventoried for that revision.
   */
  datatype Bundle = Bundle(id: nat, revision: Option<Revision>, sound: bool)

  /** Where the running session is. Every constructor but Idle names the revision being installed. */
  datatype Pc =
    | Idle
    | InstallStart(r: Revision) | Recheck(r: Revision) | Probe(r: Revision) | Match(r: Revision)
    | VerifyStaged(r: Revision) | Copying(r: Revision) | VerifyNext(r: Revision) | Quitting(r: Revision)
    | SwapOut(r: Revision) | SwapIn(r: Revision) | Swapped(r: Revision) | PostVerify(r: Revision)
    | RestoreOut(r: Revision) | RestoreIn(r: Revision) | Restored(r: Revision)
    | VerifyStart(r: Revision) | VerifyApp(r: Revision) | Launch(r: Revision) | Clean(r: Revision)

  /**
   `next` and `backup` are the `.<revision>.next` and `.<revision>.previous` siblings of the application.
   `staged` names the revisions whose staged copy is sound. `installed`, `verified` and `rollback` are what
   the saved receipts say. The rest is history: the bundles that passed verification in the application slot,
   those that then passed the launch check, what interrupted removals left behind, and what went bad on its
   way into the application slot.
   */
  datatype State = State(
    app: Option<Bundle>,
    next: map<Revision, Bundle>,
    backup: map<Revision, Bundle>,
    staged: set<Revision>,
    installed: set<Revision>,
    verified: set<Revision>,
    rollback: map<Revision, Option<Revision>>,
    pc: Pc,
    unusedId: nat,
    inPlace: set<Bundle>,
    healthy: set<Bundle>,
    remnants: set<Bundle>,
    spoiled: set<Bundle>)

  /** What a read of the source revision in Info.plist sees. */
  predicate Carries(slot: Option<Bundle>, r: Revision) {
    slot.Some? && slot.value.revision == Some(r)
  }

  /** What the identity, signature and resource checks can pass for `r`. */
  predicate MayPass(slot: Option<Bundle>, r: Revision) {
    Carries(slot, r) && slot.value.sound
  }

  function Slot(m: map<Revision, Bundle>, r: Revision): Option<Bundle> {
    if r in m then Some(m[r]) else None
  }

  /** recordRollback: the receipt names the revision of the backup, or forgets the entry when there is none. */
  function Recorded(s: State, r: Revision): map<Revision, Option<Revision>> {
    if r in s.backup then s.rollback[r := s.backup[r].revision] else s.rollback - {r}
  }

  /** What changes the application, a backup or a receipt. */
  datatype Effect =
    | MatchPassed
    | MoveAppToBackup
    | MoveNextToApp(b: Bundle)
    | SwapRecorded
    | PostPassed
    | MoveAppToNext
    | MoveBackupToApp
    | RestoreRecorded
    | RemoveNext(q: Revision)
    | RemoveBackup(q: Revision)
    | LeaveNextRemnant(q: Revision, b: Bundle)
    | LeaveBackupRemnant(q: Revision, b: Bundle)
    | CleanDone

  datatype Step =
    | EndSession
    | BeginInstall(r: Revision)
    | BeginVerify(r: Revision)
    | ReadReceipt
    | RecheckPassed
    | ProbeMatches
    | ProbeDiffers
    | ProbeFails
    | StagedPassed
    | CopyWrite(b: Bundle)
    | CopyRemove
    | CopyDone
    | NextPassed
    | QuitPassed
    | NoAppToMove
    | PostFailed
    | NothingToRestore
    | VerifyInstalled
    | AppPassed
    | LaunchPassed
    | Do(effect: Effect)

  /** One atomic effect. EndSession is a crash, an error thrown by any step, or the end of a command. */
  ghost predicate NextStep(s: State, t: State, step: Step) {
    if step.Do? then EffectStep(s, t, step.effect) else SessionStep(s, t, step)
  }

  /** The steps that decide how the session goes on, and the copying: no application, backup or receipt changes. */
  ghost predicate SessionStep(s: State, t: State, step: Step) {
    match step
    case EndSession => t == s.(pc := Idle)
    case BeginInstall(r) => s.pc == Idle && t == s.(pc := InstallStart(r))
    case BeginVerify(r) => s.pc == Idle && t == s.(pc := VerifyStart(r))
    case ReadReceipt =>
      s.pc.InstallStart? && t == s.(pc := if s.pc.r in s.installed then Recheck(s.pc.r) else Probe(s.pc.r))
    case RecheckPassed => s.pc.Recheck? && MayPass(s.app, s.pc.r) && t == s.(pc := Idle)
    case ProbeMatches => s.pc.Probe? && Carries(s.app, s.pc.r) && t == s.(pc := Match(s.pc.r))
    case ProbeDiffers => s.pc.Probe? && !Carries(s.app, s.pc.r) && t == s.(pc := VerifyStaged(s.pc.r))
    // A failed read of the installed revision counts as another revision.
    case ProbeFails => s.pc.Probe? && t == s.(pc := VerifyStaged(s.pc.r))
    // A retained prepared copy is never merged into: copying starts only when there is none.
    case StagedPassed =>
      && s.pc.VerifyStaged? && s.pc.r in s.staged
      && t == s.(pc := if s.pc.r in s.next then VerifyNext(s.pc.r) else Copying(s.pc.r))
    case CopyWrite(b) =>
      s.pc.Copying? && b.id == s.unusedId && t == s.(next := s.next[s.pc.r := b], unusedId := s.unusedId + 1)
    case CopyRemove => s.pc.Copying? && t == s.(next := s.next - {s.pc.r})
    case CopyDone => s.pc.Copying? && s.pc.r in s.next && t == s.(pc := VerifyNext(s.pc.r))
    case NextPassed => s.pc.VerifyNext? && MayPass(Slot(s.next, s.pc.r), s.pc.r) && t == s.(pc := Quitting(s.pc.r))
    case QuitPassed => s.pc.Quitting? && MayPass(Slot(s.next, s.pc.r), s.pc.r) && t == s.(pc := SwapOut(s.pc.r))
    case NoAppToMove => s.pc.SwapOut? && s.pc.r in s.next && s.app.None? && t == s.(pc := SwapIn(s.pc.r))
    case PostFailed => s.pc.PostVerify? && t == s.(pc := RestoreOut(s.pc.r))
    case NothingToRestore => s.pc.RestoreOut? && s.pc.r !in s.backup && t == s.(pc := Restored(s.pc.r))
    case VerifyInstalled => s.pc.VerifyStart? && s.pc.r in s.installed && t == s.(pc := VerifyApp(s.pc.r))
    case AppPassed =>
      s.pc.VerifyApp? && MayPass(s.app, s.pc.r) && t == s.(inPlace := s.inPlace + {s.app.value}, pc := Launch(s.pc.r))
    case LaunchPassed =>
      s.pc.Launch? && s.app.Some? && t == s.(healthy := s.healthy + {s.app.value}, pc := Clean(s.pc.r))
    case _ => false
  }

  /** The renames, the removals, and the saved receipts. */
  ghost predicate EffectStep(s: State, t: State, effect: Effect) {
    match effect
    case MatchPassed =>
      && s.pc.Match? && MayPass(s.app, s.pc.r)
      && t == s.(installed := s.installed + {s.pc.r}, rollback := Recorded(s, s.pc.r), pc := Idle)
    case MoveAppToBackup =>
      && s.pc.SwapOut? && s.pc.r in s.next && s.app.Some? && s.pc.r !in s.backup
      && t == s.(app := None, backup := s.backup[s.pc.r := s.app.value], pc := SwapIn(s.pc.r))
    case MoveNextToApp(b) =>
      && s.pc.SwapIn? && s.pc.r in s.next && s.app.None?
      && t.app == Some(b)
      && (|| (b == s.next[s.pc.r] && t == s.(app := t.app, next := s.next - {s.pc.r}, pc := Swapped(s.pc.r)))
          || (b.id == s.unusedId && !b.sound
              && t == s.(app := t.app, next := s.next - {s.pc.r}, unusedId := s.unusedId + 1,
                         spoiled := s.spoiled + {b}, pc := Swapped(s.pc.r))))
    case SwapRecorded => s.pc.Swapped? && t == s.(rollback := Recorded(s, s.pc.r), pc := PostVerify(s.pc.r))
    case PostPassed =>
      s.pc.PostVerify? && MayPass(s.app, s.pc.r) && t == s.(installed := s.installed + {s.pc.r}, pc := Idle)
    case MoveAppToNext =>
      && s.pc.RestoreOut? && s.pc.r in s.backup && s.pc.r !in s.next && s.app.Some?
      && t == s.(next := s.next[s.pc.r := s.app.value], app := None, pc := RestoreIn(s.pc.r))
    case MoveBackupToApp =>
      && s.pc.RestoreIn? && s.pc.r in s.backup && s.app.None?
      && t == s.(app := Some(s.backup[s.pc.r]), backup := s.backup - {s.pc.r}, pc := Restored(s.pc.r))
    case RestoreRecorded => s.pc.Restored? && t == s.(rollback := Recorded(s, s.pc.r), pc := Idle)
    case RemoveNext(q) => s.pc.Clean? && Carries(s.app, s.pc.r) && t == s.(next := s.next - {q})
    case RemoveBackup(q) => s.pc.Clean? && Carries(s.app, s.pc.r) && t == s.(backup := s.backup - {q})
    // The cleanup itself reads only the revision. An interrupted removal leaves a damaged sibling behind.
    case LeaveNextRemnant(q, b) =>
      && s.pc.Clean? && Carries(s.app, s.pc.r) && b.id == s.unusedId && q in s.next
      && t == s.(next := s.next[q := b], unusedId := s.unusedId + 1, remnants := s.remnants + {b})
    case LeaveBackupRemnant(q, b) =>
      && s.pc.Clean? && Carries(s.app, s.pc.r) && b.id == s.unusedId && q in s.backup
      && t == s.(backup := s.backup[q := b], unusedId := s.unusedId + 1, remnants := s.remnants + {b})
    case CleanDone =>
      s.pc.Clean? && t == s.(verified := s.verified + {s.pc.r}, rollback := Recorded(s, s.pc.r), pc := Idle)
  }

  ghost predicate Next(s: State, t: State) {
    exists step :: NextStep(s, t, step)
  }

  ghost predicate NextAt(trace: seq<State>, i: nat) {
    i + 1 < |trace| && Next(trace[i], trace[i + 1])
  }

  /** Every run: any sessions of any revisions, ended anywhere. */
  ghost predicate Run(trace: seq<State>) {
    && |trace| > 0
    && trace[0].pc == Idle
    && forall i :: 0 <= i < |trace| - 1 ==> NextAt(trace, i)
  }

  // ---------------------------------------------------------------------------
  // Crash safety

  ghost predicate InBackup(s: State, b: Bundle) {
    exists q :: q in s.backup && s.backup[q] == b
  }

  /** `b` is intact in the application slot or in a retained backup. */
  ghost predicate Held(s: State, b: Bundle) {
    s.app == Some(b) || InBackup(s, b)
  }

  /** Between the two renames and until the new bundle is accepted or rolled back. */
  predicate Exposed(pc: Pc) {
    pc.SwapIn? || pc.Swapped? || pc.PostVerify? || pc.RestoreOut? || pc.RestoreIn?
  }

  ghost predicate Secured(s: State, b: Bundle) {
    Held(s, b) && (Exposed(s.pc) ==> InBackup(s, b))
  }

  /** What the verify session has established when it reaches the launch and the cleanup. */
  ghost predicate PcInv(s: State) {
    && (s.pc.VerifyApp? || s.pc.Launch? || s.pc.Clean? ==> s.pc.r in s.installed)
    && (s.pc.Launch? || s.pc.Clean? ==> MayPass(s.app, s.pc.r) && s.app.value in s.inPlace)
    && (s.pc.Clean? ==> s.app.value in s.healthy)
    && s.healthy <= s.inPlace
  }

  /**
   The only way a held bundle goes: a cleanup of an installed revision, run while another bundle of that
   revision is in the application slot, was verified there and passed the launch check.
   */
  ghost predicate LostToCleanup(s: State, t: State, b: Bundle) {
    && s.pc.Clean? && s.pc.r in s.installed
    && MayPass(s.app, s.pc.r) && t.app == s.app
    && s.app.value != b && s.app.value in s.inPlace && s.app.value in s.healthy
    && InBackup(s, b) && !Held(t, b)
  }

  /** What a session step leaves alone. */
  lemma SessionStepFrame(s: State, t: State, step: Step)
    requires SessionStep(s, t, step)
    ensures t.app == s.app && t.backup == s.backup
    ensures t.installed == s.installed && t.rollback == s.rollback && t.remnants == s.remnants
    ensures s.healthy <= t.healthy && (Exposed(t.pc) ==> Exposed(s.pc) || s.app.None?)
  {
  }

  lemma EffectKeepsHeld(s: State, t: State, effect: Effect, b: Bundle)
    requires PcInv(s) && Secured(s, b) && EffectStep(s, t, effect)
    ensures Secured(t, b) || LostToCleanup(s, t, b)
  {
    if s.app == Some(b) && effect == MoveAppToBackup {
      assert t.backup[s.pc.r] == b;
    } else if InBackup(s, b) {
      var q :| q in s.backup && s.backup[q] == b;
      assert q in t.backup && t.backup[q] == b ==> InBackup(t, b);
    }
  }

  lemma StepKeepsHeld(s: State, t: State, step: Step, b: Bundle)
    requires PcInv(s) && Secured(s, b) && NextStep(s, t, step)
    ensures Secured(t, b) || LostToCleanup(s, t, b)
  {
    if step.Do? {
      EffectKeepsHeld(s, t, step.effect, b);
    } else {
      SessionStepFrame(s, t, step);
      assert InBackup(s, b) ==> InBackup(t, b);
    }
  }

  lemma NextKeepsHeld(s: State, t: State, b: Bundle)
    requires PcInv(s) && Secured(s, b) && Next(s, t)
    ensures Secured(t, b) || LostToCleanup(s, t, b)
  {
    var step :| NextStep(s, t, step);
    StepKeepsHeld(s, t, step, b);
  }

  lemma EffectKeepsPcInv(s: State, t: State, effect: Effect)
    requires PcInv(s) && EffectStep(s, t, effect)
    ensures PcInv(t) && s.healthy == t.healthy
  {
  }

  lemma SessionStepKeepsPcInv(s: State, t: State, step: Step)
    requires PcInv(s) && SessionStep(s, t, step)
    ensures PcInv(t) && s.healthy <= t.healthy
  {
  }

  lemma StepKeepsPcInv(s: State, t: State, step: Step)
    requires PcInv(s) && NextStep(s, t, step)
    ensures PcInv(t) && s.healthy <= t.healthy
  {
    if step.Do? {
      EffectKeepsPcInv(s, t, step.effect);
    } else {
      SessionStepKeepsPcInv(s, t, step);
    }
  }

  lemma {:induction false} RunKeepsPcInv(trace: seq<State>, k: nat)
    requires Run(trace) && PcInv(trace[0]) && k < |trace|
    ensures PcInv(trace[k])
  {
    if k > 0 {
      RunKeepsPcInv(trace, k - 1);
      assert NextAt(trace, k - 1);
      var step :| NextStep(trace[k - 1], trace[k], step);
      StepKeepsPcInv(trace[k - 1], trace[k], step);
    }
  }

  /**
   Crash safety. Whatever bundle is in the application slot when a run starts is, after every step of
   every run, intact in the application slot or in a backup, unless an earlier step of that run was a
   cleanup that removed it in favour of a bundle verified in place and launched.
   */
  lemma {:induction false} OriginalSurvives(trace: seq<State>, original: Bundle, k: nat)
    requires Run(trace) && PcInv(trace[0]) && trace[0].app == Some(original) && k < |trace|
    ensures Secured(trace[k], original)
            || exists i :: 0 <= i < k && LostToCleanup(trace[i], trace[i + 1], original)
  {
    if k > 0 {
      OriginalSurvives(trace, original, k - 1);
      if Secured(trace[k - 1], original) {
        RunKeepsPcInv(trace, k - 1);
        assert NextAt(trace, k - 1);
        NextKeepsHeld(trace[k - 1], trace[k], original);
        assert Secured(trace[k], original) || LostToCleanup(trace[k - 1], trace[k - 1 + 1], original);
      }
    }
  }

  /** A bundle worth keeping: the one the run started with, or one that passed the launch check. */
  ghost predicate Good(s: State, original: Bundle, b: Bundle) {
    b == original || b in s.healthy
  }

  lemma StepKeepsGood(s: State, t: State, step: Step, original: Bundle, b: Bundle) returns (c: Bundle)
    requires PcInv(s) && Good(s, original, b) && Secured(s, b) && NextStep(s, t, step)
    ensures Good(t, original, c) && Secured(t, c)
  {
    StepKeepsHeld(s, t, step, b);
    StepKeepsPcInv(s, t, step);
    c := if Secured(t, b) then b else s.app.value;
  }

  /** Over every run there is always a good bundle to fall back to, however many installs and cleanups there were. */
  lemma {:induction false} GoodBundleAlwaysHeld(trace: seq<State>, original: Bundle, k: nat) returns (b: Bundle)
    requires Run(trace) && PcInv(trace[0]) && trace[0].app == Some(original) && k < |trace|
    ensures Good(trace[k], original, b) && Secured(trace[k], b)
  {
    if k == 0 {
      b := original;
    } else {
      b := GoodBundleAlwaysHeld(trace, original, k - 1);
      RunKeepsPcInv(trace, k - 1);
      assert NextAt(trace, k - 1);
      var step :| NextStep(trace[k - 1], trace[k], step);
      b := StepKeepsGood(trace[k - 1], trace[k], step, original, b);
    }
  }

  // ---------------------------------------------------------------------------
  // Resuming one revision

  /** What resuming the same command can do; `misread` says whether its reads of the revision may fail. */
  predicate Installs(step: Step, r: Revision, misread: bool) {
    match step
    case BeginInstall(q) => q == r
    case BeginVerify(_) => false
    case ProbeFails => misread
    case _ => true
  }

  ghost predicate Finished(s: State, r: Revision) {
    s.pc == Idle && r in s.installed && MayPass(s.app, r)
  }

  /** Something is in the application slot, and `r` already has a retained backup. */
  predicate NeedsReconciling(s: State, r: Revision) {
    s.app.Some? && r in s.backup
  }

  /**
   Whether resuming the installation of `r` from an idle state can still complete it. A bad application that
   carries `r` is only ever replaced by a session that fails to read its revision.
   */
  predicate Resumable(s: State, r: Revision, misread: bool) {
    MayPass(s.app, r)
    || (&& r !in s.installed && r in s.staged
        && !NeedsReconciling(s, r)
        && (r in s.next ==> MayPass(Slot(s.next, r), r))
        && (Carries(s.app, r) ==> misread))
  }

  /** Before a session of `r` looks at the staged copy. */
  predicate Early(pc: Pc) {
    pc.Idle? || pc.InstallStart? || pc.Probe? || pc.Match?
  }

  /** Where a session of `r` can be while it cannot complete, and why. */
  ghost predicate Stuck(s: State, r: Revision, misread: bool) {
    && !MayPass(s.app, r)
    && (s.pc.Idle? || s.pc.r == r)
    && (|| (r in s.installed && (s.pc.Idle? || s.pc.InstallStart? || s.pc.Recheck?))
        || (r !in s.installed
            && (|| (Early(s.pc) && Carries(s.app, r) && !misread)
                || ((Early(s.pc) || s.pc.VerifyStaged?) && r !in s.staged)
                || ((Early(s.pc) || s.pc.VerifyStaged? || s.pc.VerifyNext?)
                    && r in s.next && !MayPass(Slot(s.next, r), r))
                || ((Early(s.pc) || s.pc.VerifyStaged? || s.pc.Copying? || s.pc.VerifyNext? || s.pc.Quitting?
                     || s.pc.SwapOut?)
                    && NeedsReconciling(s, r)))))
  }

  lemma SessionStepKeepsStuck(s: State, t: State, step: Step, r: Revision, misread: bool)
    requires Stuck(s, r, misread) && Installs(step, r, misread) && SessionStep(s, t, step)
    ensures Stuck(t, r, misread)
  {
  }

  /** No effect is enabled where a stuck session can be. */
  lemma StepKeepsStuck(s: State, t: State, step: Step, r: Revision, misread: bool)
    requires Stuck(s, r, misread) && Installs(step, r, misread) && NextStep(s, t, step)
    ensures Stuck(t, r, misread)
  {
    if !step.Do? {
      SessionStepKeepsStuck(s, t, step, r, misread);
    }
  }

  /** `step` leads from `s` to `t` in a session of `r`. */
  ghost predicate Leads(s: State, t: State, r: Revision, misread: bool) {
    exists step :: Installs(step, r, misread) && NextStep(s, t, step)
  }

  lemma By(s: State, t: State, r: Revision, misread: bool, step: Step)
    requires Installs(step, r, misread) && NextStep(s, t, step)
    ensures Leads(s, t, r, misread)
  {
  }

  ghost predicate LeadsAt(trace: seq<State>, i: nat, r: Revision, misread: bool) {
    i + 1 < |trace| && Leads(trace[i], trace[i + 1], r, misread)
  }

  /** A run of sessions of `r` from an idle state. */
  ghost predicate InstallRun(trace: seq<State>, r: Revision, misread: bool) {
    && |trace| > 0 && trace[0].pc == Idle
    && forall i :: 0 <= i < |trace| - 1 ==> LeadsAt(trace, i, r, misread)
  }

  lemma Extend(trace: seq<State>, t: State, r: Revision, misread: bool) returns (longer: seq<State>)
    requires InstallRun(trace, r, misread) && Leads(trace[|trace| - 1], t, r, misread)
    ensures longer == trace + [t] && InstallRun(longer, r, misread)
  {
    longer := trace + [t];
    forall i | 0 <= i < |longer| - 1
      ensures LeadsAt(longer, i, r, misread)
    {
      assert i < |trace| - 1 ==> LeadsAt(trace, i, r, misread);
    }
  }

  /** A session that finds `r` in the application slot and has not recorded it. */
  lemma MatchAndRecord(s: State, r: Revision, misread: bool) returns (s1: State, s2: State, s3: State)
    requires s.pc == InstallStart(r) && MayPass(s.app, r) && r !in s.installed
    ensures Leads(s, s1, r, misread) && Leads(s1, s2, r, misread) && Leads(s2, s3, r, misread) && Finished(s3, r)
  {
    s1, s2 := s.(pc := Probe(r)), s.(pc := Match(r));
    s3 := s.(pc := Idle, installed := s.installed + {r}, rollback := Recorded(s, r));
    By(s, s1, r, misread, ReadReceipt);
    By(s1, s2, r, misread, ProbeMatches);
    By(s2, s3, r, misread, Do(MatchPassed));
  }

  /** The application already is `r`: the session only has to record it. */
  lemma RecordInstalled(s: State, r: Revision, misread: bool) returns (trace: seq<State>)
    requires s.pc == Idle && MayPass(s.app, r)
    ensures InstallRun(trace, r, misread) && trace[0] == s && Finished(trace[|trace| - 1], r)
  {
    trace := [s];
    if r !in s.installed {
      var s1 := s.(pc := InstallStart(r));
      By(s, s1, r, misread, BeginInstall(r));
      var s2, s3, s4 := MatchAndRecord(s1, r, misread);
      trace := Extend(trace, s1, r, misread);
      trace := Extend(trace, s2, r, misread);
      trace := Extend(trace, s3, r, misread);
      trace := Extend(trace, s4, r, misread);
    }
  }

  /** The session finds that it has to copy and swap. */
  lemma ReachStagedCheck(s: State, r: Revision, misread: bool) returns (trace: seq<State>)
    requires s.pc == Idle && r !in s.installed && (Carries(s.app, r) ==> misread)
    ensures InstallRun(trace, r, misread) && trace[0] == s && trace[|trace| - 1] == s.(pc := VerifyStaged(r))
  {
    var s1, s2, s3 := s.(pc := InstallStart(r)), s.(pc := Probe(r)), s.(pc := VerifyStaged(r));
    By(s, s1, r, misread, BeginInstall(r));
    By(s1, s2, r, misread, ReadReceipt);
    By(s2, s3, r, misread, if Carries(s.app, r) then ProbeFails else ProbeDiffers);
    trace := Extend([s], s1, r, misread);
    trace := Extend(trace, s2, r, misread);
    trace := Extend(trace, s3, r, misread);
  }

  /** From a fresh copy, or a retained one, to the point where `next` has passed its first check. */
  lemma ReachCopy(s: State, r: Revision, misread: bool) returns (trace: seq<State>)
    requires s.pc == Idle && r !in s.installed && r in s.staged && (Carries(s.app, r) ==> misread)
    requires r in s.next ==> MayPass(Slot(s.next, r), r)
    ensures InstallRun(trace, r, misread) && trace[0] == s
    ensures var t := trace[|trace| - 1];
            && t.pc == VerifyNext(r) && t.app == s.app && t.backup == s.backup && t.installed == s.installed
            && MayPass(Slot(t.next, r), r)
  {
    trace := ReachStagedCheck(s, r, misread);
    var s3 := s.(pc := VerifyStaged(r));
    if r in s.next {
      var s4 := s.(pc := VerifyNext(r));
      By(s3, s4, r, misread, StagedPassed);
      trace := Extend(trace, s4, r, misread);
    } else {
      var s4, s5, s6 := CopyAfresh(s3, r, misread);
      trace := Extend(trace, s4, r, misread);
      trace := Extend(trace, s5, r, misread);
      trace := Extend(trace, s6, r, misread);
    }
  }

  /** With no retained copy, one write makes a whole one. */
  lemma CopyAfresh(s: State, r: Revision, misread: bool) returns (s1: State, s2: State, s3: State)
    requires s.pc == VerifyStaged(r) && r in s.staged && r !in s.next
    ensures Leads(s, s1, r, misread) && Leads(s1, s2, r, misread) && Leads(s2, s3, r, misread)
    ensures s3.pc == VerifyNext(r) && s3.app == s.app && s3.backup == s.backup && s3.installed == s.installed
    ensures MayPass(Slot(s3.next, r), r)
  {
    var b := Bundle(s.unusedId, Some(r), true);
    s1 := s.(pc := Copying(r));
    s2 := s1.(next := s.next[r := b], unusedId := s.unusedId + 1);
    s3 := s2.(pc := VerifyNext(r));
    By(s, s1, r, misread, StagedPassed);
    By(s1, s2, r, misread, CopyWrite(b));
    By(s2, s3, r, misread, CopyDone);
  }

  /** Up to the swap: `next` passed both checks, application and backup are untouched. */
  lemma ReachSwap(s: State, r: Revision, misread: bool) returns (trace: seq<State>)
    requires s.pc == Idle && r !in s.installed && r in s.staged && (Carries(s.app, r) ==> misread)
    requires r in s.next ==> MayPass(Slot(s.next, r), r)
    ensures InstallRun(trace, r, misread) && trace[0] == s
    ensures var t := trace[|trace| - 1];
            && t.pc == SwapOut(r) && t.app == s.app && t.backup == s.backup && t.installed == s.installed
            && MayPass(Slot(t.next, r), r)
  {
    trace := ReachCopy(s, r, misread);
    var t := trace[|trace| - 1];
    var t1, t2 := t.(pc := Quitting(r)), t.(pc := SwapOut(r));
    By(t, t1, r, misread, NextPassed);
    By(t1, t2, r, misread, QuitPassed);
    trace := Extend(trace, t1, r, misread);
    trace := Extend(trace, t2, r, misread);
  }

  /** The two renames. */
  lemma SwapIntoPlace(s: State, r: Revision, misread: bool) returns (s1: State, s2: State)
    requires s.pc == SwapOut(r) && MayPass(Slot(s.next, r), r) && !NeedsReconciling(s, r)
    ensures Leads(s, s1, r, misread) && Leads(s1, s2, r, misread) && s2.pc == Swapped(r) && MayPass(s2.app, r)
  {
    if s.app.Some? {
      s1 := s.(app := None, backup := s.backup[r := s.app.value], pc := SwapIn(r));
      By(s, s1, r, misread, Do(MoveAppToBackup));
    } else {
      s1 := s.(pc := SwapIn(r));
      By(s, s1, r, misread, NoAppToMove);
    }
    s2 := s1.(app := Some(s1.next[r]), next := s1.next - {r}, pc := Swapped(r));
    By(s1, s2, r, misread, Do(MoveNextToApp(s1.next[r])));
  }

  /** The new bundle passes in place and is recorded. */
  lemma AcceptSwapped(s: State, r: Revision, misread: bool) returns (s1: State, s2: State)
    requires s.pc == Swapped(r) && MayPass(s.app, r)
    ensures Leads(s, s1, r, misread) && Leads(s1, s2, r, misread) && Finished(s2, r)
  {
    s1 := s.(rollback := Recorded(s, r), pc := PostVerify(r));
    By(s, s1, r, misread, Do(SwapRecorded));
    s2 := s1.(installed := s1.installed + {r}, pc := Idle);
    By(s1, s2, r, misread, Do(PostPassed));
  }

  lemma ResumableCanFinish(s: State, r: Revision, misread: bool) returns (trace: seq<State>)
    requires s.pc == Idle && Resumable(s, r, misread)
    ensures InstallRun(trace, r, misread) && trace[0] == s && Finished(trace[|trace| - 1], r)
  {
    if MayPass(s.app, r) {
      trace := RecordInstalled(s, r, misread);
    } else {
      var prefix := ReachSwap(s, r, misread);
      var s1, s2 := SwapIntoPlace(prefix[|prefix| - 1], r, misread);
      var s3, s4 := AcceptSwapped(s2, r, misread);
      trace := Extend(prefix, s1, r, misread);
      trace := Extend(trace, s2, r, misread);
      trace := Extend(trace, s3, r, misread);
      trace := Extend(trace, s4, r, misread);
    }
  }

  lemma {:induction false} StuckNeverFinishes(trace: seq<State>, r: Revision, misread: bool, k: nat)
    requires InstallRun(trace, r, misread) && !Resumable(trace[0], r, misread) && k < |trace|
    ensures Stuck(trace[k], r, misread) && !Finished(trace[k], r)
  {
    if k > 0 {
      StuckNeverFinishes(trace, r, misread, k - 1);
      assert LeadsAt(trace, k - 1, r, misread);
      var step :| Installs(step, r, misread) && NextStep(trace[k - 1], trace[k], step);
      StepKeepsStuck(trace[k - 1], trace[k], step, r, misread);
    }
  }

  /**
   Resuming is exactly as good as its starting point: from an idle state some run of sessions of `r` ends
   with `r` installed and recorded if and only if the state is Resumable. No amount of resuming completes a
   retained copy that is not sound, anything in the application slot beside a backup of `r`, a receipt that
   claims an installation that is gone or bad, or a missing staged copy. A bad application that carries `r`
   and has no backup beside it is replaced only if some read of its revision fails.
   */
  lemma ResumeCompletesIff(s: State, r: Revision, misread: bool)
    requires s.pc == Idle
    ensures Resumable(s, r, misread) <==>
            exists trace :: InstallRun(trace, r, misread) && trace[0] == s && Finished(trace[|trace| - 1], r)
  {
    if Resumable(s, r, misread) {
      var trace := ResumableCanFinish(s, r, misread);
    }
    forall trace | InstallRun(trace, r, misread) && trace[0] == s && !Resumable(s, r, misread)
      ensures !Finished(trace[|trace| - 1], r)
    {
      StuckNeverFinishes(trace, r, misread, |trace| - 1);
    }
  }

  /**
   The refusal is reachable: wherever an installation can replace an application, the new bundle may go bad on
   its way in and the session end before the check in place. Then nothing resumes it: the application reads as
   `r`, its check fails, and the original stays in the backup.
   */
  lemma SpoiledSwapBlocks(s: State, r: Revision) returns (trace: seq<State>)
    requires s.pc == Idle && s.app.Some? && !Carries(s.app, r) && Resumable(s, r, false)
    ensures InstallRun(trace, r, false) && trace[0] == s
    ensures var t := trace[|trace| - 1];
            && t.pc == Idle && !Resumable(t, r, true)
            && Carries(t.app, r) && Slot(t.backup, r) == s.app && t.installed == s.installed
  {
    trace := ReachSwap(s, r, false);
    var t := trace[|trace| - 1];
    var b := Bundle(t.unusedId, Some(r), false);
    var t1, t2 := SpoilSwap(t, r, b);
    var t3 := t2.(pc := Idle);
    By(t2, t3, r, false, EndSession);
    trace := Extend(trace, t1, r, false);
    trace := Extend(trace, t2, r, false);
    trace := Extend(trace, t3, r, false);
  }

  /** The two renames, with the new bundle going bad. */
  lemma SpoilSwap(s: State, r: Revision, b: Bundle) returns (s1: State, s2: State)
    requires s.pc == SwapOut(r) && r in s.next && s.app.Some? && r !in s.backup
    requires b == Bundle(s.unusedId, Some(r), false)
    ensures Leads(s, s1, r, false) && Leads(s1, s2, r, false)
    ensures s2.app == Some(b) && Slot(s2.backup, r) == s.app && s2.installed == s.installed
  {
    s1 := s.(app := None, backup := s.backup[r := s.app.value], pc := SwapIn(r));
    By(s, s1, r, false, Do(MoveAppToBackup));
    s2 := s1.(app := Some(b), next := s1.next - {r}, unusedId := s.unusedId + 1, spoiled := s.spoiled + {b},
              pc := Swapped(r));
    By(s1, s2, r, false, Do(MoveNextToApp(b)));
  }

  // ---------------------------------------------------------------------------
  // What a session that was not cut short leaves behind

  ghost predicate StepAt(trace: seq<State>, steps: seq<Step>, m: nat) {
    m < |steps| && m + 1 < |trace| && NextStep(trace[m], trace[m + 1], steps[m])
  }

  /** One session, from an idle state `i` to the state `k`, idle only at its ends. */
  ghost predicate Session(trace: seq<State>, steps: seq<Step>, i: nat, k: nat) {
    && i < k < |trace| && k <= |steps| && trace[i].pc.Idle?
    && (forall m :: i <= m < k ==> StepAt(trace, steps, m))
    && (forall m :: i < m < k ==> !trace[m].pc.Idle?)
  }

  /** What a failed installation has to bring back: the application, or what an earlier session had moved out. */
  function Original(s: State, r: Revision): Option<Bundle> {
    if s.app.Some? then s.app else Slot(s.backup, r)
  }

  /** The original is in the backup of `r`, and no other backup has changed. */
  predicate KeptInBackup(s0: State, s: State, r: Revision) {
    Slot(s.backup, r) == Original(s0, r) && s.backup - {r} == s0.backup - {r}
  }

  /** The rollback entry of `r` is there exactly beside a backup, and names its revision. */
  predicate EntryFits(s0: State, s: State, r: Revision) {
    && s.rollback - {r} == s0.rollback - {r}
    && (r in s.rollback <==> r in s.backup)
    && (r in s.rollback ==> s.rollback[r] == s.backup[r].revision)
  }

  /** Nothing happened but a check of the application, and the receipt says so. */
  predicate FoundInPlace(s0: State, s: State, r: Revision) {
    && s.app == s0.app && MayPass(s.app, r) && s.backup == s0.backup && s.installed == s0.installed + {r}
    && (if r in s0.installed then s.rollback == s0.rollback else EntryFits(s0, s, r))
  }

  /** A sound bundle of `r` was brought in, the original is in the backup, and the receipt says both. */
  predicate Installed(s0: State, s: State, r: Revision, b: Option<Bundle>) {
    && s.app == b && MayPass(b, r) && r !in s.next && KeptInBackup(s0, s, r)
    && s.installed == s0.installed + {r} && EntryFits(s0, s, r)
  }

  /**
   The bundle that was brought in was rejected: the original is back in the application slot and the rejected
   bundle beside it; only where there was no original does the rejected bundle stay.
   */
  predicate RolledBack(s0: State, s: State, r: Revision, b: Option<Bundle>) {
    && s.installed == s0.installed && r !in s.backup && r !in s.rollback
    && s.backup == s0.backup - {r} && s.rollback == s0.rollback - {r}
    && (if Original(s0, r).Some? then s.app == Original(s0, r) && Slot(s.next, r) == b
        else s.app == b && r !in s.next)
  }

  /** Before the first rename. */
  predicate NothingMoved(pc: Pc) {
    pc.InstallStart? || pc.Recheck? || pc.Probe? || pc.Match? || pc.VerifyStaged? || pc.Copying? || pc.VerifyNext?
    || pc.Quitting? || pc.SwapOut?
  }

  /** Where things are inside an installation that began in `s0` and brought in `b`. */
  predicate Underway(s0: State, s: State, r: Revision, b: Option<Bundle>) {
    && !s.pc.Idle? && s.pc.r == r && s.installed == s0.installed
    && (NothingMoved(s.pc) ==> s.app == s0.app && s.backup == s0.backup)
    && (NothingMoved(s.pc) || s.pc.SwapIn? || s.pc.Swapped? ==> s.rollback == s0.rollback)
    && (s.pc.Recheck? ==> r in s0.installed)
    && (NothingMoved(s.pc) && !s.pc.Recheck? && !s.pc.InstallStart? ==> r !in s0.installed)
    && (Exposed(s.pc) ==> KeptInBackup(s0, s, r))
    && (s.pc.SwapIn? || s.pc.RestoreIn? ==> s.app.None?)
    && (s.pc.Swapped? || s.pc.PostVerify? || s.pc.RestoreOut? ==> s.app == b && b.Some? && r !in s.next)
    && (s.pc.PostVerify? || s.pc.RestoreOut? || s.pc.RestoreIn? ==> EntryFits(s0, s, r))
    && (s.pc.RestoreIn? ==> Slot(s.next, r) == b && r in s.backup)
    && (s.pc.Restored? ==> RolledBack(s0, s.(rollback := s.rollback - {r}), r, b))
    && (NothingMoved(s.pc) || Exposed(s.pc) || s.pc.Restored?)
  }

  lemma EffectKeepsUnderway(s0: State, s: State, t: State, effect: Effect, r: Revision, b: Option<Bundle>)
    requires Underway(s0, s, r, b) && EffectStep(s, t, effect) && !t.pc.Idle?
    ensures Underway(s0, t, r, if effect.MoveNextToApp? then t.app else b)
  {
  }

  lemma SessionStepKeepsUnderway(s0: State, s: State, t: State, step: Step, r: Revision, b: Option<Bundle>)
    requires Underway(s0, s, r, b) && SessionStep(s, t, step) && !t.pc.Idle?
    ensures Underway(s0, t, r, b)
  {
  }

  lemma StepKeepsUnderway(s0: State, s: State, t: State, step: Step, r: Revision, b: Option<Bundle>)
    requires Underway(s0, s, r, b) && NextStep(s, t, step) && !t.pc.Idle?
    ensures Underway(s0, t, r, if BringsIn(step) then t.app else b)
  {
    if step.Do? {
      EffectKeepsUnderway(s0, s, t, step.effect, r, b);
    } else {
      SessionStepKeepsUnderway(s0, s, t, step, r, b);
    }
  }

  predicate BringsIn(step: Step) {
    step.Do? && step.effect.MoveNextToApp?
  }

  lemma EffectEndsUnderway(s0: State, s: State, t: State, effect: Effect, r: Revision, b: Option<Bundle>)
    requires Underway(s0, s, r, b) && EffectStep(s, t, effect) && t.pc.Idle?
    ensures FoundInPlace(s0, t, r) || Installed(s0, t, r, b) || RolledBack(s0, t, r, b)
    ensures FoundInPlace(s0, t, r) || !(NothingMoved(s.pc) || s.pc.SwapIn?)
  {
  }

  lemma SessionStepEndsUnderway(s0: State, s: State, t: State, step: Step, r: Revision, b: Option<Bundle>)
    requires Underway(s0, s, r, b) && SessionStep(s, t, step) && t.pc.Idle? && !step.EndSession?
    ensures FoundInPlace(s0, t, r)
  {
    assert s.pc.Recheck?;
    assert s0.installed + {r} == s0.installed;
  }

  /** In state `m` the bundle was brought in: the prepared one, unless it went bad on its way. */
  predicate BroughtIn(trace: seq<State>, m: nat, r: Revision) {
    && 0 < m < |trace| && trace[m].app.Some?
    && (trace[m].app == Slot(trace[m - 1].next, r) || trace[m].app.value in trace[m].spoiled)
  }

  lemma BringingIn(s: State, t: State, step: Step, r: Revision)
    requires NextStep(s, t, step) && !s.pc.Idle? && s.pc.r == r && BringsIn(step)
    ensures t.app.Some? && (t.app == Slot(s.next, r) || t.app.value in t.spoiled)
  {
  }

  /** Only bringing a bundle in gets past the second rename. */
  lemma PastTheRenames(s: State, t: State, step: Step)
    requires NextStep(s, t, step) && !s.pc.Idle? && (NothingMoved(s.pc) || s.pc.SwapIn?) && !t.pc.Idle?
    ensures NothingMoved(t.pc) || t.pc.SwapIn? || BringsIn(step)
  {
  }

  lemma {:induction false} InstallationUnderway(trace: seq<State>, steps: seq<Step>, i: nat, k: nat, r: Revision)
    returns (m: nat)
    requires Session(trace, steps, i, k) && steps[i] == BeginInstall(r) && !trace[k].pc.Idle?
    ensures i < m <= k && Underway(trace[i], trace[k], r, trace[m].app)
    ensures NothingMoved(trace[k].pc) || trace[k].pc.SwapIn? || BroughtIn(trace, m, r)
  {
    assert StepAt(trace, steps, k - 1);
    if k == i + 1 {
      m := k;
    } else {
      m := InstallationUnderway(trace, steps, i, k - 1, r);
      StepKeepsUnderway(trace[i], trace[k - 1], trace[k], steps[k - 1], r, trace[m].app);
      if BringsIn(steps[k - 1]) {
        m := k;
        BringingIn(trace[k - 1], trace[k], steps[k - 1], r);
      } else if NothingMoved(trace[k - 1].pc) || trace[k - 1].pc.SwapIn? {
        PastTheRenames(trace[k - 1], trace[k], steps[k - 1]);
      }
    }
  }

  /**
   What an installation leaves when it is not cut short, over every run: the application was already `r`; or a
   sound bundle of `r` is in place with the original in its backup; or the bundle brought in state `m` was
   rejected and the original is back, with no backup and no rollback entry.
   */
  lemma InstallationOutcome(trace: seq<State>, steps: seq<Step>, i: nat, k: nat, r: Revision) returns (m: nat)
    requires Session(trace, steps, i, k) && steps[i] == BeginInstall(r)
    requires trace[k].pc.Idle? && !steps[k - 1].EndSession?
    ensures i < m <= k
    ensures || FoundInPlace(trace[i], trace[k], r)
            || (BroughtIn(trace, m, r)
                && (Installed(trace[i], trace[k], r, trace[m].app) || RolledBack(trace[i], trace[k], r, trace[m].app)))
  {
    m := k;
    assert StepAt(trace, steps, k - 1);
    if k > i + 1 {
      m := InstallationUnderway(trace, steps, i, k - 1, r);
      InstallationEnds(trace[i], trace[k - 1], trace[k], steps[k - 1], r, trace[m].app);
    }
  }

  lemma InstallationEnds(s0: State, s: State, t: State, step: Step, r: Revision, b: Option<Bundle>)
    requires Underway(s0, s, r, b) && NextStep(s, t, step) && t.pc.Idle? && !step.EndSession?
    ensures || FoundInPlace(s0, t, r)
            || (!NothingMoved(s.pc) && !s.pc.SwapIn? && (Installed(s0, t, r, b) || RolledBack(s0, t, r, b)))
  {
    if step.Do? {
      EffectEndsUnderway(s0, s, t, step.effect, r, b);
    } else {
      SessionStepEndsUnderway(s0, s, t, step, r, b);
    }
  }

  /** Backups are only removed, or damaged by a removal. */
  predicate OnlyCleaned(s0: State, s: State) {
    forall q :: q in s.backup ==> q in s0.backup && (s.backup[q] == s0.backup[q] || s.backup[q] in s.remnants)
  }

  /** Where things are inside a verification of `r` that began in `s0`. */
  predicate Verifying(s0: State, s: State, r: Revision) {
    && (s.pc.VerifyStart? || s.pc.VerifyApp? || s.pc.Launch? || s.pc.Clean?) && s.pc.r == r
    && s.app == s0.app && s.installed == s0.installed && s.verified == s0.verified && s.rollback == s0.rollback
    && s0.remnants <= s.remnants && OnlyCleaned(s0, s)
    && (!s.pc.VerifyStart? ==> r in s.installed)
    && (s.pc.Launch? || s.pc.Clean? ==> MayPass(s.app, r) && s.app.value in s.inPlace)
    && (s.pc.Clean? ==> s.app.value in s.healthy)
    && (!s.pc.Clean? ==> s.backup == s0.backup)
  }

  lemma EffectKeepsVerifying(s0: State, s: State, t: State, effect: Effect, r: Revision)
    requires Verifying(s0, s, r) && EffectStep(s, t, effect) && !t.pc.Idle?
    ensures Verifying(s0, t, r)
  {
  }

  lemma SessionStepKeepsVerifying(s0: State, s: State, t: State, step: Step, r: Revision)
    requires Verifying(s0, s, r) && SessionStep(s, t, step) && !t.pc.Idle?
    ensures Verifying(s0, t, r)
  {
  }

  lemma {:induction false} VerificationUnderway(trace: seq<State>, steps: seq<Step>, i: nat, k: nat, r: Revision)
    requires Session(trace, steps, i, k) && steps[i] == BeginVerify(r) && !trace[k].pc.Idle?
    ensures Verifying(trace[i], trace[k], r)
  {
    assert StepAt(trace, steps, k - 1);
    if k > i + 1 {
      VerificationUnderway(trace, steps, i, k - 1, r);
      if steps[k - 1].Do? {
        EffectKeepsVerifying(trace[i], trace[k - 1], trace[k], steps[k - 1].effect, r);
      } else {
        SessionStepKeepsVerifying(trace[i], trace[k - 1], trace[k], steps[k - 1], r);
      }
    }
  }

  /**
   What a verification leaves when it is not cut short: the application it found, installed, sound and launched,
   is recorded as verified, and the rollback entry fits what the cleanup left of the backup.
   */
  lemma VerificationOutcome(trace: seq<State>, steps: seq<Step>, i: nat, k: nat, r: Revision)
    requires Session(trace, steps, i, k) && steps[i] == BeginVerify(r)
    requires trace[k].pc.Idle? && !steps[k - 1].EndSession?
    ensures var s0, s := trace[i], trace[k];
            && s.app == s0.app && MayPass(s.app, r) && s.app.value in s.inPlace && s.app.value in s.healthy
            && r in s.installed && s.installed == s0.installed && s.verified == s0.verified + {r}
            && OnlyCleaned(s0, s) && EntryFits(s0, s, r)
  {
    assert StepAt(trace, steps, k - 1);
    if k > i + 1 {
      VerificationUnderway(trace, steps, i, k - 1, r);
    }
  }

  // ---------------------------------------------------------------------------
  // What the receipt says about the way back

  /** The receipt names the retained backup of `q`; an interrupted removal may have damaged it since. */
  predicate Named(s: State, q: Revision) {
    q in s.backup ==> q in s.rollback && (s.rollback[q] == s.backup[q].revision || s.backup[q] in s.remnants)
  }

  /** Past the check that the receipt does not record this installation yet. */
  predicate Installing(pc: Pc) {
    pc.Probe? || pc.Match? || pc.VerifyStaged? || pc.Copying? || pc.VerifyNext? || pc.Quitting? || pc.SwapOut?
    || Exposed(pc) || pc.Restored?
  }

  ghost predicate RollbackInv(s: State) {
    && (forall q :: q in s.installed ==> Named(s, q))
    && (Installing(s.pc) ==> s.pc.r !in s.installed)
    && (s.pc.PostVerify? ==> Named(s, s.pc.r))
  }

  lemma SessionStepKeepsRollback(s: State, t: State, step: Step)
    requires RollbackInv(s) && SessionStep(s, t, step)
    ensures RollbackInv(t)
  {
    SessionStepFrame(s, t, step);
    assert forall q :: q in t.installed ==> Named(s, q) && Named(t, q);
  }

  /** Once `q` is recorded, its backup only changes in a cleanup. */
  lemma EffectKeepsNamed(s: State, t: State, effect: Effect, q: Revision)
    requires RollbackInv(s) && EffectStep(s, t, effect) && q in t.installed
    ensures Named(t, q)
  {
    assert q in s.installed ==> Named(s, q);
  }

  lemma EffectKeepsInstalling(s: State, t: State, effect: Effect)
    requires RollbackInv(s) && EffectStep(s, t, effect)
    ensures Installing(t.pc) ==> t.pc.r !in t.installed
    ensures t.pc.PostVerify? ==> Named(t, t.pc.r)
  {
  }

  lemma StepKeepsRollback(s: State, t: State, step: Step)
    requires RollbackInv(s) && NextStep(s, t, step)
    ensures RollbackInv(t)
  {
    if !step.Do? {
      SessionStepKeepsRollback(s, t, step);
    } else {
      EffectKeepsInstalling(s, t, step.effect);
      forall q | q in t.installed
        ensures Named(t, q)
      {
        EffectKeepsNamed(s, t, step.effect, q);
      }
    }
  }

  /**
   Over every run, crashes and cleanups of any revision included: when a receipt records an installation
   whose backup is still there, its rollback entry is there too and names that backup's revision, unless an
   interrupted removal damaged the backup since.
   */
  lemma {:induction false} InstalledNamesItsBackup(trace: seq<State>, r: Revision, k: nat)
    requires Run(trace) && trace[0].installed == {} && k < |trace|
    ensures RollbackInv(trace[k])
    ensures r in trace[k].installed ==> Named(trace[k], r)
  {
    if k > 0 {
      InstalledNamesItsBackup(trace, r, k - 1);
      assert NextAt(trace, k - 1);
      var step :| NextStep(trace[k - 1], trace[k], step);
      StepKeepsRollback(trace[k - 1], trace[k], step);
    }
  }

  // ---------------------------------------------------------------------------
  // One revision at a time never needs reconciling

  /** In the application slot: `r` as checked, or what it became on its way in. */
  predicate SwappedIn(s: State, r: Revision) {
    MayPass(s.app, r) || (s.app.Some? && s.app.value in s.spoiled)
  }

  /** Every step so far belonged to sessions of `r`, over an application that was not `r`. */
  ghost predicate SoleInv(s: State, r: Revision) {
    && (s.pc.Idle? || s.pc.r == r)
    && (NeedsReconciling(s, r) ==> SwappedIn(s, r))
    && (s.pc.SwapOut? ==> MayPass(Slot(s.next, r), r))
    && (s.pc.SwapIn? ==> s.app.None? && MayPass(Slot(s.next, r), r))
    && (s.pc.Swapped? || s.pc.PostVerify? || s.pc.RestoreOut? ==> SwappedIn(s, r))
    && (s.pc.RestoreIn? ==> s.app.None?)
  }

  predicate Sole(step: Step, r: Revision) {
    match step
    case BeginInstall(q) => q == r
    case BeginVerify(q) => q == r
    case _ => true
  }

  lemma EffectKeepsSoleInv(s: State, t: State, effect: Effect, r: Revision)
    requires SoleInv(s, r) && EffectStep(s, t, effect)
    ensures SoleInv(t, r)
  {
  }

  lemma SessionStepKeepsSoleInv(s: State, t: State, step: Step, r: Revision)
    requires SoleInv(s, r) && Sole(step, r) && SessionStep(s, t, step)
    ensures SoleInv(t, r)
  {
  }

  lemma StepKeepsSoleInv(s: State, t: State, step: Step, r: Revision)
    requires SoleInv(s, r) && Sole(step, r) && NextStep(s, t, step)
    ensures SoleInv(t, r)
  {
    if step.Do? {
      EffectKeepsSoleInv(s, t, step.effect, r);
    } else {
      SessionStepKeepsSoleInv(s, t, step, r);
    }
  }

  /**
   While only one revision is being installed, over every crash, restore and resume, the script's refusal
   "retained backup and installed bundle both exist" can only meet an application that already is that
   revision, or that went bad between the last check and the check in place.
   */
  lemma {:induction false} SoleRevisionNeverBlocks(trace: seq<State>, steps: seq<Step>, r: Revision, k: nat)
    requires |trace| == |steps| + 1 && k < |trace|
    requires trace[0].pc == Idle && r !in trace[0].backup
    requires forall i :: 0 <= i < |steps| ==> Sole(steps[i], r) && NextStep(trace[i], trace[i + 1], steps[i])
    ensures SoleInv(trace[k], r)
    ensures NeedsReconciling(trace[k], r) ==> MayPass(trace[k].app, r) || trace[k].app.value in trace[k].spoiled
  {
    if k > 0 {
      SoleRevisionNeverBlocks(trace, steps, r, k - 1);
      StepKeepsSoleInv(trace[k - 1], trace[k], steps[k - 1], r);
    }
  }
}
