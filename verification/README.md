# Models of the release, secret, scheduling and retention protocols

Dafny models of Opensteer's release, installation, storage and evaluation tooling, with proofs of what those
scripts are for. Each module models one component, on the component's own state: bundle slots and receipts,
inodes and link counts, queues and workers, release stores, byte buffers, process tables.

- `MacSwap.dfy` - the two-rename application swap, its restore path, resume and cleanup, for one application
  path and any number of revisions, one session at a time, with a crash possible between any two effects.
- `MacPhases.dfy` - build, submit, wait, staple, stage, install and verify over a persistent receipt, and the
  Agent Phone build, with crashes and resumes.
- `Secrets.dfy`, `SecretText.dfy` - any number of concurrent self-host initializers over one directory, and the
  text a secret file may hold.
- `Pool.dfy` - the two-worker preparation pool as a class, and every run of it.
- `Versions.dfy`, `Text.dfy`, `Channel.dfy` - version order on strings, and the draft/publish protocol over a
  release store in which anyone may rewrite drafts, between actions and between the reads and the PATCH of one.
- `RunScan.dfy`, `Retention.dfy` - the streaming run-ID scanner over a reused buffer, and what a retention pass
  may remove.
- `DevStack.dfy` - the re-entrant shutdown machine of the development stack.
- `PhoneCache.dfy` - the crash-tolerant artifact cache for one key, with eviction, damage and changing inputs.
- `Rerun.dfy` - same-SHA rerun comparison and decision.
- `AppTree.dfy` - the app-tree inventory and the comparison of two inventories.
- `Grader.dfy`, `TurnClock.dfy`, `ProcessClosure.dfy` - greedy trace grading, turn timing, process-tree closure.

Verify with `dafny verify dfyconfig.toml`.

## Where the code does less than one might expect

Each of these is a proved statement, with the exact condition under which the code does meet the expectation.

- Resuming an installation does not always complete it. `MacSwap.ResumeCompletesIff` gives the condition. What
  blocks it is a retained copy that is not sound, whatever its Info.plist says, anything bad or foreign beside a
  backup of the revision, a bad application that carries the revision, a receipt that claims an installation
  that is gone or bad, and a staged copy that is not sound. Of these, only the bad application that carries the
  revision, with no backup beside it, can still be replaced: by a session that fails to read its revision and so
  takes it for another one. `MacSwap.SpoiledSwapBlocks` reaches a blocked state from every installation that
  replaces an application, `MacSwap.SoleRevisionNeverBlocks` says what else a single revision can meet.
- A submission or an Agent Phone build whose outcome is unknown blocks resuming: `MacPhases.ResumesIff` shows that
  this is the only thing that does, between sessions, as long as no operator steps in.
- A secret whose publisher stops between `link` and `unlink` is stranded. `Secrets.ReturnsIff` gives the exact
  condition for a value of a name still to be returned, `Secrets.StrandedForever` and `Secrets.ReaderPassesIff`
  what happens to the readers.
- A secret of exactly the byte limit is written and then refused, since its newline is counted on reading:
  `SecretText.RoundTripIff`, `SecretText.AcceptedIsStorable`.
- A draft rewritten between the reads of a publication and its PATCH becomes public as it then is:
  `Channel.PublicIsWhatWasCertified` has the exact condition, `Channel.RewrittenDraftBecomesPublic` the case.
  Order and beta precedence hold regardless.
- A service whose `spawn` throws is neither unspawned nor a child, so the stack never settles:
  `DevStack.SettlesIffNoneLost`, `DevStack.LostNeverSettles`.
- Eviction keeps the cache ledger, so an entry left by an incomplete publication can be accepted:
  `PhoneCache.IncompleteAcceptedIff` says exactly when, `PhoneCache.StaleLedgerAccepts` shows that it happens.
  What it returns is still verified.
- A rerun in which cases of one shared identity are skipped twice is reported although the cases match:
  `Rerun.CleanIff`, `Rerun.SharedSkipsAreReported`.
- The scanner finds nothing in a buffer smaller than one run ID: `RunScan.ScanCompleteIff`.

## Model

| member | source | states |
|---|---|---|
| MacSwap.OriginalSurvives | scripts/release-mac.ts:1081-1272 | over every run of install, resume, restore and verify sessions of any revisions, with crashes anywhere, the bundle first in the application slot is intact there or in a backup after every step, unless an earlier step was a cleanup that removed it in favour of a bundle verified in place and launched |
| MacSwap.StepKeepsHeld | scripts/mac-app-cleanup.py:26-49 | no single effect loses a held bundle except a cleanup removal while another verified and healthy bundle of an installed revision is in the application slot |
| MacSwap.InstallationOutcome | scripts/release-mac.ts:1081-1272 | an installation that is not cut short ends in one of three ways: the application already was the revision; a sound bundle of it is in place, the original in its backup, and the receipt says both; or the bundle that was brought in was rejected and the original is back in the application slot, with no backup and no rollback entry left and the rejected bundle beside it |
| MacSwap.VerificationOutcome | scripts/release-mac.ts:1325-1410 | a verification that is not cut short records the application it found as verified, sound and launched, removes nothing but prepared copies and backups, and leaves a rollback entry exactly beside a remaining backup |
| MacSwap.GoodBundleAlwaysHeld | scripts/release-mac.ts:1325-1410 | at every moment some bundle that is the original or once passed the launch check is intact in the application slot or a backup, across any number of installs and cleanups |
| MacSwap.ResumeCompletesIff | scripts/release-mac.ts:1081-1272 | from an idle state some run of sessions of a revision, with or without failing reads of the installed revision, ends with a sound bundle of it installed and recorded if and only if the state meets a condition on application, prepared copy, staged copy, backup and receipt |
| MacSwap.SpoiledSwapBlocks | scripts/release-mac.ts:1218-1262 | every installation that replaces an application can end, by a crash before the check in place, in a state that no resuming completes, with the original in its backup |
| MacSwap.SoleRevisionNeverBlocks | scripts/release-mac.ts:1218-1262 | while one revision is being installed, through every crash and restore, an application beside a backup of the revision is a sound bundle of it or one that went bad between the last check and the check in place |
| MacSwap.InstalledNamesItsBackup | scripts/release-mac.ts:1017-1037 | over every run, a receipt that records an installation whose backup is still there names that backup's revision, unless an interrupted removal damaged the backup |
| MacPhases.AtMostOnceInOrder | scripts/release-mac.ts:645-777 | over any sequence of phases, resumes and crashes the archive is submitted at most once and the Agent Phone build is issued at most once, receipts stay in phase order, on the notarized path staging implies acceptance, a request no operator recorded was submitted, and a sealed local build has the receipt of its one phone build |
| MacPhases.RecordsOneThing | scripts/release-mac.ts:924-1002 | each save adds to the receipt exactly the one thing its session has just done |
| MacPhases.PhaseCompletes | scripts/release-mac.ts:1325-1410 | a session that is through its targets has staged, installed or verified every one of them |
| MacPhases.ResumesIff | scripts/release-mac.ts:645-777 | between sessions of any run, some continuation without an operator seals the artifact exactly when no submission or phone build is in doubt |
| MacPhases.ReceiptsOnlyGrow | scripts/release-mac.ts:924-1002 | whatever one saved receipt records, every later receipt of the run still records |
| MacPhases.StepKeepsInv | scripts/install-mac-local.ts:187-206 | every step keeps verified within installed within staged within targets, nonempty installed only when every target is staged, and the flags that guard the two once-only commands |
| SecretText.RoundTripIff | scripts/init-self-host.ts:179-305 | a candidate is written and read back unchanged exactly when it is nonempty, has no line break or NUL, no surrounding whitespace and fewer bytes than the limit; of the plain ones that may be written only those of exactly the limit fail |
| SecretText.AcceptedIsStorable | scripts/init-self-host.ts:250-305 | a value accepted from any file may be written, and would be read back unchanged exactly if it has not exactly the limit |
| Secrets.SecretsAgree | scripts/init-self-host.ts:179-272 | over every interleaving with crashes, calls that return for one name return the same value, and the published file holds exactly that value with one link |
| Secrets.AtMostOneCreator | scripts/init-self-host.ts:203-224 | at most one call per name reports that it created the secret |
| Secrets.PublishedHasItsCreator | scripts/init-self-host.ts:203-224 | once a name is published one call did create it, and its candidate is what every reader gets |
| Secrets.GivesUpAtTheFortiethLook | scripts/init-self-host.ts:250-272 | a reader gives up at its fortieth look at a file that keeps its second link, and not before |
| Secrets.AddressMatchesPassword | scripts/init-self-host.ts:70-96 | a returned database URL is that of the returned password and of no other, and the exact check of its caller never fails on a directory that started empty |
| Secrets.PublicationIsFinal | scripts/init-self-host.ts:203-224 | once a name exists no later step of any call changes its file or value |
| Secrets.ReaderPassesIff | scripts/init-self-host.ts:250-272 | a reader gets past the link check exactly when the publisher has removed its temporary name |
| Secrets.CheckedReaderReturns | scripts/init-self-host.ts:250-272 | a reader past the check returns the published value |
| Secrets.StrandedForever | scripts/init-self-host.ts:193-224 | after a stop between link and unlink no call for the name ever returns |
| Secrets.StrandingHappens | scripts/init-self-host.ts:193-224 | such a run exists for every password or token |
| Secrets.ReturnsIff | scripts/init-self-host.ts:179-272 | from every reachable state some continuation returns a value for a name exactly when the name is not stranded, nor the password when the name is the database URL |
| Pool.MacPreparationPool.Drain | scripts/mac-preparation.ts:45-59 | the loop starts queued jobs in order while a worker is free, or rejects everything pending once aborted and idle |
| Pool.MacPreparationPool.End | scripts/mac-preparation.ts:61-75 | a work that ends settles its own job or cancels the pool, frees its worker and drains, keeping the pool invariant |
| Pool.TwoWorkersInOrder | scripts/mac-preparation.ts:14-58 | in every reachable state at most two works run, works begin in submission order, and without abort a nonempty queue means both workers are busy |
| Pool.NothingBeginsAfterAbort | scripts/mac-preparation.ts:31-64 | no work begins in an aborted pool nor in the step that aborts it, and the first cancel error is kept |
| Pool.AbortIsFinal | scripts/mac-preparation.ts:31-64 | over every run nothing begins after an abort |
| Pool.OutcomeIsFinal | scripts/mac-preparation.ts:45-75 | over every run each job settles at most once |
| Pool.SettlesOnce | scripts/mac-preparation.ts:45-75 | a settled job keeps its outcome, and only a waiting, running or just submitted job settles |
| Pool.RejectedOnlyWhenIdle | scripts/mac-preparation.ts:45-54 | a job is rejected only when no work is active, with the reason of the abort |
| Pool.FailureIsTheFirstStop | scripts/mac-preparation.ts:31-75 | over every run a stopped pool keeps the error of the first event that stopped it: the argument of cancel, what a work threw, or the parent's reason when a work resolved under its abort |
| Pool.SettlesWith | scripts/mac-preparation.ts:31-75 | over every run a job resolves only in the event that ends its own work without an error before any abort, and is otherwise rejected with the error of the first stop or the parent's reason |
| Pool.RejectionsCarryFirstCancel | scripts/mac-preparation.ts:31-54 | over every run, each rejection after the pool stopped carries the error of the first event that stopped it |
| Pool.SettledIffIdle | scripts/mac-preparation.ts:39-58 | all submitted jobs are settled exactly when no work runs, so nothing is stranded |
| Pool.EndingsSettleEverything | scripts/mac-preparation.ts:61-75 | each ending lowers a measure of queued and active jobs, and when it is used up everything is settled |
| Pool.OwnPoolSettles | scripts/mac-preparation.ts:39-92 | when all branches of a pool of its own have settled none is running or waiting, and join throws exactly when the parent was aborted from the start, or the pool was cancelled, the parent aborted or a branch threw, in particular when a branch was rejected; what it throws is the error of the first stop, or else the parent's reason |
| Versions.CompareStableVersions | scripts/engines.ts:46-60 | the loop returns the precedence of two x.y.z versions and throws exactly on malformed input |
| Versions.CompareIsATotalOrder | scripts/engines.ts:29-60 | on well-formed versions the comparison is a strict total order that is 0 only for identical strings |
| Versions.PrintParse | scripts/engines.ts:46-52 | printing three numbers and parsing the text gives the numbers back |
| Versions.ParsePrint | scripts/engines.ts:29-52 | a well-formed version is the canonical print of its three numbers |
| Versions.AdvertisedIsTheSuccessor | scripts/public-download/evidence.ts:33-41 | a version is advertised exactly when N is below N+1, and it is well formed, above N+1, with no version between |
| Channel.RequireNewerStable | scripts/desktop-public-release.ts:438-451 | the loop accepts exactly the versions above every published stable of the listing, all of which are well formed |
| Channel.ListingDecides | scripts/desktop-public-release.ts:452-462 | any complete listing of the store gives that decision for the store |
| Channel.StablesIncrease | scripts/desktop-public-release.ts:389-561 | over every run of draft and publish from an empty store, with drafts rewritten by anyone at any time, published stable versions strictly increase in publication order |
| Channel.StableFollowsItsBeta | scripts/desktop-public-release.ts:464-561 | every published stable follows a public, immutable, launch-checked beta of its version and of the source that publish read, which is its own source if its draft was not rewritten meanwhile |
| Channel.PublishedStaysVerified | scripts/desktop-public-release.ts:304-340 | a public release never changes, and one that is what publish read has, field by field, the hashes, sums, assets, tag, title, notes, source, channel flag, feed and passed launch check that its manifest lists, in every later state |
| Channel.ClearsExactly | scripts/desktop-public-release.ts:464-537 | in every reachable state publish clears exactly a release that agrees with its manifest field by field, passed its launch check and is as its caller named it, and a stable draft only when its beta is public and it is above each stable published so far |
| Channel.DraftsExactly | scripts/desktop-public-release.ts:389-407 | draft is accepted exactly for files that agree with their manifest, beside no release of the tag but a draft that does so too |
| Channel.DraftedIsDescribed | scripts/desktop-public-release.ts:389-436 | draft leaves a draft that agrees with its manifest field by field, and every other release as it was |
| Channel.PublicIsWhatWasCertified | scripts/desktop-public-release.ts:498-548 | from a PATCH on, what is public is what was read, with the channel, source and certified zip the caller named, exactly when the draft at the PATCH is the one that was read, up to the flags the PATCH sets |
| Channel.RewrittenDraftBecomesPublic | scripts/desktop-public-release.ts:511-548 | for every beta and every draft written over it between the reads and the PATCH there is a run in which that draft becomes public |
| Channel.RepublishChangesNothing | scripts/desktop-public-release.ts:498-561 | at every point after a release was published as read, publishing the tag again is accepted exactly for a caller that names what is public, and changes nothing |
| Channel.PublishedIsNeverRedrafted | scripts/desktop-public-release.ts:389-405 | over every run no accepted draft has the tag of a release published before |
| RunScan.AddRunIds | scripts/test-vm/retention.ts:523-539 | the scan adds exactly the length-25 substrings that match, overlapping ones included |
| RunScan.AddRunIdsFromReads | scripts/test-vm/retention.ts:541-559 | however reads split a stream, the scan terminates and adds exactly its run IDs if the buffer holds one, and nothing otherwise |
| RunScan.SplitScan | scripts/test-vm/retention.ts:541-559 | the IDs of a stream and its next chunk are those of the stream and those of the carried bytes with the chunk |
| RunScan.IsRunIdAt | scripts/test-vm/retention.ts:561-571 | the byte checks around a found mark decide the run-ID pattern |
| RunScan.RunIdShape | scripts/test-vm/retention.ts:31 | the pattern is that of a date of eight digits, a T, a time of six, a Z, a dash and eight hexadecimal digits |
| RunScan.ScanCompleteIff | scripts/test-vm/retention.ts:520-558 | the scan is complete for every stream exactly when the buffer holds at least 25 bytes |
| Retention.Reclaim | scripts/test-vm/retention.ts:181-337 | a pass decides exactly on the clones, runs and payloads that are due in the terms of the records and entries: recorded ends or dead processes, a day since the end or else the start, references, release pins, main's payload, how many entries were listed ahead, and the re-read last use against the newest kept; a dry run removes nothing |
| Retention.NewestIff | scripts/test-vm/retention.ts:305-313 | a dated payload is kept by age exactly when fewer than the policy's number were used more recently, ties broken by the greater hash |
| Retention.BoundIff | scripts/test-vm/retention.ts:326-330 | a re-read last use is within the bound exactly when as many entries as are kept were listed at that time or later, or when it is not in the future and none is kept |
| Retention.ReclaimClones | scripts/test-vm/retention.ts:207-235 | exactly the stopped, idle clones of known finished jobs go, and the runs that keep a clone are reported |
| Retention.ReclaimRuns | scripts/test-vm/retention.ts:237-262 | exactly the known, unreferenced runs without a clone go that recorded an end at least a day ago, or that recorded none, have a dead process and started at least a day ago |
| Retention.ReclaimPayloads | scripts/test-vm/retention.ts:264-337 | exactly the unlocked payloads go that no release pins, that are not main's nor kept by age, that no job left unfinished names, and that were re-read as no newer than the newest kept, and only while inventory, ownership and configuration are known |
| Retention.NewestSurvive | scripts/test-vm/retention.ts:305-337 | none of the newest kept payloads is removed, and a removed payload was used no later than each of them by both readings |
| Retention.NewestCount | scripts/test-vm/retention.ts:305-313 | as many payloads are kept by age as the policy says, or all dated ones |
| Retention.UnknownInventoryRemovesNothing | scripts/test-vm/retention.ts:209-219 | an unknown inventory removes no clone, run or payload |
| DevStack.DevelopmentStack.Stop | scripts/dev.ts:112-142 | the re-entrant stop ends in one closed-form state: everything never spawned is settled, the timer armed, and the promise settled when nothing remains |
| DevStack.RemainingIsUnsettled | scripts/dev.ts:104-182 | for every order of events `remaining` is the number of unsettled services and never negative |
| DevStack.StoppingIsFinal | scripts/dev.ts:112-182 | over every run nothing is spawned after stopping, and a settled promise never changes |
| DevStack.FirstFailureReported | scripts/dev.ts:112-182 | over every run a stack that settled after a failure event rejects with the first one's failure: of startup, of a child whose first terminal event is an error, or of an exit before anything asked the stack to stop |
| DevStack.ResolvedMeansNoFailure | scripts/dev.ts:112-182 | over every run a settled stack resolved exactly when no event up to its settling brought a failure |
| DevStack.SpawnedExactly | scripts/dev.ts:146-182 | exactly the services first started before anything asked the stack to stop were spawned, or lost when their spawn threw |
| DevStack.SettlesIffNoneLost | scripts/dev.ts:112-182 | once stopping, with every spawned child ended, the promise is settled and the force timer cleared exactly when no spawn threw |
| DevStack.LostNeverSettles | scripts/dev.ts:146-182 | after a spawn that threw no event ever settles the stack |
| DevStack.ThrowingSpawnHangs | scripts/dev.ts:146-182 | the concrete case of one service |
| PhoneCache.SessionOutcome | scripts/release-phone-cache.ts:228-343 | a session in which nothing fails returns the entry's receipt for the entry's artifact exactly when the entry is good, publishes its verified build exactly when there is neither entry nor leftovers, and otherwise returns the build and leaves the cache alone |
| PhoneCache.ReturnedReceiptsAreSound | scripts/release-phone-cache.ts:248-338 | over every run with crashes, eviction, damage and changing inputs, each returned receipt was verified against the artifact directory and the inputs read last before its return were the key's, and a hit's publication once completed |
| PhoneCache.EntryIsNeverReplaced | scripts/release-phone-cache.ts:282-333 | over every run an existing entry is left as it is by every session, until eviction or damage |
| PhoneCache.LeftoversPoison | scripts/release-phone-cache.ts:248-250 | from leftovers of an interrupted publication on, until eviction, no receipt is a hit and nothing is published |
| PhoneCache.IncompleteAcceptedIff | scripts/release-phone-cache.ts:248-281 | over every run, the undamaged entry of an incomplete publication is accepted exactly when the ledger on disk, that of the last completed publication, names its very manifest, which takes an eviction since |
| PhoneCache.CompletedIsAccepted | scripts/release-phone-cache.ts:248-281 | the entry of a publication that completed is accepted until it is damaged or evicted |
| PhoneCache.IncompleteNeverHits | scripts/release-phone-cache.ts:248-281 | while nothing was evicted, the entry of an incomplete publication, damaged or not, is never accepted |
| PhoneCache.AcceptedWasCompleted | scripts/release-phone-cache.ts:248-281 | whatever entry is accepted, damaged ones included, has the manifest of the last completed publication |
| PhoneCache.StaleLedgerAccepts | scripts/release-phone-cache.ts:300-333 | for every verifiable artifact there is a run in which that happens |
| Rerun.CompareRerun | scripts/run-record.ts:142-169 | the loops report exactly the identities whose cases are not accounted for, and all originally failed cases |
| Rerun.CleanIff | scripts/run-record.ts:127-169 | no problem is reported exactly when an identity-preserving bijection exists, every such bijection reaches each original state or better, and shared identities all passed |
| Rerun.SharedSkipsAreReported | scripts/run-record.ts:138-169 | the last condition cannot be dropped |
| Rerun.RecordBlockers | scripts/run-record.ts:90-125 | a record has no blockers exactly when its three parts are present, error-free and consistent with the exit status |
| Rerun.DecideRerun | scripts/integration-rerun.ts:57-70 | the decision passes exactly on complete records of one contract, an unfiltered integration recipe with failures, and a clean comparison |
| Rerun.PassesExactly | scripts/integration-rerun.ts:38-70 | that decision written out over the fields of both records, with the comparison as a correspondence of cases in which what failed or passed passes and what did neither does not fail |
| Rerun.DecisionIsSound | scripts/integration-rerun.ts:38-70 | after a passing decision every failed case has a passed case of the same identity in the rerun |
| AppTree.InventoryOf | scripts/mac-app-tree.py:70-117 | the walk returns the preorder inventory, and fails exactly on unsupported trees or a root that is no directory |
| AppTree.InventoryIsInjective | scripts/mac-app-tree.py:70-117 | two trees with equal ordered inventories are equal |
| AppTree.VerifyMacAppTree | scripts/mac-app-delivery.ts:78-88 | against the manifest of a recorded tree, verification accepts exactly the trees equal to it in mode, flags, ACL, attributes, names, order, content, links and targets, whatever the owner and group, and only trees in which every node is supported |
| AppTree.SupportedIff | scripts/mac-app-tree.py:70-117 | a tree is supported exactly when every node in it, however deep, is a directory, a file of one link or a link within |
| AppTree.VerifyAcceptsIff | scripts/mac-app-delivery.ts:78-88 | the same of the comparison of inventories that decides it |
| AppTree.ComparableInventory | scripts/mac-app-delivery.ts:84-86 | zeroing owners in the inventory is the inventory of the tree with owners zeroed |
| Grader.GradeOrder | evals/agent-tools/grader.ts:120-125 | for any relation of calls and names, check i of the loop passes exactly when the first i+1 names embed in strictly increasing calls |
| Grader.OrderStaysComplete | evals/agent-tools/grader.ts:120-125 | an order that embeds has all its prefixes embedded and stays embedded as calls are appended |
| Grader.UntilComplete | evals/agent-tools/grader.ts:247-266 | for any relation of calls and requirements, the loop completes exactly when some assignment answers each group wholly after the one before it |
| Grader.CompleteStays | evals/agent-tools/grader.ts:247-266 | a complete boundary stays complete as calls are appended |
| Grader.OrderChecks | evals/agent-tools/grader.ts:120-125 | each order check of a trace tells whether so many names can be placed, in order, on valid calls of a tool that the name lists or that the wildcard stands for |
| Grader.BoundaryComplete | evals/agent-tools/grader.ts:247-266 | a boundary is complete exactly when valid calls of the right tool, arguments and returned result answer each group wholly after the one before it |
| Grader.AlternativesMatch | evals/agent-tools/grader.ts:32-34 | names joined by bars match exactly these names, and everything if they are the wildcard |
| TurnClock.Clock.Note | evals/agent-tools/timing.ts:40-66 | each event leaves the stated state and keeps what was measured equal to the time elapsed |
| TurnClock.MeasureTurn | evals/agent-tools/timing.ts:27-76 | for every event sequence in time order the total is the sum of all waits, tool times and the final wait, none is negative, each started call is counted once, and the tool time is exactly the time in which some call runs and none is restated before the tools end |
| ProcessClosure.DescendantPids | scripts/smoke-desktop-release-processes.ts:2-20 | the loop terminates on every table and returns exactly the nonzero pids below the root along rows in which both numbers are there |
| ProcessClosure.ObservedPids | scripts/public-download/shutdown-observer.ts:27-32 | the observer's loop terminates and returns exactly what is reachable from the supervisors |
| ProcessClosure.LeastClosed | scripts/smoke-desktop-release-processes.ts:8-17 | a closed set of reachable pids that holds the starts is the set of reachable pids |

## Left out

- Overlapping sessions: one installer session, one publisher action and one cache session run at a time, as their
  locks arrange; a remote shell that outlives its connection is not modelled.
- MacSwap: symbolic links in the slots (the scripts stop on one), staging again between sessions, the quit loop,
  and the path and version of a rollback entry. Nothing outside the sessions changes a bundle.
- MacPhases: digests, timestamps and build metadata of the receipt; the bundle slots are in MacSwap.
- SecretText: the UTF-8 decoding itself; text is taken as characters, counted in UTF-8 bytes.
- Secrets: file modes and owners, and configuration rendering. `encodeURIComponent` is the identity on the
  base64url alphabet every password is drawn from, so `DatabaseUrl` embeds it as it is.
- Pool: a work whose synchronous part calls back into the pool.
- Channel: preparing a release (bundle inspection, signing, block maps), the anonymous download check after
  publication, two releases with one tag, and release IDs: a draft deleted and created again under its tag counts
  as rewritten, though the PATCH would miss it.
- RunScan: the directory traversal around the scanner.
- Retention: release-artifact filters, candidate caches, allocated-byte totals and receipts.
- DevStack: process groups and signals, readiness waits, and parsing of the service list.
- PhoneCache: how inputs are computed, and the uncached path when locks or directories are unavailable.
- Rerun: message texts, worktree handling, and key order in the serialized contract.
- AppTree: changes to the tree while it is read, copying, and ACL restoration.
- Grader: argument patterns, regular expressions, workspace files; `partialMatch` is an arbitrary relation.
- TurnClock: median summaries.
- ProcessClosure: splitting the table's text into rows, and the exit polling.
- Signing, notarization, Gradle and Xcode commands, hashing: outcomes are nondeterministic, digests injective.
