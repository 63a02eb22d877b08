/**
 The deletion policy of reclaimUnlocked in scripts/test-vm/retention.ts: clones, runs and payload caches.

 A pass asks the world many questions, and the answers may change between them: a runner may end, a cache
 entry may be stamped again by a builder. Each question is a separate answer in World. The order of
 localeCompare on commit hashes is the order of the numbers that stand for them.
 */
module Retention {
  import opened Options

  type RunId = nat
  type Sha = nat
  type Pid = nat

  const DAY := 86_400_000

  datatype Job = Job(startedAt: int, endedAt: Option<int>, pid: Option<Pid>, sha: Option<Sha>)

  /** `run` is the run ID in a clone's name; other machines have none. */
  datatype Vm = Vm(name: nat, run: Option<RunId>, stopped: bool)

  /**
   `jobs` maps each run directory to its parsed record. `gone(k, pid)` says whether the process was gone when
   stage k asked (0 clones, 1 runs, 2 payloads); `references` is None when a file could not be read;
   `used` and `usedAgain` are an entry's last use when listed and when read again under its lock.
   */
  datatype World = World(
    now: int, dryRun: bool,
    jobs: map<RunId, Option<Job>>, inventory: Option<seq<Vm>>,
    gone: (nat, Pid) -> bool, running: nat -> bool, cloneDeletes: nat -> bool,
    references: Option<set<RunId>>, runDeletes: RunId -> bool,
    releasePins: set<Sha>, mainSha: Option<Sha>, keepPayloads: int,
    caches: seq<Sha>, used: Sha -> Option<int>, usedAgain: Sha -> Option<int>,
    lockFree: Sha -> bool, cacheDeletes: Sha -> bool)

  /** In seconds. */
  function EndOrStart(job: Job): int {
    if job.endedAt.Some? then job.endedAt.value else job.startedAt
  }

  /** Its runner recorded the end, or the runner is gone. */
  predicate Finished(w: World, stage: nat, job: Job) {
    job.endedAt.Some? || (job.pid.Some? && w.gone(stage, job.pid.value))
  }

  predicate Known(w: World, id: RunId) {
    id in w.jobs && w.jobs[id].Some?
  }

  // ---------------------------------------------------------------------------
  // Clones

  predicate CloneGoes(w: World, vm: Vm) {
    && vm.run.Some? && Known(w, vm.run.value) && Finished(w, 0, w.jobs[vm.run.value].value)
    && vm.stopped && !w.running(vm.name) && w.cloneDeletes(vm.name)
  }

  /** `clones` are the runs that keep a clone, or every run while the inventory is unknown. */
  method ReclaimClones(w: World) returns (clones: set<RunId>, removed: set<Vm>)
    ensures w.inventory.None? ==> clones == w.jobs.Keys && removed == {}
    ensures w.inventory.Some? ==> forall vm :: vm in removed <==> vm in w.inventory.value && CloneGoes(w, vm)
    ensures w.inventory.Some? ==>
              forall id :: id in clones
                <==> exists vm :: vm in w.inventory.value && vm.run == Some(id) && !CloneGoes(w, vm)
  {
    if w.inventory.None? {
      return w.jobs.Keys, {};
    }
    clones, removed := {}, {};
    var inventory := w.inventory.value;
    for i := 0 to |inventory|
      invariant forall vm :: vm in removed <==> vm in inventory[..i] && CloneGoes(w, vm)
      invariant forall id :: id in clones
                  <==> exists vm :: vm in inventory[..i] && vm.run == Some(id) && !CloneGoes(w, vm)
    {
      var vm := inventory[i];
      assert inventory[..i + 1] == inventory[..i] + [vm];
      if vm.run.None? {
        continue;
      }
      if CloneGoes(w, vm) {
        removed := removed + {vm};
      } else {
        clones := clones + {vm.run.value};
      }
    }
    assert inventory[..|inventory|] == inventory;
  }

  // ---------------------------------------------------------------------------
  // Runs

  predicate Old(w: World, clones: set<RunId>, id: RunId) {
    && Known(w, id) && id !in clones && Finished(w, 1, w.jobs[id].value)
    && w.now - EndOrStart(w.jobs[id].value) * 1000 >= DAY
  }

  predicate RunGoes(w: World, clones: set<RunId>, id: RunId) {
    Old(w, clones, id) && w.references.Some? && id !in w.references.value && w.runDeletes(id)
  }

  /** `jobs` is the job table without the removed runs. */
  method ReclaimRuns(w: World, clones: set<RunId>) returns (removed: set<RunId>, jobs: map<RunId, Option<Job>>)
    ensures forall id :: id in removed <==> RunGoes(w, clones, id)
    ensures forall id :: id in removed <==> id !in clones && RecordIsDue(w, id)
    ensures jobs == w.jobs - removed
  {
    removed, jobs := {}, w.jobs;
    var old' := set id | id in w.jobs && Old(w, clones, id);
    if w.references.None? {
      return;
    }
    var rest := old';
    while rest != {}
      invariant rest <= old'
      invariant forall id :: id in removed <==> id in old' - rest && RunGoes(w, clones, id)
      invariant jobs == w.jobs - removed
      decreases rest
    {
      var id :| id in rest;
      rest := rest - {id};
      if id !in w.references.value && w.runDeletes(id) {
        removed := removed + {id};
        jobs := jobs - {id};
      }
    }
  }

  // ---------------------------------------------------------------------------
  // Payloads

  /** Both are dated, and the first was used more recently, or at the same time with the greater hash. */
  predicate Before(w: World, a: Sha, b: Sha) {
    && w.used(a).Some? && w.used(b).Some?
    && (w.used(a).value > w.used(b).value || (w.used(a).value == w.used(b).value && a >= b))
  }

  predicate Sorted(w: World, s: seq<Sha>) {
    && (forall i :: 0 <= i < |s| ==> w.used(s[i]).Some?)
    && (forall i, j :: 0 <= i < j < |s| ==> Before(w, s[i], s[j]))
  }

  function Insert(w: World, sha: Sha, s: seq<Sha>): seq<Sha> {
    if s == [] then [sha] else if Before(w, sha, s[0]) then [sha] + s else [s[0]] + Insert(w, sha, s[1..])
  }

  /** The dated caches, most recently used first. */
  function ByUse(w: World, caches: seq<Sha>): seq<Sha> {
    if caches == [] then []
    else if w.used(caches[0]).None? then ByUse(w, caches[1..])
    else Insert(w, caches[0], ByUse(w, caches[1..]))
  }

  lemma {:induction false} InsertMember(w: World, sha: Sha, s: seq<Sha>, x: Sha)
    ensures x in Insert(w, sha, s) <==> x == sha || x in s
  {
    if s != [] {
      InsertMember(w, sha, s[1..], x);
      assert s == [s[0]] + s[1..];
    }
  }

  lemma {:induction false} InsertSorted(w: World, sha: Sha, s: seq<Sha>)
    requires w.used(sha).Some? && Sorted(w, s)
    ensures Sorted(w, Insert(w, sha, s))
  {
    if s != [] {
      if Before(w, sha, s[0]) {
        assert forall i :: 0 < i < |s| ==> Before(w, s[0], s[i]);
      } else {
        InsertSorted(w, sha, s[1..]);
        var rest := Insert(w, sha, s[1..]);
        forall j | 0 <= j < |rest|
          ensures Before(w, s[0], rest[j])
        {
          InsertMember(w, sha, s[1..], rest[j]);
        }
      }
    }
  }

  lemma {:induction false} ByUseIsSorted(w: World, caches: seq<Sha>)
    ensures Sorted(w, ByUse(w, caches))
    ensures forall sha :: sha in ByUse(w, caches) <==> sha in caches && w.used(sha).Some?
  {
    if caches != [] {
      ByUseIsSorted(w, caches[1..]);
      assert caches == [caches[0]] + caches[1..];
      if w.used(caches[0]).Some? {
        var rest := ByUse(w, caches[1..]);
        InsertSorted(w, caches[0], rest);
        forall sha
          ensures sha in Insert(w, caches[0], rest) <==> sha == caches[0] || sha in rest
        {
          InsertMember(w, caches[0], rest, sha);
        }
      }
    }
  }

  /** What the policy keeps by age alone. */
  function Newest(w: World): seq<Sha>
    requires w.keepPayloads >= 0
  {
    var s := ByUse(w, w.caches);
    if |s| <= w.keepPayloads then s else s[..w.keepPayloads]
  }

  predicate Unfinished(w: World, jobs: map<RunId, Option<Job>>, sha: Sha) {
    exists id :: id in jobs && jobs[id].Some? && !Finished(w, 2, jobs[id].value) && jobs[id].value.sha == Some(sha)
  }

  predicate KnownSha(jobs: map<RunId, Option<Job>>, id: RunId) {
    id in jobs && jobs[id].Some? && jobs[id].value.sha.Some?
  }

  predicate UnknownActiveVm(w: World, jobs: map<RunId, Option<Job>>) {
    && w.inventory.Some?
    && exists vm :: vm in w.inventory.value && vm.run.Some? && !vm.stopped && !KnownSha(jobs, vm.run.value)
  }

  predicate Admitted(w: World, jobs: map<RunId, Option<Job>>) {
    w.inventory.Some? && !UnknownActiveVm(w, jobs) && w.mainSha.Some? && w.keepPayloads >= 0
  }

  /** The least recent of the kept newest, or now when none is kept. */
  function Bound(w: World): int
    requires w.keepPayloads >= 0
  {
    var newest := Newest(w);
    if newest == [] || w.used(newest[|newest| - 1]).None? then w.now else w.used(newest[|newest| - 1]).value
  }

  predicate Pinned(w: World, sha: Sha)
    requires w.keepPayloads >= 0
  {
    sha in w.releasePins || w.mainSha == Some(sha) || sha in Newest(w)
  }

  predicate PayloadGoes(w: World, jobs: map<RunId, Option<Job>>, sha: Sha) {
    && Admitted(w, jobs) && sha in w.caches && !Pinned(w, sha) && !Unfinished(w, jobs, sha)
    && w.lockFree(sha) && w.usedAgain(sha).Some? && w.usedAgain(sha).value <= Bound(w) && w.cacheDeletes(sha)
  }

  method ReclaimPayloads(w: World, jobs: map<RunId, Option<Job>>) returns (removed: set<Sha>)
    ensures forall sha :: sha in removed <==> PayloadGoes(w, jobs, sha)
    ensures forall o: Outcome, sha :: jobs == w.jobs - o.runs ==> (sha in removed <==> PayloadIsDue(w, o, sha))
  {
    forall o: Outcome, sha | jobs == w.jobs - o.runs
      ensures PayloadGoes(w, jobs, sha) <==> PayloadIsDue(w, o, sha)
    {
      PayloadGoesWhenDue(w, o, jobs, sha);
    }
    removed := {};
    if w.inventory.None? || UnknownActiveVm(w, jobs) || w.mainSha.None? || w.keepPayloads < 0 {
      return;
    }
    var newest := Newest(w);
    ByUseIsSorted(w, w.caches);
    assert newest != [] ==> newest[|newest| - 1] == ByUse(w, w.caches)[|newest| - 1];
    var bound := if newest == [] then w.now else w.used(newest[|newest| - 1]).value;
    var pinned := w.releasePins + {w.mainSha.value};
    for i := 0 to |newest|
      invariant forall sha :: sha in pinned <==> sha in w.releasePins || sha == w.mainSha.value || sha in newest[..i]
    {
      assert newest[..i + 1] == newest[..i] + [newest[i]];
      pinned := pinned + {newest[i]};
    }
    assert newest[..|newest|] == newest;
    removed := ReclaimUnpinned(w, jobs, pinned, bound);
  }

  /** The loop over the cache entries, each re-read under its own lock. */
  method ReclaimUnpinned(
    w: World, jobs: map<RunId, Option<Job>>, pinned: set<Sha>, bound: int) returns (removed: set<Sha>)
    ensures forall sha :: sha in removed <==>
              && sha in w.caches && sha !in pinned && !Unfinished(w, jobs, sha)
              && w.lockFree(sha) && w.usedAgain(sha).Some? && w.usedAgain(sha).value <= bound && w.cacheDeletes(sha)
  {
    removed := {};
    for i := 0 to |w.caches|
      invariant forall sha :: sha in removed <==>
                  && sha in w.caches[..i] && sha !in pinned && !Unfinished(w, jobs, sha)
                  && w.lockFree(sha) && w.usedAgain(sha).Some? && w.usedAgain(sha).value <= bound && w.cacheDeletes(sha)
    {
      var sha := w.caches[i];
      assert w.caches[..i + 1] == w.caches[..i] + [sha];
      if sha in pinned || Unfinished(w, jobs, sha) {
        continue;
      }
      if !w.lockFree(sha) {
        continue;
      }
      var used := w.usedAgain(sha);
      if used.None? || used.value > bound {
        continue;
      }
      if w.cacheDeletes(sha) {
        removed := removed + {sha};
      }
    }
    assert w.caches[..|w.caches|] == w.caches;
  }

  // ---------------------------------------------------------------------------
  // The pass

  /** What a pass leaves removed; a dry run decides the same and removes nothing. */
  datatype Outcome = Outcome(clones: set<Vm>, runs: set<RunId>, payloads: set<Sha>)

  method Reclaim(w: World) returns (decided: Outcome, removed: Outcome)
    ensures Justified(w, decided) && DecidesExactly(w, decided)
    ensures removed == if w.dryRun then Outcome({}, {}, {}) else decided
  {
    var clones, vms := ReclaimClones(w);
    var runs, jobs := ReclaimRuns(w, clones);
    var payloads := ReclaimPayloads(w, jobs);
    decided := Outcome(vms, runs, payloads);
    removed := if w.dryRun then Outcome({}, {}, {}) else decided;
    forall id | id in runs
      ensures RunJustified(w, decided, id)
    {
    }
    forall sha | sha in payloads
      ensures PayloadJustified(w, decided, sha)
    {
      assert forall id :: id in w.jobs && id !in runs ==> id in jobs && jobs[id] == w.jobs[id];
    }
  }

  // ---------------------------------------------------------------------------
  // What a pass decides, in the terms of the records and the cache entries

  /** A stopped, idle clone whose job is known, and has a recorded end or a process that is gone. */
  ghost predicate CloneIsDue(w: World, vm: Vm) {
    && w.inventory.Some? && vm in w.inventory.value && vm.stopped && !w.running(vm.name) && w.cloneDeletes(vm.name)
    && vm.run.Some? && vm.run.value in w.jobs && w.jobs[vm.run.value].Some?
    && var job := w.jobs[vm.run.value].value;
       job.endedAt.Some? || (job.pid.Some? && w.gone(0, job.pid.value))
  }

  /** A run of which every clone goes and whose record is due. */
  ghost predicate RunIsDue(w: World, o: Outcome, id: RunId) {
    && w.inventory.Some? && (forall vm :: vm in w.inventory.value && vm.run == Some(id) ==> vm in o.clones)
    && RecordIsDue(w, id)
  }

  /**
   An unreferenced run that recorded its end at least a day ago, or that recorded none, has a process that is
   gone, and started at least a day ago.
   */
  predicate RecordIsDue(w: World, id: RunId) {
    && w.references.Some? && id !in w.references.value && w.runDeletes(id)
    && id in w.jobs && w.jobs[id].Some?
    && match w.jobs[id].value
       case Job(_, Some(ended), _, _) => w.now - ended * 1000 >= 86_400_000
       case Job(started, None, pid, _) =>
         pid.Some? && w.gone(1, pid.value) && w.now - started * 1000 >= 86_400_000
  }

  function Count(s: seq<Sha>, p: Sha -> bool): nat {
    if s == [] then 0 else (if p(s[0]) then 1 else 0) + Count(s[1..], p)
  }

  /** The entries used more recently than `sha`, or at the same time with a greater hash. */
  function AheadOf(w: World, sha: Sha): Sha -> bool {
    (c: Sha) => w.used(c).Some? && w.used(sha).Some?
         && (w.used(c).value > w.used(sha).value || (w.used(c).value == w.used(sha).value && c > sha))
  }

  /** The entries used at time `t` or later. */
  function UsedSince(w: World, t: int): Sha -> bool {
    (c: Sha) => w.used(c).Some? && w.used(c).value >= t
  }

  /** No newer than the least recent of the `keepPayloads` newest, or than now when there is none. */
  ghost predicate NoNewerThanKept(w: World, t: int) {
    var dated := DatedCount(w, w.caches);
    var kept := if dated <= w.keepPayloads then dated else w.keepPayloads;
    if kept == 0 then t <= w.now else Count(w.caches, UsedSince(w, t)) >= kept
  }

  /**
   A payload that no release pins, that is not main's, that `keepPayloads` others were listed ahead of unless it
   had no date, that no unfinished job left names, and that is not locked and as old when read again. Every
   machine that is not stopped must belong to a known job with a known payload.
   */
  ghost predicate PayloadIsDue(w: World, o: Outcome, sha: Sha) {
    && w.inventory.Some?
    && (forall vm :: vm in w.inventory.value && vm.run.Some? && !vm.stopped ==>
          && vm.run.value in w.jobs && vm.run.value !in o.runs
          && w.jobs[vm.run.value].Some? && w.jobs[vm.run.value].value.sha.Some?)
    && w.mainSha.Some? && w.mainSha.value != sha && sha !in w.releasePins && sha in w.caches && w.keepPayloads >= 0
    && (w.used(sha).Some? ==> Count(w.caches, AheadOf(w, sha)) >= w.keepPayloads)
    && (forall id :: id in w.jobs && id !in o.runs && w.jobs[id].Some? && w.jobs[id].value.sha == Some(sha) ==>
          var job := w.jobs[id].value;
          job.endedAt.Some? || (job.pid.Some? && w.gone(2, job.pid.value)))
    && w.lockFree(sha) && w.cacheDeletes(sha)
    && w.usedAgain(sha).Some? && NoNewerThanKept(w, w.usedAgain(sha).value)
  }

  ghost predicate DecidesExactly(w: World, o: Outcome) {
    && (forall vm :: vm in o.clones <==> CloneIsDue(w, vm))
    && (forall id :: id in o.runs <==> RunIsDue(w, o, id))
    && (forall sha :: sha in o.payloads <==> PayloadIsDue(w, o, sha))
  }

  lemma {:induction false} InsertCount(w: World, sha: Sha, s: seq<Sha>, p: Sha -> bool)
    ensures Count(Insert(w, sha, s), p) == Count(s, p) + (if p(sha) then 1 else 0)
  {
    if s != [] && !Before(w, sha, s[0]) {
      InsertCount(w, sha, s[1..], p);
    }
  }

  lemma {:induction false} ByUseCount(w: World, caches: seq<Sha>, p: Sha -> bool)
    requires forall c :: p(c) ==> w.used(c).Some?
    ensures Count(ByUse(w, caches), p) == Count(caches, p)
  {
    if caches != [] {
      ByUseCount(w, caches[1..], p);
      if w.used(caches[0]).Some? {
        InsertCount(w, caches[0], ByUse(w, caches[1..]), p);
      }
    }
  }

  /** When exactly the first `i` entries are counted. */
  lemma {:induction false} CountOfPrefix(s: seq<Sha>, p: Sha -> bool, i: nat)
    requires i <= |s| && (forall j :: 0 <= j < i ==> p(s[j])) && (forall j :: i <= j < |s| ==> !p(s[j]))
    ensures Count(s, p) == i
  {
    if s != [] {
      CountOfPrefix(s[1..], p, if i == 0 then 0 else i - 1);
    }
  }

  lemma {:induction false} FirstOf(s: seq<Sha>, sha: Sha) returns (i: nat)
    requires sha in s
    ensures i < |s| && s[i] == sha && forall j :: 0 <= j < i ==> s[j] != sha
  {
    if s[0] == sha {
      i := 0;
    } else {
      i := FirstOf(s[1..], sha);
      i := i + 1;
    }
  }

  /** A dated entry is kept by age exactly when fewer than `keepPayloads` are ahead of it. */
  lemma NewestIff(w: World, sha: Sha)
    requires w.keepPayloads >= 0 && sha in w.caches && w.used(sha).Some?
    ensures sha in Newest(w) <==> Count(w.caches, AheadOf(w, sha)) < w.keepPayloads
  {
    ByUseIsSorted(w, w.caches);
    var s, newest := ByUse(w, w.caches), Newest(w);
    var i := FirstOf(s, sha);
    forall j | 0 <= j < |s|
      ensures AheadOf(w, sha)(s[j]) <==> j < i
    {
      assert j < i ==> Before(w, s[j], s[i]);
      assert i < j ==> Before(w, s[i], s[j]);
    }
    CountOfPrefix(s, AheadOf(w, sha), i);
    ByUseCount(w, w.caches, AheadOf(w, sha));
    assert i < |newest| ==> newest[i] == sha;
  }

  lemma {:induction false} SortedCut(w: World, s: seq<Sha>, t: int) returns (i: nat)
    requires Sorted(w, s)
    ensures i <= |s| && forall j :: 0 <= j < |s| ==> (UsedSince(w, t)(s[j]) <==> j < i)
  {
    i := 0;
    if s != [] {
      var n := |s| - 1;
      if UsedSince(w, t)(s[n]) {
        i := |s|;
        assert forall j :: 0 <= j < n ==> Before(w, s[j], s[n]);
      } else {
        i := SortedCut(w, s[..n], t);
      }
    }
  }

  lemma BoundIff(w: World, t: int)
    requires w.keepPayloads >= 0
    ensures t <= Bound(w) <==> NoNewerThanKept(w, t)
  {
    NewestCount(w);
    ByUseIsSorted(w, w.caches);
    var s, newest := ByUse(w, w.caches), Newest(w);
    if newest != [] {
      var i := SortedCut(w, s, t);
      CountOfPrefix(s, UsedSince(w, t), i);
      ByUseCount(w, w.caches, UsedSince(w, t));
      assert newest[|newest| - 1] == s[|newest| - 1];
    }
  }

  lemma PayloadGoesWhenDue(w: World, o: Outcome, jobs: map<RunId, Option<Job>>, sha: Sha)
    requires jobs == w.jobs - o.runs
    ensures PayloadGoes(w, jobs, sha) <==> PayloadIsDue(w, o, sha)
  {
    if w.keepPayloads >= 0 && sha in w.caches {
      NewestAreDated(w);
      if w.used(sha).Some? {
        NewestIff(w, sha);
      }
      if w.usedAgain(sha).Some? {
        BoundIff(w, w.usedAgain(sha).value);
      }
    }
    UnfinishedIff(w, o, jobs, sha);
  }

  lemma NewestAreDated(w: World)
    requires w.keepPayloads >= 0
    ensures forall sha :: sha in Newest(w) ==> w.used(sha).Some?
  {
    ByUseIsSorted(w, w.caches);
  }

  lemma UnfinishedIff(w: World, o: Outcome, jobs: map<RunId, Option<Job>>, sha: Sha)
    requires jobs == w.jobs - o.runs
    ensures !Unfinished(w, jobs, sha) <==>
            forall id :: id in w.jobs && id !in o.runs && w.jobs[id].Some? && w.jobs[id].value.sha == Some(sha) ==>
              var job := w.jobs[id].value;
              job.endedAt.Some? || (job.pid.Some? && w.gone(2, job.pid.value))
  {
    forall id | id in w.jobs && id !in o.runs
      ensures id in jobs && jobs[id] == w.jobs[id]
    {
    }
  }

  /** Known, finished, a day old, unreferenced, and every clone of it is gone. */
  predicate RunJustified(w: World, o: Outcome, id: RunId) {
    && w.inventory.Some? && w.references.Some? && id !in w.references.value
    && Known(w, id) && Finished(w, 1, w.jobs[id].value)
    && w.now - EndOrStart(w.jobs[id].value) * 1000 >= DAY
    && forall vm :: vm in w.inventory.value && vm.run == Some(id) ==> vm in o.clones
  }

  /**
   Not kept by policy, not locked, not named by an unfinished job that is still there, and last used no later
   than the bound.
   */
  predicate PayloadJustified(w: World, o: Outcome, sha: Sha) {
    && w.inventory.Some? && w.mainSha.Some? && w.keepPayloads >= 0
    && sha in w.caches && !Pinned(w, sha) && w.lockFree(sha)
    && w.usedAgain(sha).Some? && w.usedAgain(sha).value <= Bound(w)
    && forall id :: id in w.jobs && w.jobs[id].Some? && id !in o.runs && w.jobs[id].value.sha == Some(sha) ==>
         Finished(w, 2, w.jobs[id].value)
  }

  predicate CloneJustified(w: World, vm: Vm) {
    && w.inventory.Some? && vm in w.inventory.value && vm.stopped && !w.running(vm.name)
    && vm.run.Some? && Known(w, vm.run.value) && Finished(w, 0, w.jobs[vm.run.value].value)
  }

  predicate Justified(w: World, o: Outcome) {
    && (forall vm :: vm in o.clones ==> CloneJustified(w, vm))
    && (forall id :: id in o.runs ==> RunJustified(w, o, id))
    && (forall sha :: sha in o.payloads ==> PayloadJustified(w, o, sha))
  }

  /** An unknown inventory removes nothing at all. */
  lemma UnknownInventoryRemovesNothing(w: World, o: Outcome)
    requires Justified(w, o) && w.inventory.None?
    ensures o == Outcome({}, {}, {})
  {
    assert forall vm :: vm in o.clones ==> CloneJustified(w, vm);
  }

  /** How many entries have a known last use. */
  function DatedCount(w: World, caches: seq<Sha>): nat {
    if caches == [] then 0 else (if w.used(caches[0]).Some? then 1 else 0) + DatedCount(w, caches[1..])
  }

  lemma {:induction false} InsertLength(w: World, sha: Sha, s: seq<Sha>)
    ensures |Insert(w, sha, s)| == |s| + 1
  {
    if s != [] {
      InsertLength(w, sha, s[1..]);
    }
  }

  lemma {:induction false} ByUseLength(w: World, caches: seq<Sha>)
    ensures |ByUse(w, caches)| == DatedCount(w, caches)
  {
    if caches != [] {
      ByUseLength(w, caches[1..]);
      if w.used(caches[0]).Some? {
        InsertLength(w, caches[0], ByUse(w, caches[1..]));
      }
    }
  }

  /** As many are kept as the policy says, or all that have a known last use if they are fewer. */
  lemma NewestCount(w: World)
    requires w.keepPayloads >= 0
    ensures |Newest(w)| == if DatedCount(w, w.caches) <= w.keepPayloads then DatedCount(w, w.caches) else w.keepPayloads
  {
    ByUseLength(w, w.caches);
  }

  lemma NewestIsTop(w: World, kept: Sha, other: Sha)
    requires w.keepPayloads >= 0 && kept in Newest(w)
    ensures w.used(kept).Some? && Bound(w) <= w.used(kept).value
    ensures other in w.caches && w.used(other).Some? && other !in Newest(w) ==>
              w.used(other).value <= w.used(kept).value
  {
    ByUseIsSorted(w, w.caches);
    var s, newest := ByUse(w, w.caches), Newest(w);
    var n := |newest|;
    var i :| 0 <= i < n && newest[i] == kept;
    assert forall j :: 0 <= j < n ==> newest[j] == s[j];
    assert i < n - 1 ==> Before(w, s[i], s[n - 1]);
    if other in s && other !in newest {
      var j :| 0 <= j < |s| && s[j] == other;
      assert Before(w, s[i], s[j]);
    }
  }

  /**
   The most recently used payloads survive: none of the keepPayloads newest is removed, and whatever is
   removed was used, by both readings, no later than each of them, even when it was stamped in between.
   */
  lemma NewestSurvive(w: World, o: Outcome, kept: Sha, gone: Sha)
    requires Justified(w, o) && w.keepPayloads >= 0 && kept in Newest(w) && gone in o.payloads
    ensures kept !in o.payloads && w.used(kept).Some?
    ensures w.usedAgain(gone).Some? && w.usedAgain(gone).value <= w.used(kept).value
    ensures w.used(gone).Some? ==> w.used(gone).value <= w.used(kept).value
  {
    assert PayloadJustified(w, o, gone);
    assert kept in o.payloads ==> PayloadJustified(w, o, kept);
    NewestIsTop(w, kept, gone);
  }
}
