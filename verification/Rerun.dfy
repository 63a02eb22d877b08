/**
 Same-SHA reruns: compareRerun and recordBlockers of scripts/run-record.ts, and decideRerun of
 scripts/integration-rerun.ts. An identity is the triple JSON.stringify encodes injectively.
 */
module Rerun {
  import opened Options

  datatype CaseState = Passed | Failed | Skipped | Pending

  datatype Case = Case(file: string, project: string, titlePath: seq<string>, state: CaseState)

  datatype Identity = Identity(file: string, project: string, titlePath: seq<string>)

  function Key(c: Case): Identity {
    Identity(c.file, c.project, c.titlePath)
  }

  /** The original final state the rerun must reach, or better. */
  predicate Reaches(original: CaseState, rerun: CaseState) {
    if original.Failed? || original.Passed? then rerun.Passed? else !rerun.Failed?
  }

  /** The cases of the given files, in order. */
  function Within(cases: seq<Case>, files: set<string>): seq<Case> {
    if cases == [] then []
    else (if cases[0].file in files then [cases[0]] else []) + Within(cases[1..], files)
  }

  /** The cases sharing one identity, in order. */
  function Group(cases: seq<Case>, key: Identity): seq<Case> {
    if cases == [] then []
    else (if Key(cases[0]) == key then [cases[0]] else []) + Group(cases[1..], key)
  }

  lemma {:induction false} GroupAppend(a: seq<Case>, c: Case, key: Identity)
    ensures Group(a + [c], key) == Group(a, key) + (if Key(c) == key then [c] else [])
  {
    if a == [] {
      assert a + [c] == [c];
    } else {
      GroupAppend(a[1..], c, key);
      assert (a + [c])[1..] == a[1..] + [c];
    }
  }

  lemma {:induction false} WithinAppend(a: seq<Case>, c: Case, files: set<string>)
    ensures Within(a + [c], files) == Within(a, files) + (if c.file in files then [c] else [])
  {
    if a == [] {
      assert a + [c] == [c];
    } else {
      WithinAppend(a[1..], c, files);
      assert (a + [c])[1..] == a[1..] + [c];
    }
  }

  lemma {:induction false} InGroup(cases: seq<Case>, i: nat)
    requires i < |cases|
    ensures cases[i] in Group(cases, Key(cases[i]))
  {
    if i > 0 {
      InGroup(cases[1..], i - 1);
    }
  }

  lemma {:induction false} GroupMember(cases: seq<Case>, key: Identity, k: nat) returns (i: nat)
    requires k < |Group(cases, key)|
    ensures i < |cases| && cases[i] == Group(cases, key)[k] && Key(cases[i]) == key
  {
    if Key(cases[0]) == key && k == 0 {
      i := 0;
    } else {
      i := GroupMember(cases[1..], key, if Key(cases[0]) == key then k - 1 else k);
      i := i + 1;
    }
  }

  /** What compareRerun demands of one identity. */
  predicate Accounted(was: seq<Case>, now: seq<Case>) {
    && |was| == |now|
    && (|was| > 1 ==> forall c :: c in now ==> c.state.Passed?)
    && (|was| == 1 ==> Reaches(was[0].state, now[0].state))
  }

  ghost predicate GroupsOf(groups: map<Identity, seq<Case>>, cases: seq<Case>) {
    && (forall key :: key in groups <==> Group(cases, key) != [])
    && (forall key :: key in groups ==> groups[key] == Group(cases, key))
  }

  lemma GroupsExtend(groups: map<Identity, seq<Case>>, seen: seq<Case>, c: Case)
    requires GroupsOf(groups, seen)
    ensures GroupsOf(groups[Key(c) := (if Key(c) in groups then groups[Key(c)] else []) + [c]], seen + [c])
  {
    forall key
      ensures Group(seen + [c], key) == Group(seen, key) + (if Key(c) == key then [c] else [])
    {
      GroupAppend(seen, c, key);
    }
  }

  method GroupCases(cases: seq<Case>, files: set<string>) returns (groups: map<Identity, seq<Case>>)
    ensures GroupsOf(groups, Within(cases, files))
  {
    groups := map[];
    for i := 0 to |cases|
      invariant GroupsOf(groups, Within(cases[..i], files))
    {
      var c := cases[i];
      assert cases[..i + 1] == cases[..i] + [c];
      WithinAppend(cases[..i], c, files);
      if c.file in files {
        GroupsExtend(groups, Within(cases[..i], files), c);
        groups := groups[Key(c) := (if Key(c) in groups then groups[Key(c)] else []) + [c]];
      } else {
        assert Within(cases[..i + 1], files) == Within(cases[..i], files);
      }
    }
    assert cases[..|cases|] == cases;
  }

  function FailedCases(cases: seq<Case>): seq<Case> {
    if cases == [] then [] else (if cases[0].state.Failed? then [cases[0]] else []) + FailedCases(cases[1..])
  }

  lemma {:induction false} FailedAppend(a: seq<Case>, c: Case)
    ensures FailedCases(a + [c]) == FailedCases(a) + (if c.state.Failed? then [c] else [])
  {
    if a == [] {
      assert a + [c] == [c];
    } else {
      FailedAppend(a[1..], c);
      assert (a + [c])[1..] == a[1..] + [c];
    }
  }

  /** A problem is named by its identity; the message text is not modelled. */
  method CompareRerun(original: seq<Case>, rerun: seq<Case>, files: set<string>)
    returns (problems: seq<Identity>, flakes: seq<Case>)
    ensures forall key :: key in problems <==>
                            !Accounted(Group(Within(original, files), key), Group(Within(rerun, files), key))
    ensures flakes == FailedCases(original)
  {
    var before := GroupCases(original, files);
    var after := GroupCases(rerun, files);
    problems := [];
    var keys := before.Keys + after.Keys;
    ghost var done: set<Identity> := {};
    while keys != {}
      invariant keys + done == before.Keys + after.Keys
      invariant forall key :: key in problems <==>
                  key in done && !Accounted(Group(Within(original, files), key), Group(Within(rerun, files), key))
      decreases keys
    {
      var key :| key in keys;
      keys := keys - {key};
      done := done + {key};
      var was := if key in before then before[key] else [];
      var now := if key in after then after[key] else [];
      if |was| != |now| {
        problems := problems + [key];
      } else if |was| > 1 {
        if exists c :: c in now && !c.state.Passed? {
          problems := problems + [key];
        }
      } else if !Reaches(was[0].state, now[0].state) {
        problems := problems + [key];
      }
    }
    flakes := [];
    for i := 0 to |original|
      invariant flakes == FailedCases(original[..i])
    {
      assert original[..i + 1] == original[..i] + [original[i]];
      FailedAppend(original[..i], original[i]);
      if original[i].state.Failed? {
        flakes := flakes + [original[i]];
      }
    }
    assert original[..|original|] == original;
  }

  // ---------------------------------------------------------------------------
  // What no problem means

  /** An identity-preserving bijection of the cases `a` to the cases `b`. */
  predicate SameIdentity(c: Case, d: Case) {
    c.file == d.file && c.project == d.project && c.titlePath == d.titlePath
  }

  ghost predicate Matching(a: seq<Case>, b: seq<Case>, p: seq<nat>) {
    && |a| == |b| == |p|
    && (forall i :: 0 <= i < |p| ==> p[i] < |b| && SameIdentity(a[i], b[p[i]]))
    && (forall i, j :: 0 <= i < j < |p| ==> p[i] != p[j])
  }

  function Without<T>(s: seq<T>, j: nat): seq<T>
    requires j < |s|
  {
    s[..j] + s[j + 1..]
  }

  lemma {:induction false} GroupConcat(a: seq<Case>, b: seq<Case>, key: Identity)
    ensures Group(a + b, key) == Group(a, key) + Group(b, key)
  {
    if a == [] {
      assert a + b == b;
    } else {
      GroupConcat(a[1..], b, key);
      assert (a + b)[1..] == a[1..] + b;
    }
  }

  lemma GroupWithout(b: seq<Case>, j: nat, key: Identity)
    requires j < |b|
    ensures |Group(b, key)| == |Group(Without(b, j), key)| + (if Key(b[j]) == key then 1 else 0)
  {
    assert b == b[..j] + ([b[j]] + b[j + 1..]);
    GroupConcat(b[..j], [b[j]] + b[j + 1..], key);
    GroupConcat([b[j]], b[j + 1..], key);
    GroupConcat(b[..j], b[j + 1..], key);
  }

  /** Removing one matched pair keeps the sizes of all groups in step. */
  lemma PairRemoved(a: seq<Case>, b: seq<Case>, j: nat)
    requires a != [] && j < |b| && Key(a[0]) == Key(b[j])
    ensures forall key :: |Group(a, key)| == |Group(b, key)| <==> |Group(a[1..], key)| == |Group(Without(b, j), key)|
  {
    forall key
      ensures |Group(a, key)| == |Group(b, key)| <==> |Group(a[1..], key)| == |Group(Without(b, j), key)|
    {
      GroupWithout(b, j, key);
    }
  }

  function Shifted(p: seq<nat>, j: nat): (q: seq<nat>)
    ensures |q| == |p| && forall i :: 0 <= i < |p| ==> q[i] == (if p[i] < j then p[i] else p[i] + 1)
  {
    if p == [] then [] else [if p[0] < j then p[0] else p[0] + 1] + Shifted(p[1..], j)
  }

  function Unshifted(p: seq<nat>, j: nat): (q: seq<nat>)
    ensures |q| == |p| && forall i :: 0 <= i < |p| ==> q[i] == (if p[i] <= j then p[i] else p[i] - 1)
  {
    if p == [] then [] else [if p[0] <= j then p[0] else p[0] - 1] + Unshifted(p[1..], j)
  }

  /** The pair at the head, then a matching of the rest with the removed case put back. */
  lemma ShiftedAt(a: seq<Case>, b: seq<Case>, j: nat, q: seq<nat>, i: nat)
    requires a != [] && j < |b| && Matching(a[1..], Without(b, j), q) && i < |q|
    ensures var x := Shifted(q, j)[i];
            x < |b| && x != j && SameIdentity(a[i + 1], b[x])
  {
    WithoutAt(b, j, q[i]);
    assert a[1..][i] == a[i + 1];
  }

  lemma ShiftedApart(q: seq<nat>, j: nat, i: nat, k: nat)
    requires i < |q| && k < |q| && q[i] != q[k]
    ensures Shifted(q, j)[i] != Shifted(q, j)[k]
  {
  }

  lemma MatchExtends(a: seq<Case>, b: seq<Case>, j: nat, q: seq<nat>)
    requires a != [] && j < |b| && Key(a[0]) == Key(b[j]) && Matching(a[1..], Without(b, j), q)
    ensures Matching(a, b, [j] + Shifted(q, j))
  {
    var p := [j] + Shifted(q, j);
    forall i | 0 <= i < |p|
      ensures p[i] < |b| && SameIdentity(a[i], b[p[i]])
    {
      if i > 0 {
        ShiftedAt(a, b, j, q, i - 1);
      }
    }
    PairsApart(a, b, j, q);
  }

  lemma PairsApart(a: seq<Case>, b: seq<Case>, j: nat, q: seq<nat>)
    requires a != [] && j < |b| && Matching(a[1..], Without(b, j), q)
    ensures var p := [j] + Shifted(q, j);
            forall i, k :: 0 <= i < k < |p| ==> p[i] != p[k]
  {
    var p := [j] + Shifted(q, j);
    forall i, k | 0 <= i < k < |p|
      ensures p[i] != p[k]
    {
      ShiftedAt(a, b, j, q, k - 1);
      if i > 0 {
        ShiftedApart(q, j, i - 1, k - 1);
      }
    }
  }

  lemma WithoutAt(b: seq<Case>, j: nat, x: nat)
    requires j < |b| && x < |Without(b, j)|
    ensures Without(b, j)[x] == b[if x < j then x else x + 1]
  {
  }

  lemma MatchShrinks(a: seq<Case>, b: seq<Case>, p: seq<nat>)
    requires a != [] && Matching(a, b, p)
    ensures Matching(a[1..], Without(b, p[0]), Unshifted(p[1..], p[0]))
  {
    var j := p[0];
    var q := Unshifted(p[1..], j);
    forall i | 0 <= i < |q|
      ensures q[i] < |b| - 1 && SameIdentity(a[1..][i], Without(b, j)[q[i]])
    {
      assert p[0] != p[i + 1];
      assert p[1..][i] == p[i + 1];
    }
    forall i, k | 0 <= i < k < |q|
      ensures q[i] != q[k]
    {
      assert p[1..][i] == p[i + 1] && p[1..][k] == p[k + 1];
      assert p[0] != p[i + 1] && p[0] != p[k + 1] && p[i + 1] != p[k + 1];
    }
  }

  lemma {:induction false} EqualGroupsMatch(a: seq<Case>, b: seq<Case>) returns (p: seq<nat>)
    requires forall key :: |Group(a, key)| == |Group(b, key)|
    ensures Matching(a, b, p)
  {
    if a == [] {
      assert b != [] ==> |Group(a, Key(b[0]))| == |Group(b, Key(b[0]))|;
      p := [];
    } else {
      var key := Key(a[0]);
      assert |Group(a, key)| == |Group(b, key)|;
      var j := GroupMember(b, key, 0);
      PairRemoved(a, b, j);
      var q := EqualGroupsMatch(a[1..], Without(b, j));
      MatchExtends(a, b, j, q);
      p := [j] + Shifted(q, j);
    }
  }

  lemma {:induction false} MatchedGroupsEqual(a: seq<Case>, b: seq<Case>, p: seq<nat>)
    requires Matching(a, b, p)
    ensures forall key :: |Group(a, key)| == |Group(b, key)|
  {
    if a != [] {
      PairRemoved(a, b, p[0]);
      MatchShrinks(a, b, p);
      MatchedGroupsEqual(a[1..], Without(b, p[0]), Unshifted(p[1..], p[0]));
    }
  }

  ghost predicate Clean(a: seq<Case>, b: seq<Case>) {
    forall key :: Accounted(Group(a, key), Group(b, key))
  }

  lemma MatchedReaches(a: seq<Case>, b: seq<Case>, p: seq<nat>, i: nat)
    requires Clean(a, b) && Matching(a, b, p) && i < |a|
    ensures Reaches(a[i].state, b[p[i]].state)
  {
    var key := Key(a[i]);
    InGroup(a, i);
    assert SameIdentity(a[i], b[p[i]]) && Key(b[p[i]]) == key;
    InGroup(b, p[i]);
    assert Accounted(Group(a, key), Group(b, key));
  }

  /** No identity repeats a case that did not pass on the rerun. */
  ghost predicate SharedAllPassed(b: seq<Case>) {
    forall i, j :: 0 <= i < |b| && 0 <= j < |b| && i != j && SameIdentity(b[i], b[j]) ==> b[i].state.Passed?
  }

  /** What failed or passed passes on the rerun, and what did neither does not fail. */
  predicate AsGood(c: Case, d: Case) {
    (c.state.Failed? || c.state.Passed? ==> d.state.Passed?) && !d.state.Failed?
  }

  ghost predicate MatchingReaches(a: seq<Case>, b: seq<Case>, p: seq<nat>) {
    Matching(a, b, p) ==> forall i :: 0 <= i < |a| ==> AsGood(a[i], b[p[i]])
  }

  /** A group of several members has one at each of several places. */
  lemma OtherMember(b: seq<Case>, i: nat)
    requires i < |b|
    ensures |Group(b, Key(b[i]))| > 1 <==> exists j :: 0 <= j < |b| && j != i && SameIdentity(b[i], b[j])
  {
    var key := Key(b[i]);
    GroupWithout(b, i, key);
    var rest := Without(b, i);
    if |Group(b, key)| > 1 {
      var x := GroupMember(rest, key, 0);
      WithoutAt(b, i, x);
      assert SameIdentity(b[i], b[if x < i then x else x + 1]);
    }
    if exists j :: 0 <= j < |b| && j != i && SameIdentity(b[i], b[j]) {
      var j :| 0 <= j < |b| && j != i && SameIdentity(b[i], b[j]);
      var x := if j < i then j else j - 1;
      WithoutAt(b, i, x);
      InGroup(rest, x);
    }
  }

  predicate GroupAllPassed(b: seq<Case>, key: Identity) {
    |Group(b, key)| > 1 ==> forall c :: c in Group(b, key) ==> c.state.Passed?
  }

  lemma SharedIff(b: seq<Case>)
    ensures SharedAllPassed(b)
            <==> forall key :: GroupAllPassed(b, key)
  {
    if SharedAllPassed(b) {
      forall key, k | |Group(b, key)| > 1 && 0 <= k < |Group(b, key)|
        ensures Group(b, key)[k].state.Passed?
      {
        var i := GroupMember(b, key, k);
        OtherMember(b, i);
      }
    }
    if forall key :: GroupAllPassed(b, key) {
      forall i, j | 0 <= i < |b| && 0 <= j < |b| && i != j && SameIdentity(b[i], b[j])
        ensures b[i].state.Passed?
      {
        OtherMember(b, i);
        InGroup(b, i);
        assert GroupAllPassed(b, Key(b[i]));
      }
    }
  }

  /**
   compareRerun reports no problem exactly when the cases of the files correspond one to one with equal
   identities, every such correspondence takes each original state to itself or better, and identities
   shared by several cases all passed on the rerun.
   */
  lemma CleanIff(a: seq<Case>, b: seq<Case>)
    ensures Clean(a, b) <==>
            && (exists p :: Matching(a, b, p))
            && (forall p :: MatchingReaches(a, b, p))
            && SharedAllPassed(b)
  {
    SharedIff(b);
    if Clean(a, b) {
      CleanMatches(a, b);
    }
    if (exists p :: Matching(a, b, p)) && (forall p :: MatchingReaches(a, b, p)) && SharedAllPassed(b) {
      var p :| Matching(a, b, p);
      MatchedClean(a, b, p);
    }
  }

  lemma CleanMatches(a: seq<Case>, b: seq<Case>)
    requires Clean(a, b)
    ensures exists p :: Matching(a, b, p)
    ensures forall p :: MatchingReaches(a, b, p)
    ensures forall key :: GroupAllPassed(b, key)
  {
    assert forall key :: Accounted(Group(a, key), Group(b, key));
    var p := EqualGroupsMatch(a, b);
    forall q | Matching(a, b, q)
      ensures MatchingReaches(a, b, q)
    {
      forall i | 0 <= i < |a|
        ensures AsGood(a[i], b[q[i]])
      {
        MatchedReaches(a, b, q, i);
      }
    }
  }

  lemma MatchedClean(a: seq<Case>, b: seq<Case>, p: seq<nat>)
    requires Matching(a, b, p) && MatchingReaches(a, b, p) && forall key :: GroupAllPassed(b, key)
    ensures Clean(a, b)
  {
    MatchedGroupsEqual(a, b, p);
    forall key
      ensures Accounted(Group(a, key), Group(b, key))
    {
      assert GroupAllPassed(b, key);
      if |Group(a, key)| == 1 {
        var i := GroupMember(a, key, 0);
        assert SameIdentity(a[i], b[p[i]]) && Key(b[p[i]]) == key;
        InGroup(b, p[i]);
        assert AsGood(a[i], b[p[i]]);
      }
    }
  }

  /**
   The last condition of CleanIff is needed: two skipped cases of one identity, skipped again, are reported
   although they match.
   */
  lemma SharedSkipsAreReported(c: Case)
    requires c.state.Skipped?
    ensures !Clean([c, c], [c, c]) && Matching([c, c], [c, c], [0, 1])
    ensures forall p :: MatchingReaches([c, c], [c, c], p)
  {
    var two := [c, c];
    GroupAppend([c], c, Key(c));
    GroupAppend([], c, Key(c));
    assert [] + [c] == [c] && [c] + [c] == two;
    assert Group(two, Key(c)) == two;
    assert two[0] == c && !c.state.Passed?;
    assert !Accounted(Group(two, Key(c)), Group(two, Key(c)));
    AllSkippedReach(two);
  }

  lemma AllSkippedReach(a: seq<Case>)
    requires forall i :: 0 <= i < |a| ==> a[i].state.Skipped?
    ensures forall p :: MatchingReaches(a, a, p)
  {
  }

  // ---------------------------------------------------------------------------
  // Records and the decision

  datatype Module = Module(file: string, state: string, errors: seq<string>)

  datatype Reporter = Reporter(
    expected: seq<string>, modules: seq<Module>, cases: seq<Case>,
    suiteErrors: seq<string>, unhandledErrors: seq<string>, reporterErrors: seq<string>, reason: string)

  datatype Contract = Contract(
    identity: map<string, string>, suite: string, recipe: seq<string>, inputs: map<string, string>)

  datatype Envelope = Envelope(
    contract: Contract, filtered: bool, code: Option<int>, signal: Option<string>, cleanupOk: bool,
    launcherError: Option<string>)

  /** `teardown` holds the errors of a completed teardown. A part is None when it is absent or malformed. */
  datatype RunRecord = RunRecord(
    malformed: seq<string>, reporter: Option<Reporter>, teardown: Option<seq<string>>, envelope: Option<Envelope>)

  predicate AnyFailed(cases: seq<Case>) {
    exists c :: c in cases && c.state.Failed?
  }

  predicate Signalled(e: Envelope) {
    e.signal.Some? && e.signal.value != ""
  }

  /** The module of `file` left the queue. */
  predicate Ended(modules: seq<Module>, file: string) {
    exists m :: m in modules && m.file == file && m.state != "queued" && m.state != "pending"
  }

  predicate ReporterComplete(r: Reporter) {
    && r.reporterErrors == [] && r.unhandledErrors == [] && r.suiteErrors == []
    && (forall m :: m in r.modules ==> m.errors == [])
    && (forall file :: file in r.expected ==> Ended(r.modules, file))
    && r.reason != "interrupted"
  }

  /** The exit status tells the same story as the cases. */
  predicate EnvelopeComplete(e: Envelope, reporter: Option<Reporter>) {
    && e.launcherError.None? && e.cleanupOk && !Signalled(e)
    && (reporter.Some? ==> (e.code == Some(0) <==> !AnyFailed(reporter.value.cases)))
  }

  /** A record that accounts for its run: all three parts, and nothing wrong beyond failed cases. */
  predicate Complete(record: RunRecord) {
    && record.malformed == []
    && record.reporter.Some? && ReporterComplete(record.reporter.value)
    && record.teardown == Some([])
    && record.envelope.Some? && EnvelopeComplete(record.envelope.value, record.reporter)
  }

  method ReporterBlockers(r: Reporter) returns (blockers: seq<string>)
    ensures blockers == [] <==> ReporterComplete(r)
  {
    blockers := r.reporterErrors + r.unhandledErrors;
    for i := 0 to |r.modules|
      invariant blockers == []
                <==> && r.reporterErrors == [] && r.unhandledErrors == []
                     && forall k :: 0 <= k < i ==> r.modules[k].errors == []
    {
      blockers := blockers + r.modules[i].errors;
    }
    blockers := blockers + r.suiteErrors;
    ghost var sofar := blockers;
    for i := 0 to |r.expected|
      invariant blockers == [] <==> sofar == [] && forall k :: 0 <= k < i ==> Ended(r.modules, r.expected[k])
    {
      if !Ended(r.modules, r.expected[i]) {
        blockers := blockers + [r.expected[i] + " never finished"];
      }
    }
    if r.reason == "interrupted" {
      blockers := blockers + ["the run was interrupted"];
    }
  }

  method RecordBlockers(record: RunRecord) returns (blockers: seq<string>)
    ensures blockers == [] <==> Complete(record)
  {
    blockers := record.malformed;
    if record.reporter.None? {
      blockers := blockers + ["the reporter wrote no completed record"];
    }
    if record.teardown.None? {
      blockers := blockers + ["the global teardown wrote no completion"];
    }
    if record.envelope.None? {
      blockers := blockers + ["the launcher wrote no envelope"];
    }
    if record.reporter.Some? {
      var more := ReporterBlockers(record.reporter.value);
      blockers := blockers + more;
    }
    blockers := blockers + (if record.teardown.Some? then record.teardown.value else []);
    if record.envelope.Some? {
      var e := record.envelope.value;
      if e.launcherError.Some? {
        blockers := blockers + ["launcher failed"];
      }
      if !e.cleanupOk {
        blockers := blockers + ["launcher cleanup failed"];
      }
      if Signalled(e) {
        blockers := blockers + ["the run ended by a signal"];
      }
      var failed := record.reporter.Some? && AnyFailed(record.reporter.value.cases);
      if e.code == Some(0) && failed {
        blockers := blockers + ["the run exited 0 although cases failed"];
      }
      if e.code != Some(0) && record.reporter.Some? && !failed && !Signalled(e) {
        blockers := blockers + ["the run failed without a failed case"];
      }
    }
  }

  function FailedFiles(record: RunRecord): set<string> {
    if record.reporter.None? then {} else set c | c in record.reporter.value.cases && c.state.Failed? :: c.file
  }

  const INTEGRATION_RECIPE := ["pnpm test:integration"]

  datatype Decision = Blocked | PassedOnSameShaRerun(flakes: seq<Identity>)

  /** Everything a passing decision rests on. */
  ghost predicate Grounds(original: RunRecord, rerun: RunRecord) {
    && Complete(original) && Complete(rerun)
    && !original.envelope.value.filtered && original.envelope.value.contract.recipe == INTEGRATION_RECIPE
    && rerun.envelope.value.contract == original.envelope.value.contract
    && FailedFiles(original) != {}
    && Clean(Within(original.reporter.value.cases, FailedFiles(original)),
             Within(rerun.reporter.value.cases, FailedFiles(original)))
  }

  method DecideRerun(original: RunRecord, rerun: RunRecord) returns (decision: Decision)
    ensures decision.PassedOnSameShaRerun? <==> Grounds(original, rerun)
    ensures decision.PassedOnSameShaRerun? ==>
              decision.flakes == Keys(FailedCases(original.reporter.value.cases))
  {
    var problems := RecordBlockers(original);
    if original.envelope.Some? && original.envelope.value.filtered {
      problems := problems + ["a filtered run cannot stand for the whole recipe"];
    }
    if original.envelope.Some? && original.envelope.value.contract.recipe != INTEGRATION_RECIPE {
      problems := problems + ["not the integration recipe"];
    }
    var files := FailedFiles(original);
    if files == {} {
      problems := problems + ["no case failed"];
    }
    var more := RecordBlockers(rerun);
    problems := problems + more;
    if rerun.envelope.Some?
      && (original.envelope.None? || rerun.envelope.value.contract != original.envelope.value.contract)
    {
      problems := problems + ["another SHA, tree, toolchain or input contract"];
    }
    if problems != [] || rerun.reporter.None? {
      return Blocked;
    }
    var compared, flakes := CompareRerun(original.reporter.value.cases, rerun.reporter.value.cases, files);
    if compared != [] {
      assert compared[0] in compared;
      return Blocked;
    }
    return PassedOnSameShaRerun(Keys(flakes));
  }

  function Keys(cases: seq<Case>): seq<Identity> {
    seq(|cases|, i requires 0 <= i < |cases| => Key(cases[i]))
  }

  lemma {:induction false} WithinMember(cases: seq<Case>, files: set<string>, c: Case)
    ensures c in Within(cases, files) <==> c in cases && c.file in files
  {
    if cases != [] {
      WithinMember(cases[1..], files, c);
      assert cases == [cases[0]] + cases[1..];
    }
  }

  /**
   What a complete record says: nothing is malformed, the suite ran to its end without an error beside failed
   cases, the teardown and the launcher ended cleanly, and the exit status is 0 exactly when no case failed.
   */
  ghost predicate AccountsFor(r: RunRecord) {
    && r.malformed == [] && r.reporter.Some? && r.teardown.Some? && r.teardown.value == [] && r.envelope.Some?
    && var reporter, e := r.reporter.value, r.envelope.value;
       && |reporter.reporterErrors| + |reporter.unhandledErrors| + |reporter.suiteErrors| == 0
       && (forall i :: 0 <= i < |reporter.modules| ==> reporter.modules[i].errors == [])
       && (forall i :: 0 <= i < |reporter.expected| ==>
             exists k :: 0 <= k < |reporter.modules| && RanToItsEnd(reporter.modules[k], reporter.expected[i]))
       && reporter.reason != "interrupted"
       && e.launcherError.None? && e.cleanupOk && (e.signal.None? || e.signal.value == "")
       && (e.code == Some(0) <==> forall i :: 0 <= i < |reporter.cases| ==> !reporter.cases[i].state.Failed?)
  }

  predicate RanToItsEnd(m: Module, file: string) {
    m.file == file && m.state != "queued" && m.state != "pending"
  }

  lemma CompleteIff(r: RunRecord)
    ensures Complete(r) <==> AccountsFor(r)
  {
    if r.reporter.Some? {
      var reporter := r.reporter.value;
      ReporterIff(reporter);
      assert ReporterComplete(reporter) <==>
          && |reporter.reporterErrors| + |reporter.unhandledErrors| + |reporter.suiteErrors| == 0
          && (forall i :: 0 <= i < |reporter.modules| ==> reporter.modules[i].errors == [])
          && (forall i :: 0 <= i < |reporter.expected| ==> Ended(reporter.modules, reporter.expected[i]))
          && reporter.reason != "interrupted";
      assert r.teardown.Some? ==> (r.teardown == Some([]) <==> r.teardown.value == []);
    }
  }

  lemma ReporterIff(r: Reporter)
    ensures AnyFailed(r.cases) <==> exists i :: 0 <= i < |r.cases| && r.cases[i].state.Failed?
    ensures forall file :: Ended(r.modules, file)
              <==> exists k :: 0 <= k < |r.modules| && RanToItsEnd(r.modules[k], file)
    ensures (forall m :: m in r.modules ==> m.errors == [])
            <==> forall i :: 0 <= i < |r.modules| ==> r.modules[i].errors == []
    ensures (forall file :: file in r.expected ==> Ended(r.modules, file))
            <==> forall i :: 0 <= i < |r.expected| ==> Ended(r.modules, r.expected[i])
  {
    forall file
      ensures Ended(r.modules, file) <==> exists k :: 0 <= k < |r.modules| && RanToItsEnd(r.modules[k], file)
    {
      if Ended(r.modules, file) {
        var m :| m in r.modules && m.file == file && m.state != "queued" && m.state != "pending";
        var k :| 0 <= k < |r.modules| && r.modules[k] == m;
        assert RanToItsEnd(r.modules[k], file);
      }
    }
  }

  /** The cases correspond one to one, always to a state as good, and shared identities all passed. */
  ghost predicate Corresponds(a: seq<Case>, b: seq<Case>) {
    && (exists p :: Matching(a, b, p))
    && (forall p :: MatchingReaches(a, b, p))
    && SharedAllPassed(b)
  }

  function FilesWithFailures(cases: seq<Case>): set<string> {
    set i | 0 <= i < |cases| && cases[i].state.Failed? :: cases[i].file
  }

  /** The decision in full: when exactly it passes. */
  lemma PassesExactly(original: RunRecord, rerun: RunRecord)
    ensures Grounds(original, rerun) <==>
            && AccountsFor(original) && AccountsFor(rerun)
            && !original.envelope.value.filtered
            && original.envelope.value.contract.recipe == ["pnpm test:integration"]
            && rerun.envelope.value.contract == original.envelope.value.contract
            && var cases := original.reporter.value.cases;
               var files := FilesWithFailures(cases);
               files != {} && Corresponds(Within(cases, files), Within(rerun.reporter.value.cases, files))
  {
    CompleteIff(original);
    CompleteIff(rerun);
    if original.reporter.Some? && rerun.reporter.Some? {
      var files := FailedFiles(original);
      assert files == FilesWithFailures(original.reporter.value.cases);
      CleanIff(Within(original.reporter.value.cases, files), Within(rerun.reporter.value.cases, files));
    }
  }

  /** A passing decision means every case that failed has a passed case of the same identity in the rerun. */
  lemma DecisionIsSound(original: RunRecord, rerun: RunRecord, c: Case) returns (d: Case)
    requires Grounds(original, rerun) && c in original.reporter.value.cases && c.state.Failed?
    ensures d in rerun.reporter.value.cases && SameIdentity(d, c) && d.state.Passed?
  {
    var files := FailedFiles(original);
    var a, b := Within(original.reporter.value.cases, files), Within(rerun.reporter.value.cases, files);
    WithinMember(original.reporter.value.cases, files, c);
    CleanIff(a, b);
    var p :| Matching(a, b, p);
    var i :| 0 <= i < |a| && a[i] == c;
    assert MatchingReaches(a, b, p);
    d := b[p[i]];
    WithinMember(rerun.reporter.value.cases, files, d);
  }
}
