/**
 The release channels of scripts/desktop-public-release.ts: draft, publish, verifyInsiderProvenance,
 requireNewerStable and the manifest refinement, over a store of releases with one release per tag.

 Publishers act one at a time. Between their actions, and between the reads and the PATCH of a publication,
 anyone may create, rewrite or delete a draft, in any way; a published release does not change. Hashes are
 taken to be injective.
 */
module Channel {
  import opened Options
  import opened Versions

  datatype Channel = Stable | Beta

  const ZIP := "Opensteer-mac-arm64.zip"

  const STABLE_PREFIX := "desktop-v"
  const PUBLIC_FEED := "https://github.com/steerlabs/opensteer#latest"
  const INSIDER_FEED := "https://github.com/steerlabs/opensteer#insider"

  function Tag(channel: Channel, version: string): string {
    if channel == Beta then "v" + version + "-insider" else STABLE_PREFIX + version
  }

  function Title(channel: Channel, version: string): string {
    if channel == Beta then "Opensteer " + version else "Opensteer " + version + " (Alpha)"
  }

  function Feed(channel: Channel): string {
    if channel == Beta then INSIDER_FEED else PUBLIC_FEED
  }

  const SUMS := "SHA256SUMS"
  const RELEASE_JSON := "release.json"

  function AssetsFor(channel: Channel): set<string> {
    {ZIP, "Opensteer-mac-arm64.zip.blockmap",
     if channel == Beta then "insider-mac.yml" else "latest-mac.yml", SUMS}
    + (if channel == Stable then {"install.sh"} else {})
  }

  datatype Manifest = Manifest(
    launchCheckPassed: bool, channel: Channel, prerelease: bool, tag: string, title: string, notes: string,
    version: string, sourceSha: string, assets: map<string, string>, feedURL: string, privateFeed: bool)

  /** manifestSchema with its refinement. */
  predicate WellFormed(m: Manifest) {
    && IsVersion(m.version)
    && m.tag == Tag(m.channel, m.version) && m.title == Title(m.channel, m.version)
    && m.prerelease == (m.channel == Beta)
    && m.assets.Keys == AssetsFor(m.channel)
    && (m.feedURL != Feed(m.channel) ==> m.privateFeed)
  }

  /** The bytes of a prepared directory or of a release: release.json, each file's hash, and what SHA256SUMS lists. */
  datatype Files = Files(manifest: Manifest, hashes: map<string, string>, sums: map<string, string>)

  /** verifyAssets */
  predicate AssetsMatch(f: Files, m: Manifest) {
    && (forall name :: name in m.assets ==> name in f.hashes && f.hashes[name] == m.assets[name])
    && f.sums == m.assets - {SUMS}
  }

  datatype Release = Release(
    draft: bool, immutable: bool, prerelease: bool, commitish: string, name: string, body: string,
    assetNames: multiset<string>, files: Files)

  type Store = map<string, Release>

  /** releaseManifest */
  predicate MetadataMatches(tag: string, r: Release, m: Manifest) {
    && r.body == m.notes && tag == m.tag && r.commitish == m.sourceSha && r.name == m.title
    && r.prerelease == m.prerelease
    && r.assetNames == multiset(AssetsFor(m.channel) + {RELEASE_JSON})
  }

  predicate PublicGuard(publicRepo: bool, m: Manifest) {
    publicRepo ==> !m.privateFeed && m.feedURL == Feed(m.channel)
  }

  /** verifyDraftAssets */
  predicate StoredFilesMatch(tag: string, r: Release) {
    WellFormed(r.files.manifest) && r.files.manifest.tag == tag && AssetsMatch(r.files, r.files.manifest)
  }

  /** A published release whose tag says stable. */
  predicate PublishedStable(tag: string, r: Release) {
    !r.draft && !r.prerelease && STABLE_PREFIX <= tag
  }

  function StableVersion(tag: string): string
    requires STABLE_PREFIX <= tag
  {
    tag[|STABLE_PREFIX|..]
  }

  predicate NewerThan(version: string, tag: string)
    requires IsVersion(version) && STABLE_PREFIX <= tag
  {
    IsVersion(StableVersion(tag)) && Compare(version, StableVersion(tag)) > 0
  }

  /** If it is a published stable, then one that `version` is newer than. */
  predicate Below(tag: string, r: Release, version: string)
    requires IsVersion(version)
  {
    PublishedStable(tag, r) ==> NewerThan(version, tag)
  }

  /** requireNewerStable as a property of the whole store. */
  ghost predicate NewerThanEveryStable(version: string, store: Store) {
    IsVersion(version) && forall tag :: tag in store ==> Below(tag, store[tag], version)
  }

  /** The listing loop: the first nonzero component difference decides, and anything not above throws. */
  method RequireNewerStable(version: string, releases: seq<(string, Release)>) returns (accepted: bool)
    ensures accepted <==>
            && IsVersion(version)
            && forall i :: 0 <= i < |releases| ==> Below(releases[i].0, releases[i].1, version)
  {
    if !IsVersion(version) {
      return false;
    }
    var next := Components(version);
    for i := 0 to |releases|
      invariant forall k :: 0 <= k < i ==> Below(releases[k].0, releases[k].1, version)
    {
      var (tag, release) := releases[i];
      if release.draft || release.prerelease || !(STABLE_PREFIX <= tag) {
        continue;
      }
      var text := tag[|STABLE_PREFIX|..];
      if !IsVersion(text) {
        assert !NewerThan(version, releases[i].0);
        return false;
      }
      var previous := Components(text);
      var difference: int := 0;
      var k := 0;
      while k < 3 && difference == 0
        invariant k <= 3 && (difference == 0 ==> next[..k] == previous[..k])
        invariant difference != 0 ==> (difference > 0 <==> Compare(version, text) > 0)
      {
        LexicographicAgrees(next, previous, k);
        difference := next[k] as int - previous[k];
        k := k + 1;
      }
      if difference == 0 {
        LexicographicAgrees(next, previous, 3);
      }
      if difference <= 0 {
        assert !NewerThan(version, releases[i].0);
        return false;
      }
    }
    return true;
  }

  /** What `gh release list` returns: every release once, in some order. */
  ghost predicate Lists(releases: seq<(string, Release)>, store: Store) {
    && (forall i :: 0 <= i < |releases| ==> releases[i].0 in store && store[releases[i].0] == releases[i].1)
    && (forall tag :: tag in store ==> (tag, store[tag]) in releases)
  }

  lemma ListingDecides(version: string, releases: seq<(string, Release)>, store: Store)
    requires Lists(releases, store)
    ensures NewerThanEveryStable(version, store) <==>
            && IsVersion(version)
            && forall i :: 0 <= i < |releases| ==> Below(releases[i].0, releases[i].1, version)
  {
    forall tag | tag in store
      ensures exists i :: 0 <= i < |releases| && releases[i] == (tag, store[tag])
    {
      assert (tag, store[tag]) in releases;
    }
  }

  /** verifyInsiderProvenance for the stable release with manifest `m`. */
  predicate Insider(store: Store, publicRepo: bool, m: Manifest) {
    var tag := Tag(Beta, m.version);
    && tag in store
    && var r := store[tag];
       && !r.draft && r.prerelease && r.immutable
       && WellFormed(r.files.manifest) && MetadataMatches(tag, r, r.files.manifest)
       && PublicGuard(publicRepo, r.files.manifest)
       && r.files.manifest.channel == Beta && r.files.manifest.launchCheckPassed
       && r.files.manifest.sourceSha == m.sourceSha && r.files.manifest.version == m.version
       && AssetsMatch(r.files, r.files.manifest)
  }

  /** What a caller may name of the release it publishes: its channel, its source and the certified zip. */
  datatype Expected = Expected(channel: Option<Channel>, sourceSha: Option<string>, zip: Option<string>)

  predicate Agrees<T(==)>(expected: Option<T>, actual: T) {
    expected.Some? ==> expected.value == actual
  }

  predicate AsExpected(e: Expected, m: Manifest) {
    && Agrees(e.channel, m.channel) && Agrees(e.sourceSha, m.sourceSha)
    && (e.zip.Some? ==> ZIP in m.assets && m.assets[ZIP] == e.zip.value)
  }

  /** What publish checks of the release `read`: its metadata as listed, its files as downloaded. */
  predicate Checked(publicRepo: bool, tag: string, read: Release) {
    && StoredFilesMatch(tag, read)
    && var m := read.files.manifest;
       m.launchCheckPassed && MetadataMatches(tag, read, m) && PublicGuard(publicRepo, m)
  }

  /** What publish checks of the other releases before a draft becomes public. */
  ghost predicate Admissible(store: Store, publicRepo: bool, m: Manifest) {
    m.channel == Stable ==> Insider(store, publicRepo, m) && NewerThanEveryStable(m.version, store)
  }

  /** The PATCH sets the two flags, whatever the draft says by then; the host decides whether it becomes immutable. */
  function Patched(r: Release, prerelease: bool, immutable: bool): Release {
    r.(draft := false, prerelease := prerelease, immutable := immutable)
  }

  function Drafted(f: Files): Release {
    var m := f.manifest;
    var names := multiset(AssetsFor(m.channel) + {RELEASE_JSON});
    Release(true, false, m.prerelease, m.sourceSha, m.title, m.notes, names, f)
  }

  /**
   Where publish is: it found the release in the listing, or it also downloaded and checked it. In `read` the
   metadata are those of the listing and the files those of the download.
   */
  datatype Publisher =
    | Resting
    | Found(tag: string, expected: Expected, listed: Release)
    | Cleared(tag: string, expected: Expected, read: Release)

  /** History: `log` has the tags in the order they were published, `seen` what publish had read of each. */
  datatype State = State(store: Store, log: seq<string>, seen: map<string, Release>, publisher: Publisher)

  const EMPTY := State(map[], [], map[], Resting)

  datatype Action =
    | Draft(files: Files)
    | Find(tag: string, expected: Expected)
    | Fetch
    | Patch(immutable: bool)
    | RewriteDraft(tag: string, release: Release)
    | DeleteDraft(tag: string)
    | GiveUp

  /** What an action does. Every refusal, and a failed check after publication, leaves the store as it was. */
  ghost predicate Acts(publicRepo: bool, s: State, a: Action, t: State) {
    match a
    case Draft(f) =>
      && s.publisher.Resting?
      && WellFormed(f.manifest) && PublicGuard(publicRepo, f.manifest) && AssetsMatch(f, f.manifest)
      && (if f.manifest.tag in s.store then
            var r := s.store[f.manifest.tag];
            MetadataMatches(f.manifest.tag, r, f.manifest) && r.draft && r.files.manifest == f.manifest
            && StoredFilesMatch(f.manifest.tag, r) && t == s
          else t == s.(store := s.store[f.manifest.tag := Drafted(f)]))
    case Find(tag, expected) =>
      && s.publisher.Resting? && tag in s.store
      && t == s.(publisher := Found(tag, expected, s.store[tag]))
    // What is read of the other releases is published, so it does not matter when it is read.
    case Fetch =>
      && s.publisher.Found? && s.publisher.tag in s.store
      && var read := s.publisher.listed.(files := s.store[s.publisher.tag].files);
         && Checked(publicRepo, s.publisher.tag, read) && AsExpected(s.publisher.expected, read.files.manifest)
         && (read.draft ==> Admissible(s.store, publicRepo, read.files.manifest))
         && t == s.(publisher := if read.draft then Cleared(s.publisher.tag, s.publisher.expected, read) else Resting)
    case Patch(immutable) =>
      && s.publisher.Cleared? && s.publisher.tag in s.store && s.store[s.publisher.tag].draft
      && var tag, read := s.publisher.tag, s.publisher.read;
         t == State(s.store[tag := Patched(s.store[tag], read.files.manifest.prerelease, immutable)], s.log + [tag],
                    s.seen[tag := read], Resting)
    case RewriteDraft(tag, r) =>
      r.draft && (tag in s.store ==> s.store[tag].draft) && t == s.(store := s.store[tag := r])
    case DeleteDraft(tag) => tag in s.store && s.store[tag].draft && t == s.(store := s.store - {tag})
    case GiveUp => t == s.(publisher := Resting)
  }

  ghost predicate StepAt(publicRepo: bool, trace: seq<State>, actions: seq<Action>, i: nat)
    requires |trace| == |actions| + 1
  {
    i < |actions| && Acts(publicRepo, trace[i], actions[i], trace[i + 1])
  }

  /** Every sequential run from an empty repository. */
  ghost predicate Run(publicRepo: bool, trace: seq<State>, actions: seq<Action>) {
    && |trace| == |actions| + 1 && trace[0] == EMPTY
    && forall i :: 0 <= i < |actions| ==> StepAt(publicRepo, trace, actions, i)
  }

  // ---------------------------------------------------------------------------
  // Invariant

  lemma StableTag(m: Manifest)
    requires WellFormed(m)
    ensures m.channel == Stable <==> STABLE_PREFIX <= m.tag
    ensures m.channel == Stable ==> StableVersion(m.tag) == m.version
  {
    if m.channel == Beta {
      assert m.tag[0] == 'v';
    }
  }

  /** A published release that matches its manifest, metadata, hashes and launch check. */
  ghost predicate Sound(publicRepo: bool, tag: string, r: Release) {
    !r.draft && Checked(publicRepo, tag, r)
  }

  /** What is public under the tag is what publish had read. */
  predicate AsRead(s: State, tag: string) {
    && tag in s.store && tag in s.seen && !s.store[tag].draft
    && s.store[tag] == Patched(s.seen[tag], s.store[tag].prerelease, s.store[tag].immutable)
  }

  /** Equal up to the flags that the PATCH sets. */
  predicate SameDraft(r: Release, read: Release) {
    r.(prerelease := read.prerelease, immutable := read.immutable) == read
  }

  /** The log lists the published releases, each once; their flags fit their tags; and each was checked. */
  ghost predicate LogMatches(publicRepo: bool, s: State) {
    && (forall tag :: tag in s.log <==> tag in s.store && !s.store[tag].draft)
    && (forall tag :: tag in s.log ==> tag in s.seen && Checked(publicRepo, tag, s.seen[tag]))
    && (forall tag :: tag in s.log ==> s.store[tag].prerelease == s.seen[tag].files.manifest.prerelease)
    && (forall i, j :: 0 <= i < j < |s.log| ==> s.log[i] != s.log[j])
  }

  /** A publisher about to patch has checked what it read, and what it checked of the public releases still holds. */
  ghost predicate PublisherInv(publicRepo: bool, s: State) {
    s.publisher.Cleared? ==>
      var p := s.publisher;
      && p.read.draft && Checked(publicRepo, p.tag, p.read) && AsExpected(p.expected, p.read.files.manifest)
      && Admissible(s.store, publicRepo, p.read.files.manifest)
  }

  ghost predicate Increasing(s: State) {
    forall i, j :: 0 <= i < j < |s.log| && IsStable(s, i) && IsStable(s, j) ==> Rises(s, i, j)
  }

  ghost predicate AllCertified(publicRepo: bool, s: State) {
    forall i :: 0 <= i < |s.log| && IsStable(s, i) ==> Certified(publicRepo, s, i)
  }

  ghost predicate Inv(publicRepo: bool, s: State) {
    LogMatches(publicRepo, s) && PublisherInv(publicRepo, s) && Increasing(s) && AllCertified(publicRepo, s)
  }

  /** The i-th publication has a stable tag. */
  predicate IsStable(s: State, i: nat) {
    i < |s.log| && STABLE_PREFIX <= s.log[i]
  }

  /** The i-th and j-th publications are stables of increasing version. */
  predicate Rises(s: State, i: nat, j: nat)
    requires IsStable(s, i) && IsStable(s, j)
  {
    var v, w := StableVersion(s.log[i]), StableVersion(s.log[j]);
    IsVersion(v) && IsVersion(w) && Compare(v, w) < 0
  }

  /** An earlier publication is the immutable, launch-checked beta of the version and of the source that was read. */
  ghost predicate Certified(publicRepo: bool, s: State, i: nat)
    requires IsStable(s, i)
  {
    && s.log[i] in s.seen && s.seen[s.log[i]].files.manifest.version == StableVersion(s.log[i])
    && exists b: nat :: b < i && IsBetaOf(publicRepo, s, b, s.seen[s.log[i]].files.manifest)
  }

  /** The b-th publication is public, immutable, sound, and the beta of the version and source of `m`. */
  ghost predicate IsBetaOf(publicRepo: bool, s: State, b: nat, m: Manifest) {
    && b < |s.log| && s.log[b] == Tag(Beta, m.version) && s.log[b] in s.store
    && var r := s.store[s.log[b]];
       && Sound(publicRepo, s.log[b], r) && r.immutable && r.files.manifest.channel == Beta
       && r.files.manifest.version == m.version && r.files.manifest.sourceSha == m.sourceSha
  }

  /** Nothing about the earlier publications changes in a state that keeps them. */
  ghost predicate Keeps(s: State, t: State) {
    && s.log <= t.log
    && forall tag :: tag in s.log ==>
         && tag in s.store && tag in t.store && t.store[tag] == s.store[tag]
         && tag in s.seen && tag in t.seen && t.seen[tag] == s.seen[tag]
  }

  /** A published release is never touched again, and the log only grows. */
  lemma PublishedIsKept(publicRepo: bool, s: State, a: Action, t: State)
    requires LogMatches(publicRepo, s) && Acts(publicRepo, s, a, t)
    ensures Keeps(s, t)
  {
  }

  /** Patching needs a draft, so the tag is new, and its flags come from the manifest that was read. */
  lemma PatchKeepsLog(publicRepo: bool, s: State, immutable: bool, t: State)
    requires LogMatches(publicRepo, s) && PublisherInv(publicRepo, s) && Acts(publicRepo, s, Patch(immutable), t)
    ensures LogMatches(publicRepo, t) && t.log == s.log + [s.publisher.tag]
  {
    var tag, read := s.publisher.tag, s.publisher.read;
    LogExtends(publicRepo, s, t, tag, Patched(s.store[tag], read.files.manifest.prerelease, immutable), read);
  }

  lemma LogExtends(publicRepo: bool, s: State, t: State, tag: string, r: Release, read: Release)
    requires LogMatches(publicRepo, s) && tag in s.store && s.store[tag].draft && !r.draft
    requires Checked(publicRepo, tag, read) && r.prerelease == read.files.manifest.prerelease
    requires t.store == s.store[tag := r] && t.log == s.log + [tag] && t.seen == s.seen[tag := read]
    ensures LogMatches(publicRepo, t)
  {
    assert tag !in s.log;
  }

  lemma DraftingKeepsLog(publicRepo: bool, s: State, a: Action, t: State)
    requires LogMatches(publicRepo, s) && Acts(publicRepo, s, a, t) && !a.Patch?
    ensures LogMatches(publicRepo, t) && t.log == s.log
  {
  }

  /** Drafts come and go, but nobody asks about them: the provenance and the head guard read public releases. */
  lemma StaysAdmissible(publicRepo: bool, s: State, a: Action, t: State, m: Manifest)
    requires LogMatches(publicRepo, s) && Acts(publicRepo, s, a, t) && !a.Patch?
    requires Admissible(s.store, publicRepo, m)
    ensures Admissible(t.store, publicRepo, m)
  {
    PublishedIsKept(publicRepo, s, a, t);
    DraftingKeepsLog(publicRepo, s, a, t);
    if m.channel == Stable {
      assert Tag(Beta, m.version) in s.log;
      forall tag | tag in t.store
        ensures Below(tag, t.store[tag], m.version)
      {
        assert PublishedStable(tag, t.store[tag]) ==> tag in s.log && Below(tag, s.store[tag], m.version);
      }
    }
  }

  lemma StepKeepsPublisher(publicRepo: bool, s: State, a: Action, t: State)
    requires LogMatches(publicRepo, s) && PublisherInv(publicRepo, s) && Acts(publicRepo, s, a, t)
    ensures PublisherInv(publicRepo, t)
  {
    if t.publisher.Cleared? {
      if s.publisher.Cleared? {
        StaysAdmissible(publicRepo, s, a, t, s.publisher.read.files.manifest);
      } else {
        assert t.store == s.store;
      }
    }
  }

  /** What is known of the earlier publications stays so. */
  lemma EarlierKept(publicRepo: bool, s: State, t: State, i: nat)
    requires Inv(publicRepo, s) && Keeps(s, t) && i < |s.log| && IsStable(t, i)
    ensures Certified(publicRepo, t, i)
  {
    assert IsStable(s, i) && Certified(publicRepo, s, i) && s.log[i] in s.log;
    var m := s.seen[s.log[i]].files.manifest;
    var b: nat :| b < i && IsBetaOf(publicRepo, s, b, m);
    assert s.log[b] in s.log && t.log[b] == s.log[b];
    assert IsBetaOf(publicRepo, t, b, m);
  }

  lemma EarlierRise(publicRepo: bool, s: State, t: State, i: nat, j: nat)
    requires Inv(publicRepo, s) && Keeps(s, t) && i < j < |s.log| && IsStable(t, i) && IsStable(t, j)
    ensures Rises(t, i, j)
  {
    assert IsStable(s, i) && IsStable(s, j) && Rises(s, i, j);
  }

  /** The head guard: a stable about to become public is above each stable published before. */
  lemma NewStableRises(publicRepo: bool, s: State, i: nat)
    requires Inv(publicRepo, s) && s.publisher.Cleared? && STABLE_PREFIX <= s.publisher.tag && IsStable(s, i)
    ensures var v, w := StableVersion(s.log[i]), StableVersion(s.publisher.tag);
            IsVersion(v) && IsVersion(w) && Compare(v, w) < 0
  {
    var m, other := s.publisher.read.files.manifest, s.log[i];
    StableTag(m);
    assert other in s.log;
    StableTag(s.seen[other].files.manifest);
    assert PublishedStable(other, s.store[other]);
    assert Below(other, s.store[other], m.version);
    CompareIsATotalOrder(m.version, StableVersion(other), m.version);
  }

  /** The provenance check: its beta is already in the log. */
  lemma NewStableCertified(publicRepo: bool, s: State) returns (b: nat)
    requires Inv(publicRepo, s) && s.publisher.Cleared? && STABLE_PREFIX <= s.publisher.tag
    ensures IsBetaOf(publicRepo, s, b, s.publisher.read.files.manifest)
    ensures s.publisher.read.files.manifest.version == StableVersion(s.publisher.tag)
  {
    var m := s.publisher.read.files.manifest;
    StableTag(m);
    var beta := Tag(Beta, m.version);
    assert beta in s.log;
    b :| 0 <= b < |s.log| && s.log[b] == beta;
  }

  lemma StepKeepsOrder(publicRepo: bool, s: State, a: Action, t: State, i: nat, j: nat)
    requires Inv(publicRepo, s) && Acts(publicRepo, s, a, t) && i < j < |t.log| && IsStable(t, i) && IsStable(t, j)
    ensures Rises(t, i, j)
  {
    PublishedIsKept(publicRepo, s, a, t);
    if j < |s.log| {
      EarlierRise(publicRepo, s, t, i, j);
    } else {
      NewStableRises(publicRepo, s, i);
    }
  }

  lemma StepKeepsCertified(publicRepo: bool, s: State, a: Action, t: State, i: nat)
    requires Inv(publicRepo, s) && Acts(publicRepo, s, a, t) && i < |t.log| && IsStable(t, i)
    ensures Certified(publicRepo, t, i)
  {
    PublishedIsKept(publicRepo, s, a, t);
    if i < |s.log| {
      EarlierKept(publicRepo, s, t, i);
    } else {
      var b := NewStableCertified(publicRepo, s);
      assert s.log[b] in s.log && t.log[b] == s.log[b];
      assert IsBetaOf(publicRepo, t, b, t.seen[t.log[i]].files.manifest);
    }
  }

  lemma StepKeepsInv(publicRepo: bool, s: State, a: Action, t: State)
    requires Inv(publicRepo, s) && Acts(publicRepo, s, a, t)
    ensures Inv(publicRepo, t)
  {
    StepKeepsPublisher(publicRepo, s, a, t);
    if a.Patch? {
      PatchKeepsLog(publicRepo, s, a.immutable, t);
    } else {
      DraftingKeepsLog(publicRepo, s, a, t);
    }
    forall i, j | 0 <= i < j < |t.log| && IsStable(t, i) && IsStable(t, j)
      ensures Rises(t, i, j)
    {
      StepKeepsOrder(publicRepo, s, a, t, i, j);
    }
    forall i | 0 <= i < |t.log| && IsStable(t, i)
      ensures Certified(publicRepo, t, i)
    {
      StepKeepsCertified(publicRepo, s, a, t, i);
    }
  }

  lemma {:induction false} RunKeepsInv(publicRepo: bool, trace: seq<State>, actions: seq<Action>, k: nat)
    requires Run(publicRepo, trace, actions) && k < |trace|
    ensures Inv(publicRepo, trace[k])
  {
    if k > 0 {
      RunKeepsInv(publicRepo, trace, actions, k - 1);
      assert StepAt(publicRepo, trace, actions, k - 1);
      StepKeepsInv(publicRepo, trace[k - 1], actions[k - 1], trace[k]);
    }
  }

  // ---------------------------------------------------------------------------
  // What a release is, field by field

  /** The release agrees with its own manifest, the manifest with its channel, and a public one has the public feed. */
  ghost predicate Described(publicRepo: bool, tag: string, r: Release) {
    var m := r.files.manifest;
    var beta := m.channel.Beta?;
    && IsVersion(m.version)
    && tag == m.tag == (if beta then "v" + m.version + "-insider" else "desktop-v" + m.version)
    && r.name == m.title == "Opensteer " + m.version + (if beta then "" else " (Alpha)")
    && r.body == m.notes && r.commitish == m.sourceSha && r.prerelease == m.prerelease == beta
    && m.assets.Keys == {"Opensteer-mac-arm64.zip", "Opensteer-mac-arm64.zip.blockmap", "SHA256SUMS",
                         if beta then "insider-mac.yml" else "latest-mac.yml"}
                        + (if beta then {} else {"install.sh"})
    && r.assetNames == multiset(m.assets.Keys + {"release.json"})
    && (forall name :: name in m.assets ==> name in r.files.hashes && r.files.hashes[name] == m.assets[name])
    && (forall name :: name in r.files.sums <==> name in m.assets && name != "SHA256SUMS")
    && (forall name :: name in r.files.sums ==> r.files.sums[name] == m.assets[name])
    && (m.privateFeed
        || m.feedURL == "https://github.com/steerlabs/opensteer#" + (if beta then "insider" else "latest"))
    && (publicRepo ==> !m.privateFeed)
  }

  lemma FeedIsPublic(channel: Channel)
    ensures Feed(channel) == "https://github.com/steerlabs/opensteer#" + (if channel.Beta? then "insider" else "latest")
  {
  }

  lemma DescribedIff(publicRepo: bool, tag: string, r: Release)
    ensures Described(publicRepo, tag, r) && r.files.manifest.launchCheckPassed <==> Checked(publicRepo, tag, r)
    ensures Described(publicRepo, tag, r)
            <==> && StoredFilesMatch(tag, r) && MetadataMatches(tag, r, r.files.manifest)
                 && PublicGuard(publicRepo, r.files.manifest)
  {
    var m := r.files.manifest;
    FeedIsPublic(m.channel);
    TitleIs(m.channel, m.version);
    AssetsMatchIff(r.files, m);
  }

  lemma TitleIs(channel: Channel, version: string)
    ensures Title(channel, version) == "Opensteer " + version + (if channel.Beta? then "" else " (Alpha)")
    ensures Tag(channel, version) == if channel.Beta? then "v" + version + "-insider" else "desktop-v" + version
  {
    assert "Opensteer " + version + "" == "Opensteer " + version;
  }

  lemma AssetsMatchIff(f: Files, m: Manifest)
    ensures AssetsMatch(f, m) <==>
            && (forall name :: name in m.assets ==> name in f.hashes && f.hashes[name] == m.assets[name])
            && (forall name :: name in f.sums <==> name in m.assets && name != "SHA256SUMS")
            && (forall name :: name in f.sums ==> f.sums[name] == m.assets[name])
  {
    if (forall name :: name in f.sums <==> name in m.assets && name != "SHA256SUMS")
       && (forall name :: name in f.sums ==> f.sums[name] == m.assets[name])
    {
      assert f.sums == m.assets - {SUMS};
    }
  }

  /** The manifest is of the channel, the source and the zip that were named. */
  predicate IsAsNamed(e: Expected, m: Manifest) {
    && (e.channel.Some? ==> m.channel == e.channel.value)
    && (e.sourceSha.Some? ==> m.sourceSha == e.sourceSha.value)
    && (e.zip.Some? ==> "Opensteer-mac-arm64.zip" in m.assets && m.assets["Opensteer-mac-arm64.zip"] == e.zip.value)
  }

  /** The b-th publication is public, immutable, launch-checked, and the beta of the version and source of `m`. */
  ghost predicate CertifiesAt(publicRepo: bool, s: State, b: nat, m: Manifest) {
    && b < |s.log| && s.log[b] == "v" + m.version + "-insider" && s.log[b] in s.store
    && var r := s.store[s.log[b]];
       && Described(publicRepo, s.log[b], r) && !r.draft && r.immutable && r.files.manifest.launchCheckPassed
       && r.files.manifest.version == m.version && r.files.manifest.sourceSha == m.sourceSha
  }

  lemma BetaOfIff(publicRepo: bool, s: State, b: nat, m: Manifest)
    ensures IsBetaOf(publicRepo, s, b, m) <==> CertifiesAt(publicRepo, s, b, m)
  {
    TitleIs(Beta, m.version);
    if b < |s.log| && s.log[b] in s.store {
      DescribedIff(publicRepo, s.log[b], s.store[s.log[b]]);
      if CertifiesAt(publicRepo, s, b, m) {
        assert s.log[b][0] == 'v';
      }
    }
  }

  /** A stable may become public: its beta is, and it is above each stable published so far. */
  ghost predicate MayFollow(publicRepo: bool, s: State, m: Manifest) {
    HasPublicBeta(publicRepo, s, m) && AboveAll(s, m.version)
  }

  ghost predicate HasPublicBeta(publicRepo: bool, s: State, m: Manifest) {
    exists b: nat :: CertifiesAt(publicRepo, s, b, m)
  }

  ghost predicate AboveAll(s: State, version: string) {
    forall i: nat :: IsStable(s, i) ==> Above(version, StableVersion(s.log[i]))
  }

  predicate Above(v: string, w: string) {
    IsVersion(v) && IsVersion(w) && Compare(v, w) > 0
  }

  lemma InsiderIff(publicRepo: bool, s: State, m: Manifest)
    requires LogMatches(publicRepo, s)
    ensures Insider(s.store, publicRepo, m) <==> HasPublicBeta(publicRepo, s, m)
  {
    var tag := Tag(Beta, m.version);
    if Insider(s.store, publicRepo, m) {
      var b :| 0 <= b < |s.log| && s.log[b] == tag;
      BetaOfIff(publicRepo, s, b, m);
    }
    if HasPublicBeta(publicRepo, s, m) {
      var b: nat :| CertifiesAt(publicRepo, s, b, m);
      BetaOfIff(publicRepo, s, b, m);
    }
  }

  lemma NewerIff(publicRepo: bool, s: State, version: string)
    requires LogMatches(publicRepo, s) && IsVersion(version)
    ensures NewerThanEveryStable(version, s.store) <==> AboveAll(s, version)
  {
    if NewerThanEveryStable(version, s.store) {
      forall i: nat | IsStable(s, i)
        ensures Above(version, StableVersion(s.log[i]))
      {
        assert s.log[i] in s.log;
        StableTag(s.seen[s.log[i]].files.manifest);
        assert Below(s.log[i], s.store[s.log[i]], version);
      }
    }
    if AboveAll(s, version) {
      forall tag | tag in s.store
        ensures Below(tag, s.store[tag], version)
      {
        if PublishedStable(tag, s.store[tag]) {
          var i :| 0 <= i < |s.log| && s.log[i] == tag;
          assert IsStable(s, i);
        }
      }
    }
  }

  /**
   What publish clears, in every reachable state: exactly a release that agrees with its manifest, passed its
   launch check and is as its caller named it; and a stable draft only when its beta is public and it is above
   each stable published so far.
   */
  lemma ClearsExactly(publicRepo: bool, trace: seq<State>, actions: seq<Action>, k: nat)
    requires Run(publicRepo, trace, actions) && k < |trace|
    requires trace[k].publisher.Found? && trace[k].publisher.tag in trace[k].store
    ensures (exists t :: Acts(publicRepo, trace[k], Fetch, t)) <==> Clearable(publicRepo, trace[k])
  {
    RunKeepsInv(publicRepo, trace, actions, k);
    ClearableIff(publicRepo, trace[k]);
  }

  lemma ClearableIff(publicRepo: bool, s: State)
    requires LogMatches(publicRepo, s) && s.publisher.Found? && s.publisher.tag in s.store
    ensures (exists t :: Acts(publicRepo, s, Fetch, t)) <==> Clearable(publicRepo, s)
  {
    var read := s.publisher.listed.(files := s.store[s.publisher.tag].files);
    FetchIff(publicRepo, s);
    DescribedIff(publicRepo, s.publisher.tag, read);
    if IsVersion(read.files.manifest.version) {
      AdmissibleIff(publicRepo, s, read.files.manifest);
    }
  }

  ghost predicate Clearable(publicRepo: bool, s: State)
    requires s.publisher.Found? && s.publisher.tag in s.store
  {
    var read := s.publisher.listed.(files := s.store[s.publisher.tag].files);
    var m := read.files.manifest;
    && Described(publicRepo, s.publisher.tag, read) && m.launchCheckPassed && IsAsNamed(s.publisher.expected, m)
    && (read.draft && m.channel.Stable? ==> MayFollow(publicRepo, s, m))
  }

  lemma FetchIff(publicRepo: bool, s: State)
    requires s.publisher.Found? && s.publisher.tag in s.store
    ensures var read := s.publisher.listed.(files := s.store[s.publisher.tag].files);
            (exists t :: Acts(publicRepo, s, Fetch, t))
            <==> && Checked(publicRepo, s.publisher.tag, read) && AsExpected(s.publisher.expected, read.files.manifest)
                 && (read.draft ==> Admissible(s.store, publicRepo, read.files.manifest))
  {
    var read := s.publisher.listed.(files := s.store[s.publisher.tag].files);
    var next := if read.draft then Cleared(s.publisher.tag, s.publisher.expected, read) else Resting;
    assert (exists u :: Acts(publicRepo, s, Fetch, u)) <==> Acts(publicRepo, s, Fetch, s.(publisher := next));
  }

  lemma AdmissibleIff(publicRepo: bool, s: State, m: Manifest)
    requires LogMatches(publicRepo, s) && IsVersion(m.version)
    ensures Admissible(s.store, publicRepo, m) <==> (m.channel.Stable? ==> MayFollow(publicRepo, s, m))
  {
    InsiderIff(publicRepo, s, m);
    NewerIff(publicRepo, s, m.version);
  }

  /** What draft leaves behind: a draft that agrees with its manifest, and every other release as it was. */
  lemma DraftedIsDescribed(publicRepo: bool, s: State, f: Files, t: State)
    requires Acts(publicRepo, s, Draft(f), t)
    ensures var tag := f.manifest.tag;
            && tag in t.store && t.store[tag].draft && t.store[tag].files.manifest == f.manifest
            && Described(publicRepo, tag, t.store[tag])
            && (if tag in s.store then t == s
                else t.store[tag].files == f && !t.store[tag].immutable && t.store - {tag} == s.store
                     && t.log == s.log && t.seen == s.seen)
  {
    DescribedIff(publicRepo, f.manifest.tag, t.store[f.manifest.tag]);
    assert f.manifest.tag !in s.store ==> t.store - {f.manifest.tag} == s.store;
  }

  /** And when it is accepted: for files that agree with their manifest, beside no release but such a draft. */
  lemma DraftsExactly(publicRepo: bool, s: State, f: Files)
    ensures var tag := f.manifest.tag;
            (exists t :: Acts(publicRepo, s, Draft(f), t))
            <==> && s.publisher.Resting? && Described(publicRepo, tag, Drafted(f))
                 && (tag in s.store ==>
                       s.store[tag].draft && s.store[tag].files.manifest == f.manifest
                       && Described(publicRepo, tag, s.store[tag]))
  {
    var tag := f.manifest.tag;
    DescribedIff(publicRepo, tag, Drafted(f));
    if tag in s.store {
      DescribedIff(publicRepo, tag, s.store[tag]);
    }
    var t := if tag in s.store then s else s.(store := s.store[tag := Drafted(f)]);
    assert (exists u :: Acts(publicRepo, s, Draft(f), u)) <==> Acts(publicRepo, s, Draft(f), t);
  }

  // ---------------------------------------------------------------------------
  // Main results

  /** Published stable versions strictly increase in the order of publication, whatever is rewritten meanwhile. */
  lemma StablesIncrease(publicRepo: bool, trace: seq<State>, actions: seq<Action>, k: nat, i: nat, j: nat)
    requires Run(publicRepo, trace, actions) && k < |trace|
    requires i < j && IsStable(trace[k], i) && IsStable(trace[k], j)
    ensures Rises(trace[k], i, j)
  {
    RunKeepsInv(publicRepo, trace, actions, k);
  }

  /**
   Every published stable follows a sound, immutable beta of its version and of the source that was read, and
   that source is its own if the draft was not rewritten under the publisher.
   */
  lemma StableFollowsItsBeta(publicRepo: bool, trace: seq<State>, actions: seq<Action>, k: nat, i: nat)
    returns (b: nat)
    requires Run(publicRepo, trace, actions) && k < |trace| && IsStable(trace[k], i)
    ensures var s, tag := trace[k], trace[k].log[i];
            && b < i && tag in s.seen && CertifiesAt(publicRepo, s, b, s.seen[tag].files.manifest)
            && s.seen[tag].files.manifest.version == StableVersion(tag)
            && (AsRead(s, tag) ==> CertifiesAt(publicRepo, s, b, s.store[tag].files.manifest))
  {
    RunKeepsInv(publicRepo, trace, actions, k);
    assert Certified(publicRepo, trace[k], i);
    b :| b < i && IsBetaOf(publicRepo, trace[k], b, trace[k].seen[trace[k].log[i]].files.manifest);
    BetaOfIff(publicRepo, trace[k], b, trace[k].seen[trace[k].log[i]].files.manifest);
  }

  lemma OnePublishedKept(publicRepo: bool, s: State, a: Action, t: State, tag: string)
    requires LogMatches(publicRepo, s) && Acts(publicRepo, s, a, t) && tag in s.log
    ensures tag in t.log && tag in s.store && tag in t.store && t.store[tag] == s.store[tag]
    ensures tag in s.seen && tag in t.seen && t.seen[tag] == s.seen[tag] && !t.store[tag].draft
  {
    PublishedIsKept(publicRepo, s, a, t);
  }

  lemma {:induction false} PublishedIsFinal(
    publicRepo: bool, trace: seq<State>, actions: seq<Action>, j: nat, k: nat, tag: string)
    requires Run(publicRepo, trace, actions) && j <= k < |trace| && tag in trace[j].log
    ensures tag in trace[j].store && tag in trace[k].store && trace[k].store[tag] == trace[j].store[tag]
    ensures tag in trace[j].seen && tag in trace[k].seen && trace[k].seen[tag] == trace[j].seen[tag]
    ensures tag in trace[k].log && !trace[k].store[tag].draft
  {
    if j == k {
      RunKeepsInv(publicRepo, trace, actions, k);
    } else {
      PublishedIsFinal(publicRepo, trace, actions, j, k - 1, tag);
      RunKeepsInv(publicRepo, trace, actions, k - 1);
      assert StepAt(publicRepo, trace, actions, k - 1);
      OnePublishedKept(publicRepo, trace[k - 1], actions[k - 1], trace[k], tag);
    }
  }

  /** What is public and was not rewritten under the publisher is sound, in every later state. */
  lemma PublishedStaysVerified(
    publicRepo: bool, trace: seq<State>, actions: seq<Action>, j: nat, k: nat, tag: string)
    requires Run(publicRepo, trace, actions) && j <= k < |trace| && tag in trace[j].log
    ensures tag in trace[j].store && tag in trace[k].store && trace[k].store[tag] == trace[j].store[tag]
    ensures AsRead(trace[j], tag) <==> AsRead(trace[k], tag)
    ensures AsRead(trace[k], tag) ==>
              var r := trace[k].store[tag];
              !r.draft && Described(publicRepo, tag, r) && r.files.manifest.launchCheckPassed
  {
    RunKeepsInv(publicRepo, trace, actions, j);
    RunKeepsInv(publicRepo, trace, actions, k);
    PublishedIsFinal(publicRepo, trace, actions, j, k, tag);
    DescribedIff(publicRepo, tag, trace[k].store[tag]);
  }

  /** What the PATCH of publisher `p` makes of the store `before`. */
  predicate Publishes(p: Publisher, before: Store, t: State)
    requires p.Cleared?
  {
    && p.tag in before && p.tag in t.store && p.tag in t.seen && t.seen[p.tag] == p.read
    && t.store[p.tag].files == before[p.tag].files
    && (AsRead(t, p.tag) <==> SameDraft(before[p.tag], p.read))
    && (AsRead(t, p.tag) ==> IsAsNamed(p.expected, t.store[p.tag].files.manifest))
  }

  lemma PatchPublishes(publicRepo: bool, s: State, immutable: bool, t: State)
    requires PublisherInv(publicRepo, s) && Acts(publicRepo, s, Patch(immutable), t)
    ensures Publishes(s.publisher, s.store, t) && s.publisher.tag in t.log
  {
    assert t.log[|s.log|] == s.publisher.tag;
  }

  lemma PatchedAt(publicRepo: bool, trace: seq<State>, actions: seq<Action>, i: nat)
    requires Run(publicRepo, trace, actions) && i < |actions| && actions[i].Patch?
    ensures trace[i].publisher.Cleared? && Publishes(trace[i].publisher, trace[i].store, trace[i + 1])
    ensures trace[i].publisher.tag in trace[i + 1].log
  {
    assert StepAt(publicRepo, trace, actions, i);
    RunKeepsInv(publicRepo, trace, actions, i);
    PatchPublishes(publicRepo, trace[i], actions[i].immutable, trace[i + 1]);
  }

  /**
   The exact condition: in every state after a PATCH, what is public under its tag is what was read, with the
   channel, source and certified zip its caller named, if and only if the draft was at the PATCH the one that
   was read, up to the flags the PATCH sets. Otherwise what is public is that other draft.
   */
  lemma PublicIsWhatWasCertified(publicRepo: bool, trace: seq<State>, actions: seq<Action>, i: nat, k: nat)
    requires Run(publicRepo, trace, actions) && i < k < |trace| && actions[i].Patch?
    ensures trace[i].publisher.Cleared? && Publishes(trace[i].publisher, trace[i].store, trace[k])
  {
    PatchedAt(publicRepo, trace, actions, i);
    PublishedIsFinal(publicRepo, trace, actions, i + 1, k, trace[i].publisher.tag);
  }

  /** The condition can fail: a draft rewritten between the reads and the PATCH becomes public as it is. */
  lemma RewrittenDraftBecomesPublic(publicRepo: bool, f: Files, r: Release, immutable: bool)
    returns (trace: seq<State>, actions: seq<Action>)
    requires WellFormed(f.manifest) && f.manifest.channel == Beta && f.manifest.launchCheckPassed
    requires PublicGuard(publicRepo, f.manifest) && AssetsMatch(f, f.manifest) && r.draft
    ensures Run(publicRepo, trace, actions)
    ensures trace[|actions|].store == map[f.manifest.tag := Patched(r, true, immutable)]
    ensures f.manifest.tag in trace[|actions|].log
  {
    var tag, read := f.manifest.tag, Drafted(f);
    var any := Expected(None, None, None);
    var s0 := EMPTY;
    var s1 := s0.(store := map[tag := read]);
    var s2 := s1.(publisher := Found(tag, any, read));
    var s3 := s1.(publisher := Cleared(tag, any, read));
    var s4 := s3.(store := map[tag := r]);
    var s5 := State(map[tag := Patched(r, true, immutable)], [tag], map[tag := read], Resting);
    assert s0.store[tag := read] == s1.store && read.(files := f) == read;
    assert Acts(publicRepo, s0, Draft(f), s1) && Acts(publicRepo, s1, Find(tag, any), s2);
    assert Acts(publicRepo, s2, Fetch, s3);
    assert s3.store[tag := r] == s4.store && s4.store[tag := Patched(r, true, immutable)] == s5.store;
    assert Acts(publicRepo, s3, RewriteDraft(tag, r), s4) && Acts(publicRepo, s4, Patch(immutable), s5);
    trace := [s0, s1, s2, s3, s4, s5];
    actions := [Draft(f), Find(tag, any), Fetch, RewriteDraft(tag, r), Patch(immutable)];
  }

  /** What publishing `tag` again comes to when nobody writes in between: the reads and their checks. */
  ghost predicate Republishes(publicRepo: bool, s: State, tag: string, e: Expected, t: State) {
    && tag in s.store
    && Acts(publicRepo, s, Find(tag, e), s.(publisher := Found(tag, e, s.store[tag])))
    && Acts(publicRepo, s.(publisher := Found(tag, e, s.store[tag])), Fetch, t)
  }

  /**
   Once a tag was published as it was read, publishing it again, whenever, is accepted exactly for a caller
   that names what is public, and changes nothing.
   */
  lemma RepublishChangesNothing(
    publicRepo: bool, trace: seq<State>, actions: seq<Action>, j: nat, k: nat, tag: string, e: Expected, t: State)
    requires Run(publicRepo, trace, actions) && j <= k < |trace| && trace[k].publisher.Resting?
    requires tag in trace[j].log && AsRead(trace[j], tag)
    ensures Republishes(publicRepo, trace[k], tag, e, t)
            <==> IsAsNamed(e, trace[j].store[tag].files.manifest) && t == trace[k]
  {
    PublishedStaysVerified(publicRepo, trace, actions, j, k, tag);
    RepublishStep(publicRepo, trace[k], tag, e, t);
  }

  lemma RepublishStep(publicRepo: bool, s: State, tag: string, e: Expected, t: State)
    requires s.publisher.Resting? && tag in s.store && !s.store[tag].draft
    requires Described(publicRepo, tag, s.store[tag]) && s.store[tag].files.manifest.launchCheckPassed
    ensures Republishes(publicRepo, s, tag, e, t) <==> IsAsNamed(e, s.store[tag].files.manifest) && t == s
  {
    DescribedIff(publicRepo, tag, s.store[tag]);
    var r := s.store[tag];
    assert r.(files := r.files) == r;
    assert s.(publisher := Resting) == s;
  }

  /** Nor is it ever drafted again. */
  lemma PublishedIsNeverRedrafted(publicRepo: bool, trace: seq<State>, actions: seq<Action>, j: nat, k: nat)
    requires Run(publicRepo, trace, actions) && j <= k < |actions| && actions[k].Draft?
    ensures actions[k].files.manifest.tag !in trace[j].log
  {
    var tag := actions[k].files.manifest.tag;
    assert StepAt(publicRepo, trace, actions, k);
    if tag in trace[j].log {
      PublishedIsFinal(publicRepo, trace, actions, j, k, tag);
      assert false;
    }
  }
}
