/**
 Concurrent first runs of scripts/init-self-host.ts over one initially empty secret directory.

 Every materializeSecret call, of any number of processes, is a row of `calls` and moves one file
 system operation at a time, in any interleaving; it may also stop anywhere, with or without its
 temporary file removed. A call's temporary file is one inode, numbered like the call.
 */
module Secrets {
  import opened Options
  import opened SecretText

  /** `Token(k)` stands for the six secrets that depend on no other. */
  datatype Name = PostgresPassword | DatabaseAddress | Token(k: nat)

  datatype Pc =
    | Opened                  // the temporary file exists, its content is incomplete
    | Written                 // written and synced
    | Linked                  // link() succeeded or met EEXIST; the temporary name still exists
    | Reading(attempts: nat)  // the temporary name is removed
    | Checked(file: nat)      // reopened the published path and saw exactly one link
    | Returned(value: string)
    | Ended(tempLeft: bool)   // threw or crashed

  datatype Call = Call(name: Name, candidate: string, created: bool, pc: Pc)

  datatype File = File(content: Option<string>, links: nat)

  datatype State = State(calls: map<nat, Call>, names: map<Name, nat>, files: map<nat, File>)

  const SETTLE_ATTEMPTS := 40

  predicate HasTemp(c: Call) {
    c.pc.Opened? || c.pc.Written? || c.pc.Linked? || c.pc == Ended(true)
  }

  function AddLinks(s: State, id: nat, n: int): map<nat, File>
    requires id in s.files && s.files[id].links + n >= 0
  {
    s.files[id := s.files[id].(links := s.files[id].links + n)]
  }

  function SetPc(s: State, id: nat, pc: Pc): map<nat, Call>
    requires id in s.calls
  {
    s.calls[id := s.calls[id].(pc := pc)]
  }

  /** Passwords and tokens are drawn at random; a database URL is derived from a password a call returned. */
  ghost predicate MayBegin(s: State, name: Name, candidate: string) {
    if name.DatabaseAddress? then
      exists p :: && p in s.calls && s.calls[p].name == PostgresPassword && s.calls[p].pc.Returned?
                  && candidate == DatabaseUrl(s.calls[p].pc.value)
    else Generated(candidate)
  }

  datatype Step = Begin(name: Name, candidate: string) | Write | Link | Unlink | Stat | Read | Stop(removesTemp: bool)

  /** One operation of call `id`. */
  ghost predicate NextStep(s: State, t: State, id: nat, step: Step) {
    if step.Begin? then
      && id !in s.calls && id !in s.files && MayBegin(s, step.name, step.candidate)
      && t == s.(calls := s.calls[id := Call(step.name, step.candidate, false, Opened)],
                 files := s.files[id := File(None, 1)])
    else
      id in s.calls && id in s.files && CallStep(s, t, id, step)
  }

  ghost predicate CallStep(s: State, t: State, id: nat, step: Step)
    requires id in s.calls && id in s.files && !step.Begin?
  {
    var c := s.calls[id];
    match step
    case Write =>
      && c.pc.Opened?
      && t == s.(calls := SetPc(s, id, Written),
                 files := s.files[id := s.files[id].(content := Some(Encode(c.candidate)))])
    case Link =>
      && c.pc.Written?
      && t == (if c.name in s.names then s.(calls := SetPc(s, id, Linked))
               else s.(calls := s.calls[id := c.(pc := Linked, created := true)],
                       names := s.names[c.name := id], files := AddLinks(s, id, 1)))
    case Unlink =>
      c.pc.Linked? && s.files[id].links >= 1 && t == s.(calls := SetPc(s, id, Reading(0)), files := AddLinks(s, id, -1))
    case Stat =>
      && c.pc.Reading? && c.name in s.names && s.names[c.name] in s.files
      && t == s.(calls := SetPc(s, id,
           if s.files[s.names[c.name]].links == 1 then Checked(s.names[c.name])
           else if c.pc.attempts + 1 == SETTLE_ATTEMPTS then Ended(false)
           else Reading(c.pc.attempts + 1)))
    case Read =>
      && c.pc.Checked? && c.pc.file in s.files && s.files[c.pc.file].content.Some?
      && var value := Validated(s.files[c.pc.file].content.value);
         t == s.(calls := SetPc(s, id, if value.Some? then Returned(value.value) else Ended(false)))
    case Stop(removesTemp) =>
      && !c.pc.Returned? && !c.pc.Ended?
      && (if HasTemp(c) && removesTemp then
            s.files[id].links >= 1 && t == s.(calls := SetPc(s, id, Ended(false)), files := AddLinks(s, id, -1))
          else t == s.(calls := SetPc(s, id, Ended(HasTemp(c)))))
  }

  ghost predicate Next(s: State, t: State) {
    exists id, step :: NextStep(s, t, id, step)
  }

  ghost predicate NextAt(trace: seq<State>, i: nat) {
    i + 1 < |trace| && Next(trace[i], trace[i + 1])
  }

  /** Every interleaving from the empty directory. */
  ghost predicate Run(trace: seq<State>) {
    && |trace| > 0 && trace[0] == State(map[], map[], map[])
    && forall i :: 0 <= i < |trace| - 1 ==> NextAt(trace, i)
  }

  // ---------------------------------------------------------------------------
  // Invariant

  predicate Publishes(s: State, id: nat) {
    id in s.calls && s.calls[id].name in s.names && s.names[s.calls[id].name] == id
  }

  /** The published name belongs to a call of that name whose file is complete. */
  ghost predicate NameInv(s: State, name: Name)
    requires name in s.names
  {
    var p := s.names[name];
    && p in s.calls && s.calls[p].name == name && s.calls[p].created
    && p in s.files && s.files[p].content == Some(Encode(s.calls[p].candidate))
    && !s.calls[p].pc.Opened? && !s.calls[p].pc.Written?
  }

  ghost predicate NamesInv(s: State) {
    forall n :: n in s.names ==> NameInv(s, n)
  }

  /** What `name` was published with. */
  ghost function Publisher(s: State, name: Name): (c: Call)
    requires NamesInv(s) && name in s.names
    ensures c == s.calls[s.names[name]] && c.name == name
  {
    assert NameInv(s, name);
    s.calls[s.names[name]]
  }

  ghost predicate CandidateInv(s: State, id: nat)
    requires id in s.calls && NamesInv(s)
  {
    var c := s.calls[id];
    if c.name.DatabaseAddress? then
      && PostgresPassword in s.names && !HasTemp(Publisher(s, PostgresPassword))
      && c.candidate == DatabaseUrl(Publisher(s, PostgresPassword).candidate)
    else Generated(c.candidate)
  }

  ghost predicate CallInv(s: State, id: nat)
    requires id in s.calls && NamesInv(s)
  {
    var c := s.calls[id];
    && id in s.files
    && s.files[id].links == (if HasTemp(c) then 1 else 0) + (if Publishes(s, id) then 1 else 0)
    && (c.created <==> Publishes(s, id))
    && (c.pc.Written? ==> s.files[id].content == Some(Encode(c.candidate)))
    && (c.pc.Linked? || c.pc.Reading? || c.pc.Checked? || c.pc.Returned? ==> c.name in s.names)
    && (c.pc.Checked? ==> c.pc.file == s.names[c.name])
    && (c.pc.Checked? || c.pc.Returned? ==> !HasTemp(Publisher(s, c.name)))
    && (c.pc.Returned? ==> c.pc.value == Publisher(s, c.name).candidate)
  }

  ghost predicate Inv(s: State) {
    && NamesInv(s)
    && (forall id :: id in s.calls ==> CandidateInv(s, id))
    && (forall id :: id in s.calls ==> CallInv(s, id))
  }

  lemma CandidatesAreStorable(s: State, id: nat)
    requires Inv(s) && id in s.calls
    ensures Validated(Encode(s.calls[id].candidate)) == Some(s.calls[id].candidate)
  {
    assert CandidateInv(s, id);
    if s.calls[id].name.DatabaseAddress? {
      var p := s.names[PostgresPassword];
      assert NameInv(s, PostgresPassword);
      assert CandidateInv(s, p);
      DatabaseUrlIsStorable(s.calls[p].candidate);
    } else {
      GeneratedIsStorable(s.calls[id].candidate);
    }
    RoundTripIff(s.calls[id].candidate);
  }

  lemma OldNameKept(s: State, t: State, id: nat, step: Step, n: Name)
    requires Inv(s) && NextStep(s, t, id, step) && n in s.names
    ensures n in t.names && t.names[n] == s.names[n] && NameInv(t, n)
    ensures t.calls[t.names[n]].candidate == s.calls[s.names[n]].candidate
  {
    assert NameInv(s, n);
    assert CallInv(s, s.names[n]);
    PublisherKept(s, t, id, step, n);
  }

  /** A publisher's file is complete and its candidate fixed, so no step touches either. */
  lemma PublisherKept(s: State, t: State, id: nat, step: Step, n: Name)
    requires n in s.names && NameInv(s, n) && NextStep(s, t, id, step)
    ensures n in t.names && t.names[n] == s.names[n] && NameInv(t, n)
    ensures t.calls[t.names[n]].candidate == s.calls[s.names[n]].candidate
  {
  }

  lemma NewNameRight(s: State, t: State, id: nat, step: Step, n: Name)
    requires Inv(s) && NextStep(s, t, id, step) && n !in s.names && n in t.names
    ensures NameInv(t, n)
  {
    assert CallInv(s, id);
  }

  lemma NamesKept(s: State, t: State, id: nat, step: Step)
    requires Inv(s) && NextStep(s, t, id, step)
    ensures NamesInv(t)
    ensures forall n | n in s.names ::
              n in t.names && t.names[n] == s.names[n] && Publisher(t, n).candidate == Publisher(s, n).candidate
  {
    forall n | n in t.names
      ensures NameInv(t, n)
    {
      if n in s.names {
        OldNameKept(s, t, id, step, n);
      } else {
        NewNameRight(s, t, id, step, n);
      }
    }
    forall n | n in s.names
      ensures n in t.names && t.names[n] == s.names[n] && Publisher(t, n).candidate == Publisher(s, n).candidate
    {
      OldNameKept(s, t, id, step, n);
    }
  }

  /** A removed temporary name never comes back. */
  lemma TempStaysRemoved(s: State, t: State, id: nat, step: Step, i: nat)
    requires Inv(s) && NextStep(s, t, id, step) && i in s.calls && !HasTemp(s.calls[i])
    ensures i in t.calls && !HasTemp(t.calls[i])
  {
    assert CallInv(s, i);
  }

  lemma OldCandidateKept(s: State, t: State, id: nat, step: Step, i: nat)
    requires Inv(s) && NextStep(s, t, id, step) && NamesInv(t) && i in s.calls
    ensures i in t.calls && CandidateInv(t, i)
  {
    assert CandidateInv(s, i) && CallInv(s, i);
    assert t.calls[i].name == s.calls[i].name && t.calls[i].candidate == s.calls[i].candidate;
    if s.calls[i].name.DatabaseAddress? {
      OldNameKept(s, t, id, step, PostgresPassword);
      TempStaysRemoved(s, t, id, step, s.names[PostgresPassword]);
    }
  }

  /** A call for the database address starts from a password that was returned, so its publisher is done. */
  lemma NewCandidateRight(s: State, t: State, id: nat, step: Step)
    requires Inv(s) && NextStep(s, t, id, step) && NamesInv(t) && step.Begin?
    ensures id in t.calls && CandidateInv(t, id)
  {
    if step.name.DatabaseAddress? {
      var p :| && p in s.calls && s.calls[p].name == PostgresPassword && s.calls[p].pc.Returned?
               && step.candidate == DatabaseUrl(s.calls[p].pc.value);
      assert CallInv(s, p);
      OldNameKept(s, t, id, step, PostgresPassword);
      TempStaysRemoved(s, t, id, step, s.names[PostgresPassword]);
    }
  }

  lemma CandidatesKept(s: State, t: State, id: nat, step: Step)
    requires Inv(s) && NextStep(s, t, id, step)
    requires NamesInv(t)
    ensures forall i :: i in t.calls ==> CandidateInv(t, i)
  {
    forall i | i in t.calls
      ensures CandidateInv(t, i)
    {
      if i in s.calls {
        OldCandidateKept(s, t, id, step, i);
      } else {
        NewCandidateRight(s, t, id, step);
      }
    }
  }

  /** A new call has published nothing. */
  lemma BeginnerRight(s: State, t: State, id: nat, step: Step)
    requires Inv(s) && NextStep(s, t, id, step) && step.Begin? && NamesInv(t)
    ensures CallInv(t, id)
  {
    forall n | n in s.names
      ensures s.names[n] != id
    {
      assert NameInv(s, n);
    }
  }

  /** The steps that open and read the published file. */
  lemma ReaderKept(s: State, t: State, id: nat, step: Step)
    requires Inv(s) && NextStep(s, t, id, step) && (step.Stat? || step.Read?) && NamesInv(t)
    ensures CallInv(t, id)
  {
    assert CallInv(s, id);
    var name := s.calls[id].name;
    assert NameInv(s, name);
    if step.Stat? {
      assert CallInv(s, s.names[name]);
      StatKept(s, t, id);
    } else {
      CandidatesAreStorable(s, s.names[name]);
      ReadKept(s, t, id);
    }
  }

  /** One link and a published name mean that the temporary name is gone. */
  lemma StatKept(s: State, t: State, id: nat)
    requires NamesInv(s) && NamesInv(t) && id in s.calls && CallInv(s, id) && NextStep(s, t, id, Stat)
    requires s.calls[id].name in s.names
    requires s.names[s.calls[id].name] in s.calls && CallInv(s, s.names[s.calls[id].name])
    ensures CallInv(t, id)
  {
    var p := s.names[s.calls[id].name];
    assert Publishes(s, p);
  }

  lemma ReadKept(s: State, t: State, id: nat)
    requires NamesInv(s) && NamesInv(t) && id in s.calls && CallInv(s, id) && NextStep(s, t, id, Read)
    requires var c := Publisher(s, s.calls[id].name).candidate; Validated(Encode(c)) == Some(c)
    ensures CallInv(t, id)
  {
    assert NameInv(s, s.calls[id].name);
  }

  /** The steps that change the call's own file. */
  lemma WriterKept(s: State, t: State, id: nat, step: Step)
    requires Inv(s) && NextStep(s, t, id, step) && NamesInv(t)
    requires step.Write? || step.Link? || step.Unlink? || step.Stop?
    ensures CallInv(t, id)
  {
    assert CallInv(s, id);
    var name := s.calls[id].name;
    if name in s.names {
      assert NameInv(s, name);
    }
  }

  /** The call that moves keeps its own row right. */
  lemma MoverKept(s: State, t: State, id: nat, step: Step)
    requires Inv(s) && NextStep(s, t, id, step)
    requires NamesInv(t)
    ensures CallInv(t, id)
  {
    match step
    case Begin(_, _) => BeginnerRight(s, t, id, step);
    case Stat => ReaderKept(s, t, id, step);
    case Read => ReaderKept(s, t, id, step);
    case _ => WriterKept(s, t, id, step);
  }

  /** A step of one call leaves another call's row, its file and its standing as publisher alone. */
  lemma RowUntouched(s: State, t: State, id: nat, step: Step, i: nat)
    requires Inv(s) && NextStep(s, t, id, step) && i in s.calls && i != id
    ensures i in t.calls && t.calls[i] == s.calls[i] && i in t.files && t.files[i] == s.files[i]
    ensures Publishes(t, i) == Publishes(s, i)
  {
    assert CallInv(s, i);
  }

  /** No step of one call disturbs what is known about another. */
  lemma OthersKept(s: State, t: State, id: nat, step: Step, i: nat)
    requires Inv(s) && NextStep(s, t, id, step) && i in s.calls && i != id
    requires NamesInv(t)
    ensures i in t.calls && CallInv(t, i)
  {
    assert CallInv(s, i);
    RowUntouched(s, t, id, step, i);
    var c := s.calls[i];
    if c.name in s.names {
      OldNameKept(s, t, id, step, c.name);
      if !HasTemp(Publisher(s, c.name)) {
        TempStaysRemoved(s, t, id, step, s.names[c.name]);
      }
    }
  }

  lemma StepKeepsInv(s: State, t: State, id: nat, step: Step)
    requires Inv(s) && NextStep(s, t, id, step)
    ensures Inv(t)
  {
    NamesKept(s, t, id, step);
    CandidatesKept(s, t, id, step);
    MoverKept(s, t, id, step);
    forall i | i in t.calls
      ensures CallInv(t, i)
    {
      if i != id {
        OthersKept(s, t, id, step, i);
      }
    }
  }

  lemma {:induction false} RunKeepsInv(trace: seq<State>, k: nat)
    requires Run(trace) && k < |trace|
    ensures Inv(trace[k])
  {
    if k > 0 {
      RunKeepsInv(trace, k - 1);
      assert NextAt(trace, k - 1);
      var id, step :| NextStep(trace[k - 1], trace[k], id, step);
      StepKeepsInv(trace[k - 1], trace[k], id, step);
    }
  }

  // ---------------------------------------------------------------------------
  // Main results

  predicate ReturnedFor(s: State, id: nat, name: Name) {
    id in s.calls && s.calls[id].name == name && s.calls[id].pc.Returned?
  }

  /** All calls that return for one name return the same value, and the published file holds all of it. */
  lemma SecretsAgree(trace: seq<State>, k: nat, i: nat, j: nat, name: Name)
    requires Run(trace) && k < |trace|
    requires ReturnedFor(trace[k], i, name) && ReturnedFor(trace[k], j, name)
    ensures var s := trace[k];
            && s.calls[i].pc.value == s.calls[j].pc.value
            && name in s.names && s.names[name] in s.files
            && s.files[s.names[name]] == File(Some(Encode(s.calls[i].pc.value)), 1)
  {
    RunKeepsInv(trace, k);
    assert CallInv(trace[k], i) && CallInv(trace[k], j) && NameInv(trace[k], name);
    assert CallInv(trace[k], trace[k].names[name]);
  }

  /** At most one call per name reports that it created the secret. */
  lemma AtMostOneCreator(trace: seq<State>, k: nat, i: nat, j: nat)
    requires Run(trace) && k < |trace| && i in trace[k].calls && j in trace[k].calls
    requires trace[k].calls[i].name == trace[k].calls[j].name && trace[k].calls[i].created && trace[k].calls[j].created
    ensures i == j
  {
    RunKeepsInv(trace, k);
    assert CallInv(trace[k], i) && CallInv(trace[k], j);
  }

  /** And once the name is published, one call did: the one whose candidate every reader gets. */
  lemma PublishedHasItsCreator(trace: seq<State>, k: nat, name: Name) returns (i: nat)
    requires Run(trace) && k < |trace| && name in trace[k].names
    ensures i in trace[k].calls && trace[k].calls[i].name == name && trace[k].calls[i].created
    ensures forall id :: ReturnedFor(trace[k], id, name) ==> trace[k].calls[id].pc.value == trace[k].calls[i].candidate
  {
    RunKeepsInv(trace, k);
    i := trace[k].names[name];
    assert NameInv(trace[k], name);
    forall id | ReturnedFor(trace[k], id, name)
      ensures trace[k].calls[id].pc.value == trace[k].calls[i].candidate
    {
      assert CallInv(trace[k], id);
    }
  }

  // ---------------------------------------------------------------------------
  // How long a reader waits

  ghost predicate MovesBy(trace: seq<State>, moves: seq<(nat, Step)>, i: nat) {
    i < |moves| && i + 1 < |trace| && NextStep(trace[i], trace[i + 1], moves[i].0, moves[i].1)
  }

  /** A run with the calls and the operations that made it. */
  ghost predicate RunBy(trace: seq<State>, moves: seq<(nat, Step)>) {
    && |trace| == |moves| + 1 && trace[0] == State(map[], map[], map[])
    && forall i :: 0 <= i < |moves| ==> MovesBy(trace, moves, i)
  }

  /** How often the call looked at the published file. */
  function Looks(moves: seq<(nat, Step)>, id: nat, k: nat): nat
    requires k <= |moves|
  {
    if k == 0 then 0 else Looks(moves, id, k - 1) + (if moves[k - 1] == (id, Stat) then 1 else 0)
  }

  /** What the state of a call says of its looks. */
  predicate Counted(s: State, id: nat, looks: nat) {
    if id !in s.calls then looks == 0
    else match s.calls[id].pc
         case Opened => looks == 0
         case Written => looks == 0
         case Linked => looks == 0
         case Reading(n) => looks == n < 40
         case _ => looks <= 40
  }

  lemma StepCounts(s: State, t: State, who: nat, step: Step, id: nat, looks: nat)
    requires Counted(s, id, looks) && NextStep(s, t, who, step)
    ensures Counted(t, id, if (who, step) == (id, Stat) then looks + 1 else looks)
  {
  }

  lemma {:induction false} LooksAreCounted(trace: seq<State>, moves: seq<(nat, Step)>, k: nat, id: nat)
    requires RunBy(trace, moves) && k < |trace|
    ensures Counted(trace[k], id, Looks(moves, id, k))
  {
    if k > 0 {
      LooksAreCounted(trace, moves, k - 1, id);
      assert MovesBy(trace, moves, k - 1);
      StepCounts(trace[k - 1], trace[k], moves[k - 1].0, moves[k - 1].1, id, Looks(moves, id, k - 1));
    }
  }

  /** A reader gives up at its fortieth look at a file that keeps its second link, and not before. */
  lemma GivesUpAtTheFortiethLook(trace: seq<State>, moves: seq<(nat, Step)>, k: nat, id: nat)
    requires RunBy(trace, moves) && k < |moves| && moves[k] == (id, Stat)
    ensures id in trace[k + 1].calls && !trace[k + 1].calls[id].pc.Returned?
    ensures trace[k + 1].calls[id].pc.Ended? ==> Looks(moves, id, k + 1) == 40
    ensures Looks(moves, id, k + 1) < 40 ==> trace[k + 1].calls[id].pc.Checked? || trace[k + 1].calls[id].pc.Reading?
  {
    LooksAreCounted(trace, moves, k, id);
    LooksAreCounted(trace, moves, k + 1, id);
    assert MovesBy(trace, moves, k);
  }

  /**
   The published database URL embeds the published password, so the exact check of createSecret, which
   compares a returned URL with the caller's own, never fails on a directory that started empty. No other
   password has that URL.
   */
  lemma AddressMatchesPassword(trace: seq<State>, k: nat, id: nat, p: nat)
    requires Run(trace) && k < |trace|
    requires ReturnedFor(trace[k], id, DatabaseAddress) && ReturnedFor(trace[k], p, PostgresPassword)
    ensures trace[k].calls[id].pc.value == DatabaseUrl(trace[k].calls[p].pc.value)
    ensures trace[k].calls[id].pc.value == trace[k].calls[id].candidate
    ensures trace[k].calls[id].pc.value
         == "postgres://opensteer:" + trace[k].calls[p].pc.value + "@postgres:5432/opensteer"
    ensures forall q :: DatabaseUrl(q) == trace[k].calls[id].pc.value ==> q == trace[k].calls[p].pc.value
  {
    RunKeepsInv(trace, k);
    var s := trace[k];
    assert CallInv(s, id) && CallInv(s, p) && CandidateInv(s, id);
    assert NameInv(s, DatabaseAddress) && CandidateInv(s, s.names[DatabaseAddress]);
    forall q | DatabaseUrl(q) == s.calls[id].pc.value
      ensures q == s.calls[p].pc.value
    {
      DatabaseUrlInjective(q, s.calls[p].pc.value);
    }
  }

  /** Publication is final: no later step of any call, and no crash, changes what a name holds. */
  lemma {:induction false} PublicationIsFinal(trace: seq<State>, j: nat, k: nat, name: Name)
    requires Run(trace) && j <= k < |trace| && name in trace[j].names
    ensures Inv(trace[j]) && Inv(trace[k]) && name in trace[k].names && trace[k].names[name] == trace[j].names[name]
    ensures Publisher(trace[k], name).candidate == Publisher(trace[j], name).candidate
  {
    RunKeepsInv(trace, j);
    if j < k {
      PublicationIsFinal(trace, j, k - 1, name);
      assert NextAt(trace, k - 1);
      var id, step :| NextStep(trace[k - 1], trace[k], id, step);
      StepKeepsInv(trace[k - 1], trace[k], id, step);
      OldNameKept(trace[k - 1], trace[k], id, step, name);
    }
  }

  /** A reader gets past its link check exactly when the publisher has removed its temporary name. */
  lemma ReaderPassesIff(s: State, id: nat)
    requires Inv(s) && id in s.calls && s.calls[id].pc.Reading?
    ensures (exists t :: NextStep(s, t, id, Stat) && t.calls[id].pc.Checked?)
            <==> !HasTemp(Publisher(s, s.calls[id].name))
  {
    assert CallInv(s, id);
    var name := s.calls[id].name;
    assert NameInv(s, name) && CallInv(s, s.names[name]);
    if !HasTemp(Publisher(s, name)) {
      var t := s.(calls := SetPc(s, id, Checked(s.names[name])));
      assert NextStep(s, t, id, Stat);
    }
  }

  /** What a reader past its check returns is the published value: nothing can fail any more. */
  lemma CheckedReaderReturns(s: State, t: State, id: nat)
    requires Inv(s) && id in s.calls && s.calls[id].pc.Checked? && NextStep(s, t, id, Read)
    ensures t.calls[id].pc == Returned(Publisher(s, s.calls[id].name).candidate)
  {
    assert CallInv(s, id);
    assert NameInv(s, s.calls[id].name);
    CandidatesAreStorable(s, s.names[s.calls[id].name]);
  }

  /** The publisher stopped after its link and before its unlink. */
  predicate Stranded(s: State, name: Name) {
    name in s.names && s.names[name] in s.calls && s.calls[s.names[name]].pc == Ended(true)
  }

  lemma StepKeepsStranded(s: State, t: State, who: nat, step: Step, name: Name)
    requires Inv(s) && NextStep(s, t, who, step) && Stranded(s, name)
    ensures Stranded(t, name)
  {
    OldNameKept(s, t, who, step, name);
    if who != s.names[name] {
      RowUntouched(s, t, who, step, s.names[name]);
    }
  }

  lemma NextKeepsStranded(s: State, t: State, name: Name)
    requires Inv(s) && Next(s, t) && Stranded(s, name)
    ensures Stranded(t, name)
  {
    var who, step :| NextStep(s, t, who, step);
    StepKeepsStranded(s, t, who, step, name);
  }

  lemma StrandedReturnsNothing(s: State, name: Name, id: nat)
    requires Inv(s) && Stranded(s, name)
    ensures !ReturnedFor(s, id, name)
  {
    if id in s.calls {
      assert CallInv(s, id);
    }
  }

  /**
   A crash between link and unlink strands the name: from then on no call for it ever returns, in any
   continuation of the run, because the published file keeps two links.
   */
  lemma {:induction false} StrandedForever(trace: seq<State>, j: nat, k: nat, name: Name, id: nat)
    requires Run(trace) && j <= k < |trace| && Stranded(trace[j], name)
    ensures Stranded(trace[k], name) && !ReturnedFor(trace[k], id, name)
  {
    if j < k {
      StrandedForever(trace, j, k - 1, name, id);
      RunKeepsInv(trace, k - 1);
      assert NextAt(trace, k - 1);
      NextKeepsStranded(trace[k - 1], trace[k], name);
    }
    RunKeepsInv(trace, k);
    StrandedReturnsNothing(trace[k], name, id);
  }

  /** Stranding is reachable: one initializer, stopped between its link and its unlink. */
  lemma StrandingHappens(name: Name, candidate: string) returns (trace: seq<State>)
    requires !name.DatabaseAddress? && Generated(candidate)
    ensures Run(trace) && Stranded(trace[|trace| - 1], name)
  {
    var s0 := State(map[], map[], map[]);
    var s1 := State(map[0 := Call(name, candidate, false, Opened)], map[], map[0 := File(None, 1)]);
    var whole := Some(Encode(candidate));
    var s2 := State(map[0 := Call(name, candidate, false, Written)], map[], map[0 := File(whole, 1)]);
    var s3 := State(map[0 := Call(name, candidate, true, Linked)], map[name := 0], map[0 := File(whole, 2)]);
    var s4 := State(map[0 := Call(name, candidate, true, Ended(true))], map[name := 0], map[0 := File(whole, 2)]);
    assert NextStep(s0, s1, 0, Begin(name, candidate));
    assert NextStep(s1, s2, 0, Write);
    assert NextStep(s2, s3, 0, Link);
    assert NextStep(s3, s4, 0, Stop(false));
    trace := [s0, s1, s2, s3, s4];
  }

  // ---------------------------------------------------------------------------
  // What can still be returned

  /** Nothing crashed: the steps that a continuation needs. */
  ghost predicate Moves(s: State, t: State) {
    exists id, step: Step :: !step.Stop? && NextStep(s, t, id, step)
  }

  lemma Moved(s: State, t: State, id: nat, step: Step)
    requires Inv(s) && !step.Stop? && NextStep(s, t, id, step)
    ensures Moves(s, t) && Inv(t)
  {
    StepKeepsInv(s, t, id, step);
  }

  ghost predicate Continues(s: State, more: seq<State>) {
    && |more| > 0 && more[0] == s
    && forall i :: 0 <= i < |more| - 1 ==> NextAt(more, i)
  }

  /** Only a stop strands a name. */
  lemma MoveKeepsFree(s: State, t: State, name: Name)
    requires Inv(s) && Moves(s, t) && !Stranded(s, name)
    ensures !Stranded(t, name)
  {
    var id, step: Step :| !step.Stop? && NextStep(s, t, id, step);
    if name in s.names {
      assert NameInv(s, name);
      PublisherKept(s, t, id, step, name);
    }
    StepKeepsFree(s, t, id, step, name);
  }

  lemma StepKeepsFree(s: State, t: State, id: nat, step: Step, name: Name)
    requires NextStep(s, t, id, step) && !step.Stop? && !Stranded(s, name)
    requires name in s.names ==> name in t.names && t.names[name] == s.names[name] && s.names[name] in s.calls
    ensures !Stranded(t, name)
  {
  }

  /** `more` continues `s` without stranding anything. */
  ghost predicate Proceeds(s: State, more: seq<State>) {
    && Continues(s, more) && Inv(more[|more| - 1])
    && forall n :: !Stranded(s, n) ==> !Stranded(more[|more| - 1], n)
  }

  lemma Append(s: State, more: seq<State>, t: State) returns (longer: seq<State>)
    requires Proceeds(s, more) && Moves(more[|more| - 1], t) && Inv(t)
    ensures Proceeds(s, longer) && longer[|longer| - 1] == t
  {
    var last := more[|more| - 1];
    longer := more + [t];
    assert Next(last, t) by {
      var id, step :| NextStep(last, t, id, step);
    }
    forall i | 0 <= i < |longer| - 1
      ensures NextAt(longer, i)
    {
      assert i < |more| - 1 ==> NextAt(more, i);
    }
    forall n | !Stranded(s, n)
      ensures !Stranded(t, n)
    {
      MoveKeepsFree(last, t, n);
    }
  }

  lemma {:induction false} Unused(ids: set<nat>) returns (bound: nat)
    ensures forall i :: i in ids ==> i < bound
  {
    bound := 0;
    if ids != {} {
      var i :| i in ids;
      var rest := Unused(ids - {i});
      bound := if i < rest then rest else i + 1;
      assert forall j :: j in ids ==> j == i || j in ids - {i};
    }
  }

  lemma BeginAfresh(s: State, name: Name, candidate: string) returns (t: State, id: nat)
    requires Inv(s) && MayBegin(s, name, candidate)
    ensures Moves(s, t) && Inv(t) && id in t.calls && t.calls[id] == Call(name, candidate, false, Opened)
  {
    id := Unused(s.calls.Keys + s.files.Keys);
    assert id !in s.calls.Keys + s.files.Keys;
    t := s.(calls := s.calls[id := Call(name, candidate, false, Opened)], files := s.files[id := File(None, 1)]);
    Moved(s, t, id, Begin(name, candidate));
  }

  lemma WriteOut(s: State, id: nat) returns (t: State)
    requires Inv(s) && id in s.calls && s.calls[id].pc.Opened?
    ensures Moves(s, t) && Inv(t) && id in t.calls && t.calls[id] == s.calls[id].(pc := Written)
  {
    assert CallInv(s, id);
    var whole := s.files[id].(content := Some(Encode(s.calls[id].candidate)));
    t := s.(calls := SetPc(s, id, Written), files := s.files[id := whole]);
    Moved(s, t, id, Write);
  }

  /** Nothing keeps a reader of the name waiting. */
  ghost predicate Ready(s: State, name: Name)
    requires NamesInv(s)
  {
    name in s.names ==> !HasTemp(Publisher(s, name))
  }

  /** A publisher that is not stopped can remove its temporary name. */
  lemma MakeReady(s: State, name: Name, id: nat) returns (t: State)
    requires Inv(s) && !Stranded(s, name) && id in s.calls && s.calls[id].pc.Written?
    ensures t == s || Moves(s, t)
    ensures Inv(t) && Ready(t, name) && id in t.calls && t.calls[id] == s.calls[id]
  {
    t := s;
    if !Ready(s, name) {
      var p := s.names[name];
      assert NameInv(s, name) && CallInv(s, p);
      t := s.(calls := SetPc(s, p, Reading(0)), files := AddLinks(s, p, -1));
      Moved(s, t, p, Unlink);
    }
  }

  lemma LinkIt(s: State, id: nat) returns (t: State)
    requires Inv(s) && id in s.calls && s.calls[id].pc.Written? && Ready(s, s.calls[id].name)
    ensures Moves(s, t) && Inv(t) && id in t.calls && t.calls[id].name == s.calls[id].name && t.calls[id].pc.Linked?
    ensures s.calls[id].name in t.names && (t.names[s.calls[id].name] == id || Ready(t, s.calls[id].name))
  {
    assert CallInv(s, id);
    var c := s.calls[id];
    if c.name in s.names {
      t := s.(calls := SetPc(s, id, Linked));
      Moved(s, t, id, Link);
      assert NameInv(s, c.name);
    } else {
      t := s.(calls := s.calls[id := c.(pc := Linked, created := true)],
              names := s.names[c.name := id], files := AddLinks(s, id, 1));
      Moved(s, t, id, Link);
    }
  }

  lemma UnlinkIt(s: State, id: nat) returns (t: State)
    requires Inv(s) && id in s.calls && s.calls[id].pc.Linked? && s.calls[id].name in s.names
    requires s.names[s.calls[id].name] == id || Ready(s, s.calls[id].name)
    ensures Moves(s, t) && Inv(t) && id in t.calls && t.calls[id] == s.calls[id].(pc := Reading(0))
    ensures s.calls[id].name in t.names && Ready(t, s.calls[id].name)
  {
    assert CallInv(s, id) && NameInv(s, s.calls[id].name);
    t := s.(calls := SetPc(s, id, Reading(0)), files := AddLinks(s, id, -1));
    Moved(s, t, id, Unlink);
  }

  lemma ReadIt(s: State, id: nat) returns (t: State, u: State)
    requires Inv(s) && id in s.calls && s.calls[id].pc.Reading? && s.calls[id].name in s.names
    requires Ready(s, s.calls[id].name)
    ensures Moves(s, t) && Moves(t, u) && Inv(t) && Inv(u) && ReturnedFor(u, id, s.calls[id].name)
  {
    var name := s.calls[id].name;
    assert CallInv(s, id);
    ReaderPassesIff(s, id);
    t :| NextStep(s, t, id, Stat) && t.calls[id].pc.Checked?;
    Moved(s, t, id, Stat);
    assert CallInv(t, id) && NameInv(t, name);
    CandidatesAreStorable(t, t.names[name]);
    u := t.(calls := SetPc(t, id, Returned(Publisher(t, name).candidate)));
    Moved(t, u, id, Read);
  }

  /** A fresh call for a name that is not stranded, up to its link, with one step of the publisher if it is due. */
  lemma FreshCallLinks(s: State, name: Name, candidate: string) returns (more: seq<State>, id: nat)
    requires Inv(s) && MayBegin(s, name, candidate) && !Stranded(s, name)
    ensures Proceeds(s, more)
    ensures var t := more[|more| - 1];
            && id in t.calls && t.calls[id].name == name && t.calls[id].pc.Linked? && name in t.names
            && (t.names[name] == id || Ready(t, name))
  {
    var s1, s2, s3;
    s1, id := BeginAfresh(s, name, candidate);
    more := Append(s, [s], s1);
    s2 := WriteOut(s1, id);
    more := Append(s, more, s2);
    s3 := MakeReady(s2, name, id);
    if s3 != s2 {
      more := Append(s, more, s3);
    }
    var s4 := LinkIt(s3, id);
    more := Append(s, more, s4);
  }

  /** It then runs to its end. */
  lemma FreshCallReturns(s: State, name: Name, candidate: string) returns (more: seq<State>, id: nat)
    requires Inv(s) && MayBegin(s, name, candidate) && !Stranded(s, name)
    ensures Proceeds(s, more) && ReturnedFor(more[|more| - 1], id, name)
  {
    more, id := FreshCallLinks(s, name, candidate);
    var s5 := UnlinkIt(more[|more| - 1], id);
    more := Append(s, more, s5);
    var s6, s7 := ReadIt(s5, id);
    more := Append(s, more, s6);
    more := Append(s, more, s7);
  }

  /** The name is not stranded, nor is the password when the name is the database address. */
  predicate Attainable(s: State, name: Name) {
    !Stranded(s, name) && (name.DatabaseAddress? ==> !Stranded(s, PostgresPassword))
  }

  /** At the end of `more` the call `id` has returned a value of the name. */
  ghost predicate Gives(s: State, more: seq<State>, id: nat, name: Name) {
    Continues(s, more) && ReturnedFor(more[|more| - 1], id, name)
  }

  lemma AttainableReturns(s: State, name: Name) returns (more: seq<State>, id: nat)
    requires Inv(s) && Attainable(s, name)
    ensures Gives(s, more, id, name)
  {
    if name.DatabaseAddress? {
      var first, p := FreshCallReturns(s, PostgresPassword, "A");
      var t := first[|first| - 1];
      var second;
      second, id := FreshCallReturns(t, name, DatabaseUrl(t.calls[p].pc.value));
      more := first + second[1..];
      Concatenated(s, first, second);
    } else {
      more, id := FreshCallReturns(s, name, "A");
    }
  }

  lemma Concatenated(s: State, first: seq<State>, second: seq<State>)
    requires Continues(s, first) && Continues(first[|first| - 1], second)
    ensures var more := first + second[1..];
            Continues(s, more) && more[|more| - 1] == second[|second| - 1]
  {
    var more := first + second[1..];
    forall i | 0 <= i < |more| - 1
      ensures NextAt(more, i)
    {
      if i < |first| - 1 {
        assert NextAt(first, i);
      } else {
        assert NextAt(second, i - |first| + 1);
      }
    }
  }

  /** A value of the database address implies a password whose publisher is done. */
  lemma ReturnedIsAttainable(s: State, name: Name, id: nat)
    requires Inv(s) && ReturnedFor(s, id, name)
    ensures Attainable(s, name)
  {
    assert CallInv(s, id) && CandidateInv(s, id);
  }

  lemma {:induction false} StrandedStays(s: State, more: seq<State>, name: Name, k: nat)
    requires Inv(s) && Continues(s, more) && Stranded(s, name) && k < |more|
    ensures Inv(more[k]) && Stranded(more[k], name)
  {
    if k > 0 {
      StrandedStays(s, more, name, k - 1);
      assert NextAt(more, k - 1);
      NextKeepsStranded(more[k - 1], more[k], name);
      NextKeepsInv(more[k - 1], more[k]);
    }
  }

  lemma NextKeepsInv(s: State, t: State)
    requires Inv(s) && Next(s, t)
    ensures Inv(t)
  {
    var id, step :| NextStep(s, t, id, step);
    StepKeepsInv(s, t, id, step);
  }

  lemma {:induction false} PathKeepsInv(s: State, more: seq<State>, k: nat)
    requires Inv(s) && Continues(s, more) && k < |more|
    ensures Inv(more[k])
  {
    if k > 0 {
      PathKeepsInv(s, more, k - 1);
      assert NextAt(more, k - 1);
      NextKeepsInv(more[k - 1], more[k]);
    }
  }

  /**
   From every reachable state some continuation returns a value for a name if and only if the name is not
   stranded, nor the password when the name is the database address.
   */
  lemma ReturnsIff(trace: seq<State>, k: nat, name: Name)
    requires Run(trace) && k < |trace|
    ensures Attainable(trace[k], name) <==>
            exists more, id :: Gives(trace[k], more, id, name)
  {
    var s := trace[k];
    RunKeepsInv(trace, k);
    if Attainable(s, name) {
      var more, id := AttainableReturns(s, name);
    }
    forall more, id | Gives(s, more, id, name)
      ensures Attainable(s, name)
    {
      var last := |more| - 1;
      PathKeepsInv(s, more, last);
      ReturnedIsAttainable(more[last], name, id);
      if Stranded(s, name) {
        StrandedStays(s, more, name, last);
      }
      if name.DatabaseAddress? && Stranded(s, PostgresPassword) {
        StrandedStays(s, more, PostgresPassword, last);
      }
    }
  }
}
