/**
 Trace grading of evals/agent-tools/grader.ts: the `order` checks of grade and the `until` groups of
 gradeToolBoundary. Tool names are matched as toolMatches does; partialMatch is an arbitrary relation on
 JSON values.
 */
module Grader {
  import opened Options
  import opened Text

  /** "*" or one of the alternatives between bars. */
  predicate ToolMatches(actual: string, expected: string) {
    expected == "*" || actual in Split(expected, '|')
  }

  lemma {:induction false} SplitJoin(names: seq<string>)
    requires names != [] && forall i :: 0 <= i < |names| ==> '|' !in names[i]
    ensures Split(Join(names, '|'), '|') == names
  {
    if |names| == 1 {
      SplitPlain(names[0], '|');
    } else {
      SplitAtFirst(names[0], Join(names[1..], '|'), '|');
      SplitJoin(names[1..]);
    }
  }

  /** Names joined by bars match exactly these names, unless they are the wildcard. */
  lemma AlternativesMatch(actual: string, names: seq<string>)
    requires names != [] && forall i :: 0 <= i < |names| ==> '|' !in names[i]
    ensures ToolMatches(actual, Join(names, '|')) <==> names == ["*"] || actual in names
  {
    SplitJoin(names);
    SplitPlain("*", '|');
  }

  /** What a name in an order or a requirement stands for. */
  ghost predicate StandsFor(expected: string, actual: string) {
    expected == "*" || exists names :: BarFree(names) && Join(names, '|') == expected && actual in names
  }

  predicate BarFree(names: seq<string>) {
    names != [] && forall i :: 0 <= i < |names| ==> '|' !in names[i]
  }

  lemma ToolMatchesIff(actual: string, expected: string)
    ensures ToolMatches(actual, expected) <==> StandsFor(expected, actual)
  {
    SplitHasNoSeparator(expected, '|');
    JoinSplit(expected, '|');
    assert BarFree(Split(expected, '|'));
    forall names | BarFree(names) && Join(names, '|') == expected
      ensures Split(expected, '|') == names
    {
      SplitJoin(names);
    }
  }

  type Relation<!C, !N> = (C, N) -> bool

  datatype RecordedCall<V> = RecordedCall(tool: string, args: V, valid: bool, result: Option<V>)

  datatype Required<V> = Required(tool: string, args: V, result: V)

  /** A call of the trace that counts for `name`. */
  predicate Answers<V>(call: RecordedCall<V>, name: string) {
    call.valid && ToolMatches(call.tool, name)
  }

  function ByTool<V>(): Relation<RecordedCall<V>, string> {
    (call: RecordedCall<V>, name) => ToolMatches(call.tool, name)
  }

  function ByAnswer<V>(): Relation<RecordedCall<V>, string> {
    (call, name) => Answers(call, name)
  }

  /** A successful call that answers `required`, with `partial` for partialMatch. */
  predicate Fulfils<V>(call: RecordedCall<V>, required: Required<V>, partial: (V, V) -> bool) {
    && Answers(call, required.tool) && partial(call.args, required.args)
    && call.result.Some? && partial(call.result.value, required.result)
  }

  function ByResult<V>(partial: (V, V) -> bool): Relation<RecordedCall<V>, Required<V>> {
    (call, required) => Fulfils(call, required, partial)
  }

  // ---------------------------------------------------------------------------
  // order

  /** `e` places the names, in order, on strictly increasing calls. */
  ghost predicate Embedding<C(!new), N(!new)>(calls: seq<C>, names: seq<N>, matches: Relation<C, N>, e: seq<nat>) {
    && |e| == |names|
    && (forall i :: 0 <= i < |e| ==> e[i] < |calls| && matches(calls[e[i]], names[i]))
    && (forall i, j :: 0 <= i < j < |e| ==> e[i] < e[j])
  }

  ghost predicate Embeds<C(!new), N(!new)>(calls: seq<C>, names: seq<N>, matches: Relation<C, N>) {
    exists e :: Embedding(calls, names, matches, e)
  }

  /** Array.findIndex above `from`; |calls| when there is none. */
  method FirstAfter<C, N>(calls: seq<C>, name: N, matches: Relation<C, N>, from: int) returns (next: nat)
    requires -1 <= from
    ensures next <= |calls|
    ensures next < |calls| ==> next > from && matches(calls[next], name)
    ensures forall k :: from < k < |calls| && k < next ==> !matches(calls[k], name)
  {
    next := from + 1;
    while next < |calls|
      invariant from < next
      invariant forall k :: from < k < next && k < |calls| ==> !matches(calls[k], name)
    {
      if matches(calls[next], name) {
        return;
      }
      next := next + 1;
    }
    next := |calls|;
  }

  /** `previous` is the least index at which an embedding of `names` can end; past the calls when there is none. */
  ghost predicate Earliest<C(!new), N(!new)>(calls: seq<C>, names: seq<N>, matches: Relation<C, N>, previous: int) {
    && -1 <= previous <= |calls|
    && (names == [] ==> previous == -1)
    && (names != [] && previous < |calls| ==> exists e :: Embedding(calls, names, matches, e) && e[|e| - 1] == previous)
    && (names != [] ==> forall e :: Embedding(calls, names, matches, e) ==> e[|e| - 1] >= previous)
  }

  lemma EmbeddingInit<C(!new), N(!new)>(calls: seq<C>, names: seq<N>, name: N, matches: Relation<C, N>, e: seq<nat>)
    requires Embedding(calls, names + [name], matches, e)
    ensures Embedding(calls, names, matches, e[..|names|])
    ensures |e| == |names| + 1 && e[|names|] < |calls| && matches(calls[e[|names|]], name)
    ensures forall i :: 0 <= i < |names| ==> e[i] < e[|names|]
  {
    assert (names + [name])[|names|] == name;
    forall i | 0 <= i < |names|
      ensures matches(calls[e[i]], names[i])
    {
      assert (names + [name])[i] == names[i];
    }
  }

  /** The greedy choice stays earliest. */
  lemma GreedyStep<C(!new), N(!new)>(
    calls: seq<C>, names: seq<N>, name: N, matches: Relation<C, N>, previous: int, next: nat)
    requires Earliest(calls, names, matches, previous) && next <= |calls|
    requires next < |calls| ==> next > previous && matches(calls[next], name)
    requires forall k :: previous < k < |calls| && k < next ==> !matches(calls[k], name)
    ensures Earliest(calls, names + [name], matches, next)
  {
    if next < |calls| {
      var e: seq<nat> := [];
      if names != [] {
        e :| Embedding(calls, names, matches, e) && e[|e| - 1] == previous;
      }
      var f := e + [next];
      assert Embedding(calls, names + [name], matches, f);
      assert f[|f| - 1] == next;
    }
    forall f | Embedding(calls, names + [name], matches, f)
      ensures f[|f| - 1] >= next
    {
      EmbeddingInit(calls, names, name, matches, f);
      var e := f[..|names|];
      if names != [] {
        assert e[|e| - 1] >= previous;
        assert f[|names| - 1] < f[|names|];
      }
    }
  }

  lemma EarliestDecides<C(!new), N(!new)>(calls: seq<C>, names: seq<N>, matches: Relation<C, N>, previous: int)
    requires Earliest(calls, names, matches, previous) && names != []
    ensures previous < |calls| <==> Embeds(calls, names, matches)
  {
  }

  /** Check `i` tells whether the first i+1 names can be placed in order. */
  ghost predicate CheckRight<C(!new), N(!new)>(
    valid: seq<C>, order: seq<N>, matches: Relation<C, N>, check: bool, i: nat) {
    i < |order| && (check <==> Embeds(valid, order[..i + 1], matches))
  }

  /** The order loop of grade. */
  method GradeOrder<C(!new), N(!new)>(valid: seq<C>, order: seq<N>, matches: Relation<C, N>) returns (checks: seq<bool>)
    ensures |checks| == |order|
    ensures forall i :: 0 <= i < |order| ==> CheckRight(valid, order, matches, checks[i], i)
  {
    checks := [];
    var previous: int := -1;
    for i := 0 to |order|
      invariant |checks| == i && Earliest(valid, order[..i], matches, previous)
      invariant forall k :: 0 <= k < i ==> CheckRight(valid, order, matches, checks[k], k)
    {
      var next := FirstAfter(valid, order[i], matches, previous);
      NextCheck(valid, order, matches, i, previous, next);
      checks := checks + [next != |valid|];
      previous := next;
    }
  }

  /** Array.filter by `valid`, and where each call that is kept came from. */
  function ValidCalls<V>(calls: seq<RecordedCall<V>>): seq<RecordedCall<V>> {
    if calls == [] then []
    else if calls[|calls| - 1].valid then ValidCalls(calls[..|calls| - 1]) + [calls[|calls| - 1]]
    else ValidCalls(calls[..|calls| - 1])
  }

  function Positions<V>(calls: seq<RecordedCall<V>>): (at: seq<nat>)
    ensures |at| == |ValidCalls(calls)|
    ensures forall i :: 0 <= i < |at| ==> at[i] < |calls| && ValidCalls(calls)[i] == calls[at[i]] && calls[at[i]].valid
    ensures forall i, j :: 0 <= i < j < |at| ==> at[i] < at[j]
  {
    if calls == [] then []
    else
      var n := |calls| - 1;
      if calls[n].valid then Positions(calls[..n]) + [n] else Positions(calls[..n])
  }

  lemma {:induction false} ValidIsKept<V>(calls: seq<RecordedCall<V>>, k: nat) returns (i: nat)
    requires k < |calls| && calls[k].valid
    ensures i < |Positions(calls)| && Positions(calls)[i] == k
  {
    var n := |calls| - 1;
    if k == n {
      i := |Positions(calls[..n])|;
    } else {
      i := ValidIsKept(calls[..n], k);
    }
  }

  lemma NextCheck<C(!new), N(!new)>(
    valid: seq<C>, order: seq<N>, matches: Relation<C, N>, i: nat, previous: int, next: nat)
    requires i < |order| && Earliest(valid, order[..i], matches, previous) && next <= |valid|
    requires next < |valid| ==> next > previous && matches(valid[next], order[i])
    requires forall k :: previous < k < |valid| && k < next ==> !matches(valid[k], order[i])
    ensures Earliest(valid, order[..i + 1], matches, next)
    ensures CheckRight(valid, order, matches, next != |valid|, i)
  {
    assert order[..i + 1] == order[..i] + [order[i]];
    GreedyStep(valid, order[..i], order[i], matches, previous, next);
    EarliestDecides(valid, order[..i + 1], matches, next);
  }

  /** Embedding in the valid calls is embedding in all calls, with invalid ones answering nothing. */
  lemma EmbedsInValid<V(!new)>(calls: seq<RecordedCall<V>>, names: seq<string>)
    ensures Embeds(ValidCalls(calls), names, ByTool()) <==> Embeds(calls, names, ByAnswer())
  {
    var at := Positions(calls);
    if Embeds(ValidCalls(calls), names, ByTool()) {
      var e :| Embedding(ValidCalls(calls), names, ByTool(), e);
      assert Embedding(calls, names, ByAnswer(), seq(|e|, i requires 0 <= i < |e| => at[e[i]]));
    }
    if Embeds(calls, names, ByAnswer()) {
      var e :| Embedding(calls, names, ByAnswer(), e);
      var f := Renumbered(calls, e);
      forall i, j | 0 <= i < j < |f|
        ensures f[i] < f[j]
      {
        assert at[f[i]] < at[f[j]];
      }
      assert Embedding(ValidCalls(calls), names, ByTool(), f);
    }
  }

  /** Where the given valid calls are among the valid ones. */
  lemma {:induction false} Renumbered<V>(calls: seq<RecordedCall<V>>, e: seq<nat>) returns (f: seq<nat>)
    requires forall i :: 0 <= i < |e| ==> e[i] < |calls| && calls[e[i]].valid
    ensures |f| == |e| && forall i :: 0 <= i < |f| ==> f[i] < |Positions(calls)| && Positions(calls)[f[i]] == e[i]
  {
    if e == [] {
      f := [];
    } else {
      f := Renumbered(calls, e[..|e| - 1]);
      var last := ValidIsKept(calls, e[|e| - 1]);
      f := f + [last];
    }
  }

  /** `e` places the names on valid calls, in order. */
  ghost predicate InOrder<V(!new)>(calls: seq<RecordedCall<V>>, names: seq<string>, e: seq<nat>) {
    && |e| == |names| && (forall i, j :: 0 <= i < j < |e| ==> e[i] < e[j])
    && (forall i :: 0 <= i < |e| ==> e[i] < |calls| && calls[e[i]].valid && StandsFor(names[i], calls[e[i]].tool))
  }

  ghost predicate Placeable<V(!new)>(calls: seq<RecordedCall<V>>, names: seq<string>) {
    exists e :: InOrder(calls, names, e)
  }

  lemma InOrderIff<V(!new)>(calls: seq<RecordedCall<V>>, names: seq<string>)
    ensures Embeds(calls, names, ByAnswer()) <==> Placeable(calls, names)
  {
    forall e: seq<nat>
      ensures Embedding(calls, names, ByAnswer(), e) <==> InOrder(calls, names, e)
    {
      forall i | 0 <= i < |e| && i < |names| && e[i] < |calls|
        ensures ByAnswer<V>()(calls[e[i]], names[i])
                <==> calls[e[i]].valid && StandsFor(names[i], calls[e[i]].tool)
      {
        ToolMatchesIff(calls[e[i]].tool, names[i]);
      }
    }
  }

  /** The check says whether the first i+1 names can be placed. */
  ghost predicate Tells<V(!new)>(calls: seq<RecordedCall<V>>, order: seq<string>, check: bool, i: nat) {
    i < |order| && (check <==> Placeable(calls, order[..i + 1]))
  }

  /** The order checks of grade: each tells whether so many names can be placed, in order, on valid calls. */
  method OrderChecks<V(!new)>(calls: seq<RecordedCall<V>>, order: seq<string>) returns (checks: seq<bool>)
    ensures |checks| == |order|
    ensures forall i :: 0 <= i < |order| ==> CheckRight(calls, order, ByAnswer(), checks[i], i)
    ensures forall i :: 0 <= i < |order| ==> Tells(calls, order, checks[i], i)
  {
    checks := GradeOrder(ValidCalls(calls), order, ByTool());
    forall i | 0 <= i < |order|
      ensures CheckRight(calls, order, ByAnswer(), checks[i], i)
    {
      assert CheckRight(ValidCalls(calls), order, ByTool(), checks[i], i);
      EmbedsInValid(calls, order[..i + 1]);
    }
    forall i | 0 <= i < |order|
      ensures Tells(calls, order, checks[i], i)
    {
      assert CheckRight(calls, order, ByAnswer(), checks[i], i);
      InOrderIff(calls, order[..i + 1]);
    }
  }

  /** All checks pass if and only if the whole order embeds, and then it still does after more calls. */
  lemma OrderStaysComplete<C(!new), N(!new)>(
    valid: seq<C>, more: seq<C>, order: seq<N>, matches: Relation<C, N>, i: nat)
    requires Embeds(valid, order, matches) && i <= |order|
    ensures Embeds(valid, order[..i], matches) && Embeds(valid + more, order, matches)
  {
    var e :| Embedding(valid, order, matches, e);
    assert Embedding(valid, order[..i], matches, e[..i]);
    assert Embedding(valid + more, order, matches, e);
  }

  // ---------------------------------------------------------------------------
  // until

  /** Every requirement of the group is answered by a call after `from`. */
  ghost predicate Placed<C(!new), N(!new)>(calls: seq<C>, group: seq<N>, hits: Relation<C, N>, a: seq<nat>) {
    |a| == |group| && forall j :: 0 <= j < |a| ==> a[j] < |calls| && hits(calls[a[j]], group[j])
  }

  ghost predicate WhollyAfter(a: seq<nat>, b: seq<nat>) {
    forall i, j :: 0 <= i < |a| && 0 <= j < |b| ==> a[i] < b[j]
  }

  /** Each group is answered, wholly after the one before it. */
  ghost predicate Assignment<C(!new), N(!new)>(
    calls: seq<C>, groups: seq<seq<N>>, hits: Relation<C, N>, a: seq<seq<nat>>) {
    && |a| == |groups|
    && (forall g :: 0 <= g < |a| ==> Placed(calls, groups[g], hits, a[g]))
    && (forall g :: 0 < g < |a| ==> WhollyAfter(a[g - 1], a[g]))
  }

  ghost predicate Completes<C(!new), N(!new)>(calls: seq<C>, groups: seq<seq<N>>, hits: Relation<C, N>) {
    exists a :: Assignment(calls, groups, hits, a)
  }

  /** The last index a group's answers reach. */
  function Last(a: seq<nat>): (m: nat)
    requires a != []
    ensures m in a && forall j :: 0 <= j < |a| ==> a[j] <= m
  {
    if |a| == 1 then a[0]
    else
      var m := Last(a[..|a| - 1]);
      if a[|a| - 1] > m then a[|a| - 1] else m
  }

  /** `cursor` is the least index by which the groups can be answered. */
  ghost predicate Soonest<C(!new), N(!new)>(calls: seq<C>, groups: seq<seq<N>>, hits: Relation<C, N>, cursor: int) {
    && cursor >= -1
    && (groups == [] ==> cursor == -1)
    && (groups != [] ==>
          && (exists a :: Assignment(calls, groups, hits, a) && a[|a| - 1] != [] && Last(a[|a| - 1]) == cursor)
          && (forall a :: Assignment(calls, groups, hits, a) && a[|a| - 1] != [] ==> Last(a[|a| - 1]) >= cursor))
  }

  lemma AssignmentInit<C(!new), N(!new)>(
    calls: seq<C>, groups: seq<seq<N>>, group: seq<N>, hits: Relation<C, N>, a: seq<seq<nat>>)
    requires Assignment(calls, groups + [group], hits, a)
    ensures |a| == |groups| + 1
    ensures Assignment(calls, groups, hits, a[..|groups|]) && Placed(calls, group, hits, a[|groups|])
    ensures groups != [] ==> WhollyAfter(a[|groups| - 1], a[|groups|])
  {
    assert (groups + [group])[|groups|] == group;
    var b := a[..|groups|];
    forall g | 0 <= g < |b|
      ensures Placed(calls, groups[g], hits, b[g])
    {
      assert (groups + [group])[g] == groups[g];
      assert Placed(calls, (groups + [group])[g], hits, a[g]);
    }
    forall g | 0 < g < |b|
      ensures WhollyAfter(b[g - 1], b[g])
    {
      assert WhollyAfter(a[g - 1], a[g]);
    }
  }

  /** In any assignment, the group after `groups` is answered above the soonest cursor. */
  lemma NextGroupIsAfter<C(!new), N(!new)>(calls: seq<C>, groups: seq<seq<N>>, group: seq<N>, hits: Relation<C, N>,
                                           cursor: int, a: seq<seq<nat>>, j: nat)
    requires Soonest(calls, groups, hits, cursor) && Assignment(calls, groups + [group], hits, a) && j < |group|
    requires groups != [] ==> groups[|groups| - 1] != []
    ensures |a| == |groups| + 1 && Placed(calls, group, hits, a[|groups|]) && a[|groups|][j] > cursor
  {
    AssignmentInit(calls, groups, group, hits, a);
    if groups != [] {
      var b := a[..|groups|];
      var before := b[|b| - 1];
      assert Placed(calls, groups[|groups| - 1], hits, before);
      assert Last(before) >= cursor;
      var i :| 0 <= i < |before| && before[i] == Last(before);
      assert a[|groups| - 1][i] < a[|groups|][j];
    }
  }

  lemma AssignmentSnoc<C(!new), N(!new)>(
    calls: seq<C>, groups: seq<seq<N>>, group: seq<N>, hits: Relation<C, N>, a: seq<seq<nat>>, last: seq<nat>)
    requires Assignment(calls, groups, hits, a) && Placed(calls, group, hits, last)
    requires groups != [] ==> WhollyAfter(a[|a| - 1], last)
    ensures Assignment(calls, groups + [group], hits, a + [last])
  {
    var longer, b := groups + [group], a + [last];
    forall g | 0 <= g < |b|
      ensures Placed(calls, longer[g], hits, b[g])
    {
      if g < |a| {
        assert longer[g] == groups[g] && b[g] == a[g] && Placed(calls, groups[g], hits, a[g]);
      } else {
        assert longer[g] == group && b[g] == last;
      }
    }
    forall g | 0 < g < |b|
      ensures WhollyAfter(b[g - 1], b[g])
    {
      if g < |a| {
        assert b[g - 1] == a[g - 1] && b[g] == a[g] && WhollyAfter(a[g - 1], a[g]);
      } else {
        assert b[g - 1] == a[|a| - 1] && b[g] == last;
      }
    }
  }

  lemma AssignmentPrefix<C(!new), N(!new)>(
    calls: seq<C>, groups: seq<seq<N>>, hits: Relation<C, N>, a: seq<seq<nat>>, i: nat)
    requires Assignment(calls, groups, hits, a) && i <= |groups|
    ensures Assignment(calls, groups[..i], hits, a[..i])
  {
    var b := a[..i];
    forall g | 0 <= g < |b|
      ensures Placed(calls, groups[..i][g], hits, b[g])
    {
      assert Placed(calls, groups[g], hits, a[g]);
    }
    forall g | 0 < g < |b|
      ensures WhollyAfter(b[g - 1], b[g])
    {
      assert WhollyAfter(a[g - 1], a[g]);
    }
  }

  /** `firsts` holds the first answers to the group after the cursor. */
  ghost predicate Firsts<C(!new), N(!new)>(
    calls: seq<C>, group: seq<N>, hits: Relation<C, N>, cursor: int, firsts: seq<nat>) {
    && cursor >= -1 && Placed(calls, group, hits, firsts)
    && (forall j :: 0 <= j < |firsts| ==> firsts[j] > cursor)
    && (forall j, k :: 0 <= j < |firsts| && cursor < k < firsts[j] ==> !hits(calls[k], group[j]))
  }

  lemma NoSoonerLast<C(!new), N(!new)>(
    calls: seq<C>, groups: seq<seq<N>>, group: seq<N>, hits: Relation<C, N>, cursor: int, firsts: seq<nat>,
    c: seq<seq<nat>>)
    requires Soonest(calls, groups, hits, cursor) && group != [] && (groups != [] ==> groups[|groups| - 1] != [])
    requires Firsts(calls, group, hits, cursor, firsts) && Assignment(calls, groups + [group], hits, c)
    ensures |c| == |groups| + 1 && c[|groups|] != [] && Last(c[|groups|]) >= Last(firsts)
  {
    var j :| 0 <= j < |firsts| && firsts[j] == Last(firsts);
    NextGroupIsAfter(calls, groups, group, hits, cursor, c, j);
    var last := c[|groups|];
    assert hits(calls[last[j]], group[j]);
    assert last[j] >= firsts[j];
  }

  lemma SomeAssignmentEndsThere<C(!new), N(!new)>(
    calls: seq<C>, groups: seq<seq<N>>, group: seq<N>, hits: Relation<C, N>, cursor: int, firsts: seq<nat>)
    returns (b: seq<seq<nat>>)
    requires Soonest(calls, groups, hits, cursor) && Firsts(calls, group, hits, cursor, firsts)
    ensures Assignment(calls, groups + [group], hits, b) && b[|b| - 1] == firsts
  {
    var a: seq<seq<nat>> := [];
    if groups != [] {
      a := SoonestWitness(calls, groups, hits, cursor);
    }
    AfterCursorSnoc(calls, groups, group, hits, a, cursor, firsts);
    b := a + [firsts];
  }

  lemma AfterCursorSnoc<C(!new), N(!new)>(calls: seq<C>, groups: seq<seq<N>>, group: seq<N>, hits: Relation<C, N>,
                                          a: seq<seq<nat>>, cursor: int, firsts: seq<nat>)
    requires Assignment(calls, groups, hits, a) && Firsts(calls, group, hits, cursor, firsts)
    requires groups != [] ==> a[|a| - 1] != [] && Last(a[|a| - 1]) == cursor
    ensures Assignment(calls, groups + [group], hits, a + [firsts])
  {
    if groups != [] {
      AfterLast(a[|a| - 1], firsts);
    }
    AssignmentSnoc(calls, groups, group, hits, a, firsts);
  }

  lemma SoonestWitness<C(!new), N(!new)>(
    calls: seq<C>, groups: seq<seq<N>>, hits: Relation<C, N>, cursor: int) returns (a: seq<seq<nat>>)
    requires Soonest(calls, groups, hits, cursor) && groups != []
    ensures Assignment(calls, groups, hits, a) && a[|a| - 1] != [] && Last(a[|a| - 1]) == cursor
  {
    a :| Assignment(calls, groups, hits, a) && a[|a| - 1] != [] && Last(a[|a| - 1]) == cursor;
  }

  lemma AfterLast(a: seq<nat>, b: seq<nat>)
    requires a != [] && forall j :: 0 <= j < |b| ==> Last(a) < b[j]
    ensures WhollyAfter(a, b)
  {
  }

  /** The first answers after the cursor are the soonest for the longer list. */
  lemma SoonestStep<C(!new), N(!new)>(
    calls: seq<C>, groups: seq<seq<N>>, group: seq<N>, hits: Relation<C, N>, cursor: int, firsts: seq<nat>)
    requires Soonest(calls, groups, hits, cursor) && group != [] && (groups != [] ==> groups[|groups| - 1] != [])
    requires Firsts(calls, group, hits, cursor, firsts)
    ensures Soonest(calls, groups + [group], hits, Last(firsts))
  {
    var b := SomeAssignmentEndsThere(calls, groups, group, hits, cursor, firsts);
    assert b[|b| - 1] != [] && Last(b[|b| - 1]) == Last(firsts);
    forall c | Assignment(calls, groups + [group], hits, c)
      ensures c[|c| - 1] != [] && Last(c[|c| - 1]) >= Last(firsts)
    {
      NoSoonerLast(calls, groups, group, hits, cursor, firsts, c);
    }
  }

  /** A requirement with no call after the cursor cannot be met by any assignment. */
  lemma DeadGroup<C(!new), N(!new)>(
    calls: seq<C>, groups: seq<seq<N>>, i: nat, hits: Relation<C, N>, cursor: int, j: nat)
    requires i < |groups| && Soonest(calls, groups[..i], hits, cursor) && j < |groups[i]|
    requires i > 0 ==> groups[i - 1] != []
    requires forall k :: cursor < k < |calls| ==> !hits(calls[k], groups[i][j])
    ensures !Completes(calls, groups, hits)
  {
    forall a | Assignment(calls, groups, hits, a)
      ensures false
    {
      var k := AnswerAfterCursor(calls, groups, i, hits, cursor, j, a);
    }
  }

  /** Any assignment answers requirement `j` of group `i` after the soonest cursor of the groups before it. */
  lemma AnswerAfterCursor<C(!new), N(!new)>(
    calls: seq<C>, groups: seq<seq<N>>, i: nat, hits: Relation<C, N>, cursor: int, j: nat, a: seq<seq<nat>>)
    returns (k: nat)
    requires i < |groups| && Soonest(calls, groups[..i], hits, cursor) && j < |groups[i]|
    requires i > 0 ==> groups[i - 1] != []
    requires Assignment(calls, groups, hits, a)
    ensures cursor < k < |calls| && hits(calls[k], groups[i][j])
  {
    AssignmentPrefix(calls, groups, hits, a, i + 1);
    assert groups[..i + 1] == groups[..i] + [groups[i]];
    NextGroupIsAfter(calls, groups[..i], groups[i], hits, cursor, a[..i + 1], j);
    k := a[..i + 1][i][j];
  }

  /** The first call after the cursor for each requirement of one group; fewer when one has none. */
  method MatchGroup<C(!new), N(!new)>(
    calls: seq<C>, group: seq<N>, hits: Relation<C, N>, cursor: int) returns (firsts: seq<nat>)
    requires cursor >= -1
    ensures |firsts| <= |group|
    ensures forall j :: 0 <= j < |firsts| ==> cursor < firsts[j] < |calls| && hits(calls[firsts[j]], group[j])
    ensures forall j, k :: 0 <= j < |firsts| && cursor < k < firsts[j] ==> !hits(calls[k], group[j])
    ensures |firsts| < |group| ==> forall k :: cursor < k < |calls| ==> !hits(calls[k], group[|firsts|])
  {
    firsts := [];
    for j := 0 to |group|
      invariant |firsts| == j
      invariant forall i :: 0 <= i < j ==> cursor < firsts[i] < |calls| && hits(calls[firsts[i]], group[i])
      invariant forall i, k :: 0 <= i < j && cursor < k < firsts[i] ==> !hits(calls[k], group[i])
    {
      var next := FirstAfter(calls, group[j], hits, cursor);
      if next == |calls| {
        return;
      }
      firsts := firsts + [next];
    }
  }

  lemma NextSoonest<C(!new), N(!new)>(
    calls: seq<C>, groups: seq<seq<N>>, i: nat, hits: Relation<C, N>, cursor: int, firsts: seq<nat>)
    requires i < |groups| && Soonest(calls, groups[..i], hits, cursor)
    requires groups[i] != [] && (i > 0 ==> groups[i - 1] != [])
    requires Firsts(calls, groups[i], hits, cursor, firsts)
    ensures Soonest(calls, groups[..i + 1], hits, Last(firsts))
  {
    assert groups[..i + 1] == groups[..i] + [groups[i]];
    SoonestStep(calls, groups[..i], groups[i], hits, cursor, firsts);
  }

  /** The until loop of gradeToolBoundary; the schema rejects empty groups. */
  method UntilComplete<C(!new), N(!new)>(
    previous: seq<C>, until: seq<seq<N>>, hits: Relation<C, N>) returns (complete: bool)
    requires forall g :: 0 <= g < |until| ==> until[g] != []
    ensures complete <==> until != [] && Completes(previous, until, hits)
  {
    if until == [] {
      return false;
    }
    var cursor: int := -1;
    for i := 0 to |until|
      invariant Soonest(previous, until[..i], hits, cursor)
    {
      var firsts := MatchGroup(previous, until[i], hits, cursor);
      if |firsts| < |until[i]| {
        DeadGroup(previous, until, i, hits, cursor, |firsts|);
        return false;
      }
      NextSoonest(previous, until, i, hits, cursor, firsts);
      cursor := Last(firsts);
    }
    assert until[..|until|] == until;
    ghost var a := SoonestWitness(previous, until, hits, cursor);
    return true;
  }

  /** The call is valid, of the tool, has the arguments, and returned the result. */
  ghost predicate Returned<V>(call: RecordedCall<V>, required: Required<V>, partial: (V, V) -> bool) {
    && call.valid && StandsFor(required.tool, call.tool) && partial(call.args, required.args)
    && match call.result
       case Some(result) => partial(result, required.result)
       case None => false
  }

  /** a[g][j] is the call that answers requirement `j` of group `g`; each group comes wholly after the one before. */
  ghost predicate AnsweredInTurn<V(!new)>(
    calls: seq<RecordedCall<V>>, until: seq<seq<Required<V>>>, partial: (V, V) -> bool, a: seq<seq<nat>>)
  {
    && |a| == |until|
    && (forall g :: 0 <= g < |a| ==> |a[g]| == |until[g]|)
    && (forall g, j :: 0 <= g < |a| && 0 <= j < |a[g]| ==>
          a[g][j] < |calls| && Returned(calls[a[g][j]], until[g][j], partial))
    && (forall g :: 0 < g < |a| ==> WhollyAfter(a[g - 1], a[g]))
  }

  lemma AnsweredIff<V(!new)>(calls: seq<RecordedCall<V>>, until: seq<seq<Required<V>>>, partial: (V, V) -> bool)
    ensures Completes(calls, until, ByResult(partial)) <==> exists a :: AnsweredInTurn(calls, until, partial, a)
  {
    forall call, required
      ensures ByResult(partial)(call, required) <==> Returned(call, required, partial)
    {
      ToolMatchesIff(call.tool, required.tool);
    }
    forall a: seq<seq<nat>>
      ensures Assignment(calls, until, ByResult(partial), a) <==> AnsweredInTurn(calls, until, partial, a)
    {
      if Assignment(calls, until, ByResult(partial), a) {
        forall g, j | 0 <= g < |a| && 0 <= j < |a[g]|
          ensures a[g][j] < |calls| && Returned(calls[a[g][j]], until[g][j], partial)
        {
          assert Placed(calls, until[g], ByResult(partial), a[g]);
        }
        assert forall g :: 0 <= g < |a| ==> Placed(calls, until[g], ByResult(partial), a[g]);
      }
    }
  }

  /** Whether a boundary's groups are complete: successful calls answer each group wholly after the one before it. */
  method BoundaryComplete<V(!new)>(
    previous: seq<RecordedCall<V>>, until: seq<seq<Required<V>>>, partial: (V, V) -> bool) returns (complete: bool)
    requires forall g :: 0 <= g < |until| ==> until[g] != []
    ensures complete <==> until != [] && Completes(previous, until, ByResult(partial))
    ensures complete <==> until != [] && exists a :: AnsweredInTurn(previous, until, partial, a)
  {
    AnsweredIff(previous, until, partial);
    complete := UntilComplete(previous, until, ByResult(partial));
  }

  /** Once complete, a boundary stays complete as calls are appended. */
  lemma CompleteStays<C(!new), N(!new)>(calls: seq<C>, more: seq<C>, groups: seq<seq<N>>, hits: Relation<C, N>)
    requires Completes(calls, groups, hits)
    ensures Completes(calls + more, groups, hits)
  {
    var a :| Assignment(calls, groups, hits, a);
    forall g | 0 <= g < |a|
      ensures Placed(calls + more, groups[g], hits, a[g])
    {
      assert Placed(calls, groups[g], hits, a[g]);
    }
    assert Assignment(calls + more, groups, hits, a);
  }
}
