/**
 Process-tree closure: descendantPids of scripts/smoke-desktop-release-processes.ts and the inventory loop
 of scripts/public-download/shutdown-observer.ts, on the parsed rows of a process table. The rows may come
 in any order and may even form cycles. A cell that is not a number counts as 0.
 */
module ProcessClosure {
  datatype Row = Row(pid: nat, parent: nat)

  predicate Edge(rows: seq<Row>, parent: nat, pid: nat) {
    Row(pid, parent) in rows
  }

  /** A chain of parent edges from `starts` to `pid`. */
  ghost predicate Chain(rows: seq<Row>, starts: set<nat>, path: seq<nat>, pid: nat) {
    && path != [] && path[0] in starts && path[|path| - 1] == pid
    && forall i :: 0 <= i < |path| - 1 ==> Edge(rows, path[i], path[i + 1])
  }

  ghost predicate Reachable(rows: seq<Row>, starts: set<nat>, pid: nat) {
    exists path :: Chain(rows, starts, path, pid)
  }

  lemma ReachMore(rows: seq<Row>, starts: set<nat>, parent: nat, pid: nat)
    requires Reachable(rows, starts, parent) && Edge(rows, parent, pid)
    ensures Reachable(rows, starts, pid)
  {
    var path :| Chain(rows, starts, path, parent);
    assert Chain(rows, starts, path + [pid], pid);
  }

  lemma ReachStart(rows: seq<Row>, starts: set<nat>, pid: nat)
    requires pid in starts
    ensures Reachable(rows, starts, pid)
  {
    assert Chain(rows, starts, [pid], pid);
  }

  ghost predicate Closed(rows: seq<Row>, s: set<nat>) {
    forall i :: 0 <= i < |rows| && rows[i].parent in s ==> rows[i].pid in s
  }

  /** A set that holds the starts and is closed under parent edges holds everything reachable. */
  lemma {:induction false} ClosedHoldsReachable(rows: seq<Row>, starts: set<nat>, s: set<nat>, path: seq<nat>, pid: nat)
    requires starts <= s && Closed(rows, s) && Chain(rows, starts, path, pid)
    ensures pid in s
  {
    if |path| > 1 {
      var shorter := path[..|path| - 1];
      assert Chain(rows, starts, shorter, path[|path| - 2]);
      ClosedHoldsReachable(rows, starts, s, shorter, path[|path| - 2]);
      assert Edge(rows, path[|path| - 2], path[|path| - 2 + 1]);
    }
  }

  /** The least closed set: reachable pids and nothing else. */
  lemma LeastClosed(rows: seq<Row>, starts: set<nat>, s: set<nat>)
    requires starts <= s && Closed(rows, s) && forall pid :: pid in s ==> Reachable(rows, starts, pid)
    ensures forall pid :: pid in s <==> Reachable(rows, starts, pid)
  {
    forall pid | Reachable(rows, starts, pid)
      ensures pid in s
    {
      var path :| Chain(rows, starts, path, pid);
      ClosedHoldsReachable(rows, starts, s, path, pid);
    }
  }

  /** The rows the loop of descendantPids looks at. */
  function Numbered(rows: seq<Row>): seq<Row> {
    if rows == [] then []
    else (if rows[0].pid != 0 && rows[0].parent != 0 then [rows[0]] else []) + Numbered(rows[1..])
  }

  lemma {:induction false} NumberedRows(rows: seq<Row>, row: Row)
    ensures row in Numbered(rows) <==> row in rows && row.pid != 0 && row.parent != 0
  {
    if rows != [] {
      NumberedRows(rows[1..], row);
      assert rows == [rows[0]] + rows[1..];
    }
  }

  function Pids(rows: seq<Row>): set<nat> {
    set row | row in rows :: row.pid
  }

  /** One row of the pass: whether it has nothing to add. */
  predicate Settled(row: Row, owned: set<nat>) {
    row.pid != 0 && row.parent != 0 && row.parent in owned ==> row.pid in owned
  }

  lemma AllSettled(rows: seq<Row>, owned: set<nat>)
    requires forall i :: 0 <= i < |rows| ==> Settled(rows[i], owned)
    ensures Closed(Numbered(rows), owned)
  {
    forall i | 0 <= i < |Numbered(rows)| && Numbered(rows)[i].parent in owned
      ensures Numbered(rows)[i].pid in owned
    {
      var row := Numbered(rows)[i];
      NumberedRows(rows, row);
      var k :| 0 <= k < |rows| && rows[k] == row;
      assert Settled(rows[k], owned);
    }
  }

  /** The pass over the rows inside the loop of descendantPids. */
  method Pass(rows: seq<Row>, root: nat, owned: set<nat>) returns (grown: set<nat>, added: bool)
    requires forall pid :: pid in owned ==> Reachable(Numbered(rows), {root}, pid)
    ensures owned <= grown <= owned + Pids(rows) && (0 in grown ==> 0 in owned)
    ensures added <==> grown != owned
    ensures forall pid :: pid in grown ==> Reachable(Numbered(rows), {root}, pid)
    ensures !added ==> forall k :: 0 <= k < |rows| ==> Settled(rows[k], grown)
  {
    grown, added := owned, false;
    for i := 0 to |rows|
      invariant owned <= grown <= owned + Pids(rows) && (0 in grown ==> 0 in owned)
      invariant added <==> grown != owned
      invariant forall pid :: pid in grown ==> Reachable(Numbered(rows), {root}, pid)
      invariant !added ==> forall k :: 0 <= k < i ==> Settled(rows[k], grown)
    {
      var row := rows[i];
      if row.pid != 0 && row.parent != 0 && row.parent in grown && row.pid !in grown {
        NumberedRows(rows, row);
        ReachMore(Numbered(rows), {root}, row.parent, row.pid);
        assert row.pid in Pids(rows);
        grown := grown + {row.pid};
        added := true;
      }
    }
  }

  /** Terminates on every table and returns exactly the pids below the root, the root itself excluded. */
  method DescendantPids(rows: seq<Row>, root: nat) returns (owned: set<nat>)
    ensures forall pid :: pid in owned <==> pid != root && Reachable(Numbered(rows), {root}, pid)
    ensures 0 !in owned
    ensures forall pid :: pid in owned <==> pid != root && exists path :: Descends(rows, root, path, pid)
  {
    ReachStart(Numbered(rows), {root}, root);
    owned := {root};
    var added := true;
    while added
      invariant root in owned && owned <= {root} + Pids(rows) && (0 in owned ==> root == 0)
      invariant forall pid :: pid in owned ==> Reachable(Numbered(rows), {root}, pid)
      invariant !added ==> forall k :: 0 <= k < |rows| ==> Settled(rows[k], owned)
      decreases |({root} + Pids(rows)) - owned|, added
    {
      ghost var before := ({root} + Pids(rows)) - owned;
      owned, added := Pass(rows, root, owned);
      SameSizeSameSet(({root} + Pids(rows)) - owned, before);
    }
    AllSettled(rows, owned);
    LeastClosed(Numbered(rows), {root}, owned);
    owned := owned - {root};
    forall pid
      ensures Reachable(Numbered(rows), {root}, pid) <==> exists path :: Descends(rows, root, path, pid)
    {
      DescendsIff(rows, root, pid);
    }
  }

  /** A chain from the root to `pid` over rows of the table in which both numbers are there. */
  predicate Descends(rows: seq<Row>, root: nat, path: seq<nat>, pid: nat) {
    && path != [] && path[0] == root && path[|path| - 1] == pid
    && forall i :: 0 <= i < |path| - 1 ==> Parent(rows, path[i], path[i + 1])
  }

  predicate Parent(rows: seq<Row>, parent: nat, pid: nat) {
    parent != 0 && pid != 0 && Row(pid, parent) in rows
  }

  lemma DescendsIff(rows: seq<Row>, root: nat, pid: nat)
    ensures Reachable(Numbered(rows), {root}, pid) <==> exists path :: Descends(rows, root, path, pid)
  {
    forall path: seq<nat>
      ensures Chain(Numbered(rows), {root}, path, pid) <==> Descends(rows, root, path, pid)
    {
      forall i | 0 <= i < |path| - 1
        ensures Edge(Numbered(rows), path[i], path[i + 1])
                <==> Parent(rows, path[i], path[i + 1])
      {
        NumberedRows(rows, Row(path[i + 1], path[i]));
      }
    }
  }

  /** The observer grows its set until a pass leaves the size alone; it keeps the supervisors. */
  method ObservedPids(rows: seq<Row>, supervisors: set<nat>) returns (pids: set<nat>)
    ensures forall pid :: pid in pids <==> Reachable(rows, supervisors, pid)
  {
    pids := supervisors;
    forall pid | pid in supervisors
      ensures Reachable(rows, supervisors, pid)
    {
      ReachStart(rows, supervisors, pid);
    }
    var previous: int := -1;
    while previous != |pids|
      invariant supervisors <= pids <= supervisors + Pids(rows)
      invariant forall pid :: pid in pids ==> Reachable(rows, supervisors, pid)
      invariant previous == |pids| ==> Closed(rows, pids)
      invariant previous <= |pids|
      decreases (supervisors + Pids(rows)) - pids, |pids| - previous
    {
      previous := |pids|;
      ghost var before := pids;
      for i := 0 to |rows|
        invariant before <= pids <= supervisors + Pids(rows)
        invariant forall pid :: pid in pids ==> Reachable(rows, supervisors, pid)
        invariant pids == before ==> forall k :: 0 <= k < i && rows[k].parent in pids ==> rows[k].pid in pids
      {
        var row := rows[i];
        if row.parent in pids {
          assert Edge(rows, row.parent, row.pid);
          ReachMore(rows, supervisors, row.parent, row.pid);
          assert row.pid in Pids(rows);
          pids := pids + {row.pid};
        }
      }
      SameSizeSameSet(before, pids);
    }
    LeastClosed(rows, supervisors, pids);
  }

  lemma SameSizeSameSet(a: set<nat>, b: set<nat>)
    requires a <= b
    ensures |a| <= |b| && (|a| == |b| <==> a == b)
  {
    assert b == a + (b - a);
  }
}
