/** The choices the server leaves open can always be made: fresh ids for the sweep, an
    enumeration of the expired rows, and an answer to every cursor it knows. */
module AnswersExist {
  import opened Revisions
  import opened RevisionLog
  import opened SyncProtocol
  import opened Exchange
  import opened SyncSystem

  lemma {:induction false} Enumeration(s: set<nat>) returns (rows: seq<nat>)
    ensures Enumerates(rows, s) && |rows| == |s|
    decreases |s|
  {
    if s == {} {
      rows := [];
    } else {
      var x :| x in s;
      var rest := Enumeration(s - {x});
      rows := rest + [x];
    }
  }

  lemma {:induction false} UpperBound(s: set<Id>) returns (bound: nat)
    ensures forall x :: x in s ==> x < bound
    decreases |s|
  {
    if s == {} {
      bound := 0;
    } else {
      var x :| x in s;
      var b := UpperBound(s - {x});
      bound := if b <= x then x + 1 else b;
      forall y | y in s ensures y < bound { assert y == x || y in s - {x}; }
    }
  }

  lemma {:induction false} FreshIdsExist(s: System, n: nat) returns (ids: seq<Id>)
    requires LogIssued(s.server.log, s.issued)
    ensures |ids| == n && FreshIds(s.server.log, ids) && forall x :: x in ids ==> x !in s.issued
  {
    var bound := UpperBound(s.issued.Keys);
    ids := seq(n, i => bound + 1 + i);
    forall x | x in ids ensures x !in s.issued && x != NO_ID {}
  }

  /** Puts a row at its place. */
  function InsertRow(r: Revision, rows: seq<Revision>): seq<Revision> {
    if rows == [] || RowBefore(r, rows[0]) then [r] + rows else [rows[0]] + InsertRow(r, rows[1..])
  }

  lemma {:induction false} InsertRowMembers(r: Revision, rows: seq<Revision>)
    ensures forall x :: x in InsertRow(r, rows) <==> x == r || x in rows
  {
    if rows != [] && !RowBefore(r, rows[0]) {
      InsertRowMembers(r, rows[1..]);
      assert rows == [rows[0]] + rows[1..];
    }
  }

  lemma {:induction false} InsertRowKeepsOrder(r: Revision, rows: seq<Revision>)
    requires InOrder(rows) && forall x :: x in rows ==> RowBefore(x, r) || RowBefore(r, x)
    ensures InOrder(InsertRow(r, rows))
  {
    if rows == [] || RowBefore(r, rows[0]) {
      var all := InsertRow(r, rows);
      forall i, j | 0 <= i < j < |all| ensures RowBefore(all[i], all[j]) {
        assert all[j] == rows[j - 1];
      }
    } else {
      var rest := InsertRow(r, rows[1..]);
      InsertRowKeepsOrder(r, rows[1..]);
      InsertRowMembers(r, rows[1..]);
      assert rows[0] in rows;
      forall x | x in rest ensures RowBefore(rows[0], x) {
        if x != r { var i :| 0 <= i < |rows| - 1 && rows[1..][i] == x; }
      }
      var all := InsertRow(r, rows);
      forall i, j | 0 <= i < j < |all| ensures RowBefore(all[i], all[j]) {
        assert all[j] == rest[j - 1] && all[j] in rest;
      }
    }
  }

  /** Some rows of the history, in order. */
  lemma {:induction false} OrderedRows(log: Ledger, ks: set<nat>) returns (rows: seq<Revision>)
    requires LegalLog(log) && forall k :: k in ks ==> k < |log|
    ensures InOrder(rows) && forall r :: r in rows <==> exists k :: k in ks && ItemAt(log, k) == r
    decreases |ks|
  {
    if ks == {} {
      rows := [];
    } else {
      var k :| k in ks;
      var rest := OrderedRows(log, ks - {k});
      var r := ItemAt(log, k);
      forall x | x in rest ensures RowBefore(x, r) || RowBefore(r, x) {
        var j :| j in ks - {k} && ItemAt(log, j) == x;
        assert Legal(log, j) && Legal(log, k);
        if x.revisionId == r.revisionId { UniqueIds(log, j, k); }
      }
      InsertRowKeepsOrder(r, rest);
      InsertRowMembers(r, rest);
      rows := InsertRow(r, rest);
    }
  }

  lemma {:induction false} SnapshotExists(log: Ledger) returns (rows: seq<Revision>)
    requires LegalLog(log)
    ensures SnapshotOf(log, |log|, rows) && InOrder(rows)
  {
    var n := |log|;
    var ks := set k | 0 <= k < n && IdAt(log, k) in HeadsAt(log, n, ItemAt(log, k).itemId);
    rows := OrderedRows(log, ks);
    forall j | 0 <= j < |rows| ensures HeadRow(log, n, rows[j]) {
      assert rows[j] in rows;
      var k :| k in ks && ItemAt(log, k) == rows[j];
      assert Legal(log, k);
      HistoryRow(log, n, k);
    }
    forall item, x ensures HeadListed(log, n, rows, item, x) {
      if x in HeadsAt(log, n, item) {
        var k := HistoryIndex(log, n, item, x);
        assert k in ks;
      }
    }
    forall i, j | 0 <= i < j < |rows| ensures rows[i].revisionId != rows[j].revisionId {
      RowsDiffer(log, ks, rows, i, j);
    }
  }

  lemma {:induction false} RowsDiffer(log: Ledger, ks: set<nat>, rows: seq<Revision>, i: nat, j: nat)
    requires LegalLog(log) && (forall k :: k in ks ==> k < |log|) && InOrder(rows) && i < j < |rows|
    requires forall r :: r in rows <==> exists k :: k in ks && ItemAt(log, k) == r
    ensures rows[i].revisionId != rows[j].revisionId
  {
    assert rows[i] in rows && rows[j] in rows && RowBefore(rows[i], rows[j]);
    var k :| k in ks && ItemAt(log, k) == rows[i];
    var l :| l in ks && ItemAt(log, l) == rows[j];
    assert Legal(log, k) && Legal(log, l);
    if rows[i].revisionId == rows[j].revisionId { UniqueIds(log, k, l); }
  }

  /** To every cursor the server knows there is an answer. */
  lemma {:induction false} ReplyExists(s: Server, input: nat, ms: seq<Mutation>) returns (r: Reply)
    requires ServerOk(s) && input <= |s.log|
    ensures ReplyFor(s, input, ms, r)
    ensures r.cursor == |s.log| || r.cursor == input + PAGE_SIZE
  {
    if Retained(s, input) {
      r := Reply(PageEnd(s.log, input), false, Ids(ms), Items(s.log, input, PageEnd(s.log, input)));
    } else {
      var rows := SnapshotExists(s.log);
      r := Reply(|s.log|, true, Ids(ms), rows);
    }
  }
}
