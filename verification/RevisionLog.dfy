/** The append-only history behind every table of the server.

    Row k of the mutation ledger is the mutation accepted with change cursor
    k + 1. Everything the server stores is a function of this sequence and of the
    change cursors still retained. */
module RevisionLog {
  import opened Revisions

  // The largest revision number, and the largest BIGINT cursor.
  const MAX_REVISION: nat := 0x7FFF_FFFF_FFFF_FFFF
  const MAX_ENVELOPE: nat := 0x10_0000

  datatype LedgerRow = LedgerRow(mutation: Mutation, acceptedAt: int)
  type Ledger = seq<LedgerRow>

  function IdAt(log: Ledger, k: nat): Id
    requires k < |log|
  {
    log[k].mutation.mutationId
  }

  function ItemAt(log: Ledger, k: nat): Revision
    requires k < |log|
  {
    log[k].mutation.item
  }

  ghost predicate Logged(log: Ledger, n: nat, x: Id)
    requires n <= |log|
  {
    exists k :: 0 <= k < n && IdAt(log, k) == x
  }

  /** The graph of one item after the first n accepted mutations. */
  function History(log: Ledger, n: nat, item: Id): Graph
    requires n <= |log|
  {
    if n == 0 then map[] else
      var r := ItemAt(log, n - 1);
      var before := History(log, n - 1, item);
      if r.itemId == item then before[IdAt(log, n - 1) := r] else before
  }

  function HeadsAt(log: Ledger, n: nat, item: Id): set<Id>
    requires n <= |log|
  {
    Heads(History(log, n, item))
  }

  // ------------------------------------------------------ what is accepted

  /** The checks every mutation of a request meets before the store sees it. */
  predicate ValidMutation(m: Mutation) {
    && m.mutationId != NO_ID && m.item.itemId != NO_ID
    && m.item.schemaVersion >= 1
    && 1 <= m.item.revision <= MAX_REVISION
    && m.item.revisionId == m.mutationId
    && m.item.revision == m.baseRevision + 1
    && ValidContent(m.item)
    && |m.item.envelope| <= MAX_ENVELOPE
    && (m.baseRevision == 0 <==> m.item.parents == [])
    && ValidParents(m.item.parents)
  }

  predicate CoversHeads(g: Graph, ids: seq<Id>) {
    forall x :: x in Heads(g) ==> x in ids
  }

  /** A live edit whose only parent is a tombstone that is still a head. */
  predicate Resurrects(g: Graph, r: Revision) {
    && !r.deleted && |r.parents| == 1
    && r.parents[0] in Heads(g) && g[r.parents[0]].purged
  }

  /** The guards of applyVaultMutation over the graph of the item. */
  predicate Acceptable(g: Graph, m: Mutation) {
    if m.baseRevision == 0 then
      g == map[]
    else
      && Distinct(m.item.parents)
      && ParentsIn(g, m.item.parents)
      && MaxRevision(g, m.item.parents) == m.baseRevision
      && (m.item.purged ==> CoversHeads(g, m.item.parents))
      && !Resurrects(g, m.item)
  }

  // The schema version columns are 32-bit integers.
  const MAX_INTEGER: int := 2147483647

  /** The database can store the mutation's columns. */
  predicate Storable(m: Mutation) {
    m.item.schemaVersion <= MAX_INTEGER
  }

  ghost predicate Legal(log: Ledger, k: nat)
    requires k < |log|
  {
    && ValidMutation(log[k].mutation) && Storable(log[k].mutation)
    && !Logged(log, k, IdAt(log, k))
    && Acceptable(History(log, k, ItemAt(log, k).itemId), log[k].mutation)
  }

  ghost predicate LegalLog(log: Ledger) {
    forall k :: 0 <= k < |log| ==> Legal(log, k)
  }

  // ----------------------------------------------------- reading the history

  /** Appending rows does not change what was already there. */
  lemma {:induction false} HistoryPrefix(log: Ledger, longer: Ledger, n: nat, item: Id)
    requires n <= |log| && log <= longer
    ensures History(log, n, item) == History(longer, n, item)
  {
    if n > 0 {
      HistoryPrefix(log, longer, n - 1, item);
      assert log[n - 1] == longer[n - 1];
    }
  }

  lemma {:induction false} LoggedPrefix(log: Ledger, longer: Ledger, n: nat, x: Id)
    requires n <= |log| && log <= longer
    ensures Logged(log, n, x) <==> Logged(longer, n, x)
  {
    assert forall k :: 0 <= k < n ==> IdAt(log, k) == IdAt(longer, k);
  }

  /** A legal log extended by a legal row is legal. */
  lemma {:induction false} AppendLegal(log: Ledger, row: LedgerRow)
    requires LegalLog(log)
    requires ValidMutation(row.mutation) && Storable(row.mutation) && !Logged(log, |log|, row.mutation.mutationId)
    requires Acceptable(History(log, |log|, row.mutation.item.itemId), row.mutation)
    ensures LegalLog(log + [row])
  {
    var longer := log + [row];
    assert log <= longer;
    forall k | 0 <= k < |longer| ensures Legal(longer, k) {
      if k < |log| {
        assert Legal(log, k);
        HistoryPrefix(log, longer, k, ItemAt(log, k).itemId);
        LoggedPrefix(log, longer, k, IdAt(log, k));
      } else {
        HistoryPrefix(log, longer, k, row.mutation.item.itemId);
        LoggedPrefix(log, longer, k, row.mutation.mutationId);
      }
    }
  }

  /** Revision ids are unique: no cursor and no item repeats one. */
  lemma {:induction false} UniqueIds(log: Ledger, j: nat, k: nat)
    requires LegalLog(log) && j < |log| && k < |log|
    requires IdAt(log, j) == IdAt(log, k)
    ensures j == k
  {
    assert Legal(log, j) && Legal(log, k);
  }

  lemma {:induction false} HistoryIndex(log: Ledger, n: nat, item: Id, x: Id) returns (k: nat)
    requires n <= |log| && x in History(log, n, item)
    ensures k < n && IdAt(log, k) == x && ItemAt(log, k).itemId == item
    ensures History(log, n, item)[x] == ItemAt(log, k)
  {
    if ItemAt(log, n - 1).itemId == item && IdAt(log, n - 1) == x {
      k := n - 1;
    } else {
      k := HistoryIndex(log, n - 1, item, x);
    }
  }

  lemma {:induction false} HistoryRow(log: Ledger, n: nat, k: nat)
    requires LegalLog(log) && k < n <= |log|
    ensures IdAt(log, k) in History(log, n, ItemAt(log, k).itemId)
    ensures History(log, n, ItemAt(log, k).itemId)[IdAt(log, k)] == ItemAt(log, k)
  {
    if k < n - 1 {
      HistoryRow(log, n - 1, k);
      assert Legal(log, n - 1);
    }
  }

  /** Histories only grow. */
  lemma {:induction false} HistoryGrows(log: Ledger, m: nat, n: nat, item: Id)
    requires LegalLog(log) && m <= n <= |log|
    ensures Within(History(log, m, item), History(log, n, item))
    decreases n
  {
    if m < n {
      HistoryGrows(log, m, n - 1, item);
      var x := IdAt(log, n - 1);
      assert Legal(log, n - 1);
      FreshInHistory(log, n - 1, item, x);
    }
  }

  lemma {:induction false} ClosedAfterAdding(g: Graph, r: Revision)
    requires r.revisionId !in g && Numbered(g) && forall x :: x in g ==> ParentsIn(g, g[x].parents)
    requires ParentsIn(g, r.parents) && (r.parents != [] ==> MaxRevision(g, r.parents) < r.revision)
    ensures var h := g[r.revisionId := r];
            Numbered(h) && forall x :: x in h ==> ParentsIn(h, h[x].parents)
  {
    var h := g[r.revisionId := r];
    forall x, p | x in h && p in h[x].parents ensures p in h && h[p].revision < h[x].revision {
      if x == r.revisionId {
        assert p in g && g[p].revision <= MaxRevision(g, r.parents);
      } else {
        assert x in g && p in g && g[p].revision < g[x].revision;
      }
    }
  }

  lemma {:induction false} HistoryNames(log: Ledger, n: nat, item: Id)
    requires LegalLog(log) && n <= |log|
    ensures forall x :: x in History(log, n, item) ==>
              History(log, n, item)[x].revisionId == x && History(log, n, item)[x].itemId == item
  {
    if n > 0 {
      HistoryNames(log, n - 1, item);
      assert Legal(log, n - 1);
    }
  }

  /** Parents are always stored, and have lower numbers than their children. */
  lemma {:induction false} HistoryClosed(log: Ledger, n: nat, item: Id)
    requires LegalLog(log) && n <= |log|
    ensures forall x :: x in History(log, n, item) ==>
              ParentsIn(History(log, n, item), History(log, n, item)[x].parents)
    ensures Numbered(History(log, n, item))
    ensures forall x :: x in History(log, n, item) ==>
              History(log, n, item)[x].revisionId == x && History(log, n, item)[x].itemId == item
  {
    HistoryNames(log, n, item);
    if n > 0 {
      HistoryClosed(log, n - 1, item);
      assert Legal(log, n - 1);
      var g := History(log, n - 1, item);
      var m := log[n - 1].mutation;
      if m.item.itemId == item {
        FreshInHistory(log, n - 1, item, m.mutationId);
        ClosedAfterAdding(g, m.item);
      }
    }
  }

  lemma {:induction false} FreshInHistory(log: Ledger, n: nat, item: Id, x: Id)
    requires n <= |log| && !Logged(log, n, x)
    ensures x !in History(log, n, item)
  {
    if x in History(log, n, item) {
      var k := HistoryIndex(log, n, item, x);
    }
  }

  /** Every number is one more than the highest parent number, so the graph is
      acyclic and every stored item has a head. */
  lemma {:induction false} RevisionNumbers(log: Ledger, n: nat, item: Id)
    requires LegalLog(log) && n <= |log|
    ensures forall x :: x in History(log, n, item) ==>
              var g := History(log, n, item);
              && ParentsIn(g, g[x].parents)
              && g[x].revision == MaxRevision(g, g[x].parents) + 1
    ensures History(log, n, item) != map[] ==> HeadsAt(log, n, item) != {}
  {
    var g := History(log, n, item);
    HistoryClosed(log, n, item);
    forall x | x in g ensures g[x].revision == MaxRevision(g, g[x].parents) + 1 {
      var k := HistoryIndex(log, n, item, x);
      assert Legal(log, k);
      var before := History(log, k, item);
      HistoryGrows(log, k, n, item);
      if g[x].parents != [] {
        MaxRevisionAgrees(before, g, g[x].parents);
      }
    }
    if g != map[] { HeadExists(g); }
  }

  /** A revision number never exceeds its change cursor. */
  lemma {:induction false} NumberBound(log: Ledger, k: nat)
    requires LegalLog(log) && k < |log|
    ensures ItemAt(log, k).revision <= k + 1
    decreases k
  {
    assert Legal(log, k);
    var m := log[k].mutation;
    if m.baseRevision > 0 {
      var g := History(log, k, m.item.itemId);
      var p :| p in m.item.parents && g[p].revision == m.baseRevision;
      var j := HistoryIndex(log, k, m.item.itemId, p);
      NumberBound(log, j);
    }
  }

  // ---------------------------------------------------------------- heads

  /** The incremental head rule: drop the parents, add the new revision. */
  lemma {:induction false} HeadsStep(log: Ledger, n: nat)
    requires LegalLog(log) && n < |log|
    ensures var r := ItemAt(log, n);
            HeadsAt(log, n + 1, r.itemId) ==
              HeadsAt(log, n, r.itemId) - IdSet(r.parents) + {IdAt(log, n)}
    ensures forall item :: item != ItemAt(log, n).itemId ==>
              History(log, n + 1, item) == History(log, n, item)
  {
    var r := ItemAt(log, n);
    var g := History(log, n, r.itemId);
    assert Legal(log, n);
    HistoryClosed(log, n, r.itemId);
    FreshInHistory(log, n, r.itemId, r.revisionId);
    HeadsAfterAdding(g, r);
  }

  /** An accepted purge is the only head right after it. */
  lemma {:induction false} PurgeIsOnlyHead(log: Ledger, n: nat)
    requires LegalLog(log) && n < |log| && ItemAt(log, n).purged
    ensures HeadsAt(log, n + 1, ItemAt(log, n).itemId) == {IdAt(log, n)}
  {
    HeadsStep(log, n);
    var r := ItemAt(log, n);
    assert Legal(log, n);
    if log[n].mutation.baseRevision == 0 {
      assert History(log, n, r.itemId) == map[];
    }
  }

  /** At most one head of an item is a tombstone, in every reachable state. */
  lemma {:induction false} OneTombstoneHead(log: Ledger, n: nat, item: Id, x: Id, y: Id)
    requires LegalLog(log) && n <= |log|
    requires x in HeadsAt(log, n, item) && y in HeadsAt(log, n, item)
    requires History(log, n, item)[x].purged && History(log, n, item)[y].purged
    ensures x == y
  {
    HeadsStep(log, n - 1);
    HistoryGrows(log, n - 1, n, item);
    var r := ItemAt(log, n - 1);
    if r.itemId != item {
      OneTombstoneHead(log, n - 1, item, x, y);
    } else if r.purged {
      PurgeIsOnlyHead(log, n - 1);
    } else {
      OneTombstoneHead(log, n - 1, item, x, y);
    }
  }

  /** A live revision with a single parent never displaces a tombstone head. */
  lemma {:induction false} LiveEditKeepsTombstone(log: Ledger, n: nat, t: Id)
    requires LegalLog(log) && n < |log|
    requires !ItemAt(log, n).deleted && |ItemAt(log, n).parents| == 1
    requires t in HeadsAt(log, n, ItemAt(log, n).itemId)
    requires History(log, n, ItemAt(log, n).itemId)[t].purged
    ensures t in HeadsAt(log, n + 1, ItemAt(log, n).itemId)
  {
    HeadsStep(log, n);
    assert Legal(log, n);
  }

  // ------------------------------------------------------- the last purge

  /** Cursor of the last accepted purge of the item, 0 when there is none. */
  function LastPurge(log: Ledger, n: nat, item: Id): (c: nat)
    requires n <= |log|
    ensures c <= n
    ensures c > 0 ==> ItemAt(log, c - 1).itemId == item && ItemAt(log, c - 1).purged
    ensures forall k :: c <= k < n ==> !(ItemAt(log, k).itemId == item && ItemAt(log, k).purged)
  {
    if n == 0 then 0
    else if ItemAt(log, n - 1).itemId == item && ItemAt(log, n - 1).purged then n
    else LastPurge(log, n - 1, item)
  }

  lemma {:induction false} LastPurgePrefix(log: Ledger, longer: Ledger, n: nat, item: Id)
    requires n <= |log| && log <= longer
    ensures LastPurge(log, n, item) == LastPurge(longer, n, item)
  {
    if n > 0 {
      LastPurgePrefix(log, longer, n - 1, item);
      assert log[n - 1] == longer[n - 1];
    }
  }

  /** No head is older than the last purge of its item. */
  lemma {:induction false} HeadsSurvivePurge(log: Ledger, n: nat, k: nat)
    requires LegalLog(log) && k < n <= |log|
    requires IdAt(log, k) in HeadsAt(log, n, ItemAt(log, k).itemId)
    ensures LastPurge(log, n, ItemAt(log, k).itemId) <= k + 1
  {
    var item := ItemAt(log, k).itemId;
    HeadsStep(log, n - 1);
    if ItemAt(log, n - 1).itemId == item && ItemAt(log, n - 1).purged {
      PurgeIsOnlyHead(log, n - 1);
      UniqueIds(log, k, n - 1);
    } else if k < n - 1 {
      if ItemAt(log, n - 1).itemId == item && IdAt(log, n - 1) == IdAt(log, k) {
        UniqueIds(log, k, n - 1);
      }
      HeadsSurvivePurge(log, n - 1, k);
    }
  }

  // --------------------------------------------- snapshots and suffixes

  /** The heads at cursor c together with everything accepted after c. */
  function SnapshotAndSuffix(log: Ledger, c: nat, n: nat, item: Id): Graph
    requires c <= n <= |log|
  {
    if n == c then
      map x | x in HeadsAt(log, c, item) :: History(log, c, item)[x]
    else
      var r := ItemAt(log, n - 1);
      var before := SnapshotAndSuffix(log, c, n - 1, item);
      if r.itemId == item then before[IdAt(log, n - 1) := r] else before
  }

  /** Heads derived from a snapshot and the suffix after it are the heads of the
      full history, for every cursor the snapshot may have been taken at. */
  lemma {:induction false} SnapshotPlusSuffix(log: Ledger, c: nat, n: nat, item: Id)
    requires LegalLog(log) && c <= n <= |log|
    ensures Within(SnapshotAndSuffix(log, c, n, item), History(log, n, item))
    ensures Heads(SnapshotAndSuffix(log, c, n, item)) == HeadsAt(log, n, item)
    decreases n
  {
    var s := SnapshotAndSuffix(log, c, n, item);
    if n == c {
      forall x | x in s ensures !Referenced(s, x) {
        assert !Referenced(History(log, c, item), x);
        assert forall y :: y in s ==> y in History(log, c, item) && s[y] == History(log, c, item)[y];
      }
      assert Heads(s) == HeadsAt(log, n, item);
    } else {
      SnapshotPlusSuffix(log, c, n - 1, item);
      HeadsStep(log, n - 1);
      HistoryGrows(log, n - 1, n, item);
      var before := SnapshotAndSuffix(log, c, n - 1, item);
      var r := ItemAt(log, n - 1);
      assert Legal(log, n - 1);
      if r.itemId == item {
        HistoryClosed(log, n - 1, item);
        FreshInHistory(log, n - 1, item, r.revisionId);
        HeadsAfterAdding(before, r);
      }
    }
  }
}
