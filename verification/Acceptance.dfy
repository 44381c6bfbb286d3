/** What the server takes, read off the rows of the history without any graph. */
module Acceptance {
  import opened Revisions
  import opened RevisionLog
  import opened SyncProtocol

  /** Row k is a revision of the item. */
  predicate RowOf(log: Ledger, k: int, item: Id) {
    0 <= k < |log| && log[k].mutation.item.itemId == item
  }

  /** No revision of the item names row k as a parent. */
  ghost predicate Unnamed(log: Ledger, k: int, item: Id) {
    RowOf(log, k, item) && forall j :: RowOf(log, j, item) ==> log[k].mutation.mutationId !in log[j].mutation.item.parents
  }

  ghost predicate NamedBy(log: Ledger, k: int, m: Mutation) {
    RowOf(log, k, m.item.itemId) && log[k].mutation.mutationId in m.item.parents
  }

  /** What the guards let in, over the rows of the history. */
  ghost predicate Fits(log: Ledger, m: Mutation) {
    var item, ps := m.item.itemId, m.item.parents;
    if m.baseRevision == 0 then forall k :: 0 <= k < |log| ==> !RowOf(log, k, item) else
      && (forall p :: p in ps ==> exists k :: NamedBy(log, k, m) && log[k].mutation.mutationId == p)
      && (forall k :: NamedBy(log, k, m) ==> log[k].mutation.item.revision <= m.baseRevision)
      && (exists k :: NamedBy(log, k, m) && log[k].mutation.item.revision == m.baseRevision)
      && (m.item.purged ==> forall k :: Unnamed(log, k, item) ==> log[k].mutation.mutationId in ps)
      && (!m.item.deleted && |ps| == 1 ==> forall k :: Unnamed(log, k, item) && NamedBy(log, k, m) ==> !log[k].mutation.item.purged)
  }

  lemma {:induction false} UnnamedIsHead(log: Ledger, k: nat, item: Id)
    requires LegalLog(log) && RowOf(log, k, item)
    ensures Unnamed(log, k, item) <==> log[k].mutation.mutationId in HeadsAt(log, |log|, item)
  {
    var g, x := History(log, |log|, item), IdAt(log, k);
    HistoryRow(log, |log|, k);
    if !Unnamed(log, k, item) {
      var j :| RowOf(log, j, item) && x in log[j].mutation.item.parents;
      HistoryRow(log, |log|, j);
      assert g[IdAt(log, j)] == ItemAt(log, j);
    }
    if y :| y in g && x in g[y].parents {
      var j := HistoryIndex(log, |log|, item, y);
      assert RowOf(log, j, item);
    }
  }

  lemma {:induction false} HeadIsUnnamed(log: Ledger, item: Id, x: Id) returns (k: nat)
    requires LegalLog(log) && x in HeadsAt(log, |log|, item)
    ensures Unnamed(log, k, item) && log[k].mutation.mutationId == x && History(log, |log|, item)[x] == log[k].mutation.item
  {
    k := HistoryIndex(log, |log|, item, x);
    UnnamedIsHead(log, k, item);
  }

  lemma {:induction false} ParentsAreRows(log: Ledger, m: Mutation)
    requires LegalLog(log)
    ensures var g := History(log, |log|, m.item.itemId);
            && (ParentsIn(g, m.item.parents) <==> forall p :: p in m.item.parents ==> exists k :: NamedBy(log, k, m) && log[k].mutation.mutationId == p)
            && forall k :: NamedBy(log, k, m) ==> log[k].mutation.mutationId in g && g[log[k].mutation.mutationId] == log[k].mutation.item
  {
    var g := History(log, |log|, m.item.itemId);
    forall k | NamedBy(log, k, m) ensures log[k].mutation.mutationId in g && g[log[k].mutation.mutationId] == log[k].mutation.item {
      HistoryRow(log, |log|, k);
    }
    forall p | p in m.item.parents && p in g ensures exists k :: NamedBy(log, k, m) && log[k].mutation.mutationId == p {
      var k := HistoryIndex(log, |log|, m.item.itemId, p);
      assert NamedBy(log, k, m);
    }
  }

  lemma {:induction false} BaseIsHighest(log: Ledger, m: Mutation)
    requires LegalLog(log) && ParentsIn(History(log, |log|, m.item.itemId), m.item.parents) && m.item.parents != []
    ensures MaxRevision(History(log, |log|, m.item.itemId), m.item.parents) == m.baseRevision <==>
              && (forall k :: NamedBy(log, k, m) ==> log[k].mutation.item.revision <= m.baseRevision)
              && (exists k :: NamedBy(log, k, m) && log[k].mutation.item.revision == m.baseRevision)
  {
    ParentsAreRows(log, m);
    var g := History(log, |log|, m.item.itemId);
    var top := MaxRevision(g, m.item.parents);
    assert forall p :: p in m.item.parents ==> p in g && g[p].revision <= top;
    var p :| p in m.item.parents && g[p].revision == top;
    var k :| NamedBy(log, k, m) && log[k].mutation.mutationId == p;
  }

  lemma {:induction false} HeadGuards(log: Ledger, m: Mutation)
    requires LegalLog(log)
    ensures var g, item := History(log, |log|, m.item.itemId), m.item.itemId;
            && (CoversHeads(g, m.item.parents) <==> forall k :: Unnamed(log, k, item) ==> log[k].mutation.mutationId in m.item.parents)
            && (Resurrects(g, m.item) <==>
                  (!m.item.deleted && |m.item.parents| == 1
                   && exists k :: Unnamed(log, k, item) && NamedBy(log, k, m) && log[k].mutation.item.purged))
  {
    var g, item := History(log, |log|, m.item.itemId), m.item.itemId;
    forall k | Unnamed(log, k, item) ensures log[k].mutation.mutationId in Heads(g) && g[log[k].mutation.mutationId] == log[k].mutation.item {
      UnnamedIsHead(log, k, item);
      HistoryRow(log, |log|, k);
    }
    forall x | x in Heads(g) ensures exists k :: Unnamed(log, k, item) && log[k].mutation.mutationId == x && g[x] == log[k].mutation.item {
      var k := HeadIsUnnamed(log, item, x);
    }
  }

  lemma {:induction false} AcceptableFits(log: Ledger, m: Mutation)
    requires LegalLog(log) && ValidMutation(m)
    ensures Acceptable(History(log, |log|, m.item.itemId), m) <==> Fits(log, m)
  {
    var g, item := History(log, |log|, m.item.itemId), m.item.itemId;
    if m.baseRevision == 0 {
      forall k | 0 <= k < |log| && RowOf(log, k, item) ensures g != map[] { HistoryRow(log, |log|, k); }
      if x :| x in g {
        var k := HistoryIndex(log, |log|, item, x);
        assert RowOf(log, k, item);
      }
    } else {
      ParentsAreRows(log, m);
      HeadGuards(log, m);
      if ParentsIn(g, m.item.parents) { BaseIsHighest(log, m); }
    }
  }

  /** Equal but for the order of the parents. */
  predicate SameButOrder(a: Mutation, b: Mutation) {
    && a.(item := a.item.(parents := [])) == b.(item := b.item.(parents := []))
    && multiset(a.item.parents) == multiset(b.item.parents)
  }

  lemma {:induction false} SameContent(a: Mutation, b: Mutation)
    ensures SameMutation(a, b) <==> SameButOrder(a, b)
  {
    SortSorts(a.item.parents);
    SortSorts(b.item.parents);
    if multiset(a.item.parents) == multiset(b.item.parents) {
      SortedUnique(SortIds(a.item.parents), SortIds(b.item.parents));
      assert |multiset(a.item.parents)| == |a.item.parents|;
    }
  }

  /** The outcome of every well-formed mutation, from the rows of the history alone: a
      recorded id is acknowledged or refused by its content; of the others exactly those
      that fit and can be stored are accepted, and appended. */
  lemma {:induction false} AcceptanceIsExact(s: Server, m: Mutation, now: int)
    requires ServerOk(s) && ValidMutation(m) && |s.log| < MAX_REVISION
    ensures forall k :: 0 <= k < |s.log| && s.log[k].mutation.mutationId == m.mutationId ==>
              Accept(s, m, now) == if SameButOrder(s.log[k].mutation, m) then Ok(s) else Err(MutationIdReuse)
    ensures (forall k :: 0 <= k < |s.log| ==> s.log[k].mutation.mutationId != m.mutationId) ==>
              if !Fits(s.log, m) then Accept(s, m, now) == Err(RevisionConflict)
              else if m.item.schemaVersion > 2_147_483_647 then Accept(s, m, now) == Err(StorageFailure)
              else Accept(s, m, now).Ok? && Accept(s, m, now).value.log == s.log + [LedgerRow(m, now)]
  {
    AcceptableFits(s.log, m);
    forall k: nat | k < |s.log| && s.log[k].mutation.mutationId == m.mutationId ensures Find(s.log, m.mutationId) == Some(k) {
      assert IdAt(s.log, k) == m.mutationId;
      UniqueIds(s.log, Find(s.log, m.mutationId).value, k);
      SameContent(s.log[k].mutation, m);
    }
    match Find(s.log, m.mutationId)
    case None =>
    case Some(k) =>
      assert s.log[k].mutation.mutationId == m.mutationId;
      SameContent(s.log[k].mutation, m);
  }
}
