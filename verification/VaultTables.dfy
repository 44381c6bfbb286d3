/** The server's tables as a function of the history, and what that says about
    purged content, heads and the projection of unconflicted items. */
module VaultTables {
  import opened Revisions
  import opened RevisionLog
  import opened SyncProtocol

  datatype RevisionRow = RevisionRow(item: Revision, contentPurged: bool, tombstonedAt: Option<int>)
  datatype ChangeRow = ChangeRow(item: Revision, createdAt: int)
  datatype ItemRow = ItemRow(schemaVersion: int, revision: nat, deleted: bool, purged: bool, envelope: seq<Byte>)

  datatype Tables = Tables(
    revisions: map<Id, RevisionRow>,
    heads: map<Id, set<Id>>,
    changes: map<nat, ChangeRow>,
    cursor: nat,
    ledger: Ledger,
    items: map<Id, ItemRow>)

  function HeadRows(heads: map<Id, set<Id>>, item: Id): set<Id> {
    if item in heads then heads[item] else {}
  }

  function Project(r: Revision): ItemRow {
    ItemRow(r.schemaVersion, r.revision, r.deleted, r.purged, r.envelope)
  }

  function Scrub(row: RevisionRow): RevisionRow {
    row.(item := row.item.(envelope := []), contentPurged := true)
  }

  function FirstRow(m: Mutation, now: int): RevisionRow {
    RevisionRow(m.item, m.item.purged, if m.item.deleted then Some(now) else None)
  }

  /** Row k of the ledger as vault_revisions shows it after n mutations. */
  function RevisionRowAt(log: Ledger, n: nat, k: nat): RevisionRow
    requires k < n <= |log|
  {
    var row := FirstRow(log[k].mutation, log[k].acceptedAt);
    if k + 1 < LastPurge(log, n, ItemAt(log, k).itemId) then Scrub(row) else row
  }

  /** Cursor at which the item last had a single head, 0 for never. */
  function ProjectedAt(log: Ledger, n: nat, item: Id): (c: nat)
    requires n <= |log|
    ensures c <= n && (c > 0 ==> ItemAt(log, c - 1).itemId == item)
  {
    if n == 0 then 0
    else if ItemAt(log, n - 1).itemId == item && HeadsAt(log, n, item) == {IdAt(log, n - 1)} then n
    else ProjectedAt(log, n - 1, item)
  }

  ghost predicate RevisionsTable(revisions: map<Id, RevisionRow>, log: Ledger) {
    && (forall x :: x in revisions ==> Logged(log, |log|, x))
    && forall k :: 0 <= k < |log| ==>
         IdAt(log, k) in revisions && revisions[IdAt(log, k)] == RevisionRowAt(log, |log|, k)
  }

  ghost predicate HeadsTable(heads: map<Id, set<Id>>, log: Ledger) {
    forall item :: HeadRows(heads, item) == HeadsAt(log, |log|, item)
  }

  ghost predicate ChangesTable(changes: map<nat, ChangeRow>, log: Ledger) {
    forall c :: c in changes ==>
      && 1 <= c <= |log| && LastPurge(log, |log|, ItemAt(log, c - 1).itemId) <= c
      && changes[c] == ChangeRow(ItemAt(log, c - 1), log[c - 1].acceptedAt)
  }

  ghost predicate ItemProjected(items: map<Id, ItemRow>, log: Ledger, item: Id) {
    var c := ProjectedAt(log, |log|, item);
    && (item in items <==> c > 0)
    && (item in items ==> items[item] == Project(ItemAt(log, c - 1)))
  }

  ghost predicate ItemsTable(items: map<Id, ItemRow>, log: Ledger) {
    forall item :: ItemProjected(items, log, item)
  }

  ghost predicate Represents(t: Tables) {
    && LegalLog(t.ledger) && t.cursor == |t.ledger| <= MAX_REVISION
    && RevisionsTable(t.revisions, t.ledger)
    && HeadsTable(t.heads, t.ledger)
    && ChangesTable(t.changes, t.ledger)
    && ItemsTable(t.items, t.ledger)
  }

  // ------------------------------------------------- one accepted mutation

  /** UPDATE vault_revisions: scrub every other revision of the item. */
  function ScrubOthers(revisions: map<Id, RevisionRow>, item: Id, kept: Id): map<Id, RevisionRow> {
    map x | x in revisions ::
      if revisions[x].item.itemId == item && x != kept then Scrub(revisions[x]) else revisions[x]
  }

  /** DELETE FROM vault_changes of the item. */
  function DropChanges(changes: map<nat, ChangeRow>, item: Id): map<nat, ChangeRow> {
    map c | c in changes && changes[c].item.itemId != item :: changes[c]
  }

  function RevisionsAfter(revisions: map<Id, RevisionRow>, m: Mutation, now: int): map<Id, RevisionRow> {
    var inserted := revisions[m.mutationId := FirstRow(m, now)];
    if m.item.purged then ScrubOthers(inserted, m.item.itemId, m.mutationId) else inserted
  }

  function HeadsAfter(heads: map<Id, set<Id>>, m: Mutation): map<Id, set<Id>> {
    heads[m.item.itemId := HeadRows(heads, m.item.itemId) - IdSet(m.item.parents) + {m.mutationId}]
  }

  function ChangesAfter(changes: map<nat, ChangeRow>, c: nat, m: Mutation, now: int): map<nat, ChangeRow> {
    (if m.item.purged then DropChanges(changes, m.item.itemId) else changes)[c := ChangeRow(m.item, now)]
  }

  function ItemsAfter(items: map<Id, ItemRow>, heads: map<Id, set<Id>>, m: Mutation): map<Id, ItemRow> {
    if |HeadRows(heads, m.item.itemId)| == 1 then items[m.item.itemId := Project(m.item)] else items
  }

  function TablesAfter(t: Tables, m: Mutation, now: int): Tables {
    var heads := HeadsAfter(t.heads, m);
    Tables(RevisionsAfter(t.revisions, m, now), heads, ChangesAfter(t.changes, t.cursor + 1, m, now),
           t.cursor + 1, t.ledger + [LedgerRow(m, now)], ItemsAfter(t.items, heads, m))
  }

  lemma {:induction false} RevisionRowStep(revisions: map<Id, RevisionRow>, log: Ledger, m: Mutation, now: int, k: nat)
    requires RevisionsTable(revisions, log) && LegalLog(log + [LedgerRow(m, now)]) && k < |log|
    requires !Logged(log, |log|, m.mutationId)
    ensures var after, longer := RevisionsAfter(revisions, m, now), log + [LedgerRow(m, now)];
            IdAt(longer, k) in after && after[IdAt(longer, k)] == RevisionRowAt(longer, |longer|, k)
  {
    var longer := log + [LedgerRow(m, now)];
    assert longer[k] == log[k] && IdAt(log, k) in revisions && longer[|log|].mutation == m;
    LastPurgePrefix(log, longer, |log|, ItemAt(log, k).itemId);
    assert IdAt(log, k) != m.mutationId;
    assert revisions[IdAt(log, k)].item.itemId == ItemAt(log, k).itemId;
  }

  lemma {:induction false} RevisionsStep(revisions: map<Id, RevisionRow>, log: Ledger, m: Mutation, now: int)
    requires RevisionsTable(revisions, log) && LegalLog(log + [LedgerRow(m, now)])
    ensures RevisionsTable(RevisionsAfter(revisions, m, now), log + [LedgerRow(m, now)])
  {
    var longer := log + [LedgerRow(m, now)];
    var after := RevisionsAfter(revisions, m, now);
    assert Legal(longer, |log|);
    LoggedPrefix(log, longer, |log|, m.mutationId);
    forall x | x in after ensures Logged(longer, |longer|, x) {
      if x == m.mutationId {
        assert IdAt(longer, |log|) == x;
      } else {
        LoggedPrefix(log, longer, |log|, x);
      }
    }
    forall k | 0 <= k < |longer|
      ensures IdAt(longer, k) in after && after[IdAt(longer, k)] == RevisionRowAt(longer, |longer|, k)
    {
      if k < |log| {
        RevisionRowStep(revisions, log, m, now, k);
      }
    }
  }

  lemma {:induction false} HeadsTableStep(heads: map<Id, set<Id>>, log: Ledger, m: Mutation, now: int)
    requires HeadsTable(heads, log) && LegalLog(log + [LedgerRow(m, now)])
    ensures HeadsTable(HeadsAfter(heads, m), log + [LedgerRow(m, now)])
  {
    var longer := log + [LedgerRow(m, now)];
    HeadsStep(longer, |log|);
    var after := HeadsAfter(heads, m);
    forall item ensures HeadRows(after, item) == HeadsAt(longer, |longer|, item) {
      HistoryPrefix(log, longer, |log|, item);
      assert HeadRows(heads, item) == HeadsAt(log, |log|, item);
    }
  }

  lemma {:induction false} ChangesStep(changes: map<nat, ChangeRow>, log: Ledger, m: Mutation, now: int)
    requires ChangesTable(changes, log)
    ensures ChangesTable(ChangesAfter(changes, |log| + 1, m, now), log + [LedgerRow(m, now)])
  {
    var longer := log + [LedgerRow(m, now)];
    var after := ChangesAfter(changes, |log| + 1, m, now);
    assert ItemAt(longer, |log|) == m.item;
    forall c | c in after
      ensures 1 <= c <= |longer| && LastPurge(longer, |longer|, ItemAt(longer, c - 1).itemId) <= c
      ensures after[c] == ChangeRow(ItemAt(longer, c - 1), longer[c - 1].acceptedAt)
    {
      if c <= |log| {
        assert c in changes && longer[c - 1] == log[c - 1];
        LastPurgePrefix(log, longer, |log|, ItemAt(log, c - 1).itemId);
      }
    }
  }

  /** Exactly the new change is added, and a purge drops exactly its item's changes. */
  lemma {:induction false} ChangesKeysStep(changes: map<nat, ChangeRow>, log: Ledger, m: Mutation, now: int)
    requires ChangesTable(changes, log)
    ensures ChangesAfter(changes, |log| + 1, m, now).Keys == Append(Server(log, changes.Keys), m, now).kept
  {
    assert forall c :: c in changes ==> changes[c].item == ItemAt(log, c - 1);
  }

  lemma {:induction false} ProjectedPrefix(log: Ledger, longer: Ledger, n: nat, item: Id)
    requires n <= |log| && log <= longer
    ensures ProjectedAt(log, n, item) == ProjectedAt(longer, n, item)
  {
    if n > 0 {
      ProjectedPrefix(log, longer, n - 1, item);
      HistoryPrefix(log, longer, n, item);
      assert log[n - 1] == longer[n - 1];
    }
  }

  lemma {:induction false} ItemsStep(items: map<Id, ItemRow>, log: Ledger, m: Mutation, now: int)
    requires ItemsTable(items, log)
    ensures var longer := log + [LedgerRow(m, now)];
            ItemsTable(if HeadsAt(longer, |longer|, m.item.itemId) == {m.mutationId}
                       then items[m.item.itemId := Project(m.item)] else items, longer)
  {
    var longer := log + [LedgerRow(m, now)];
    var after := if HeadsAt(longer, |longer|, m.item.itemId) == {m.mutationId}
                 then items[m.item.itemId := Project(m.item)] else items;
    forall item ensures ItemProjected(after, longer, item) {
      ProjectedPrefix(log, longer, |log|, item);
      assert ItemProjected(items, log, item);
      assert forall c :: 0 <= c < |log| ==> ItemAt(longer, c) == ItemAt(log, c);
    }
  }

  // ------------------------------------------------------------ projection

  /** The projection is never older than the last purge of the item. */
  lemma {:induction false} ProjectionAfterPurge(log: Ledger, n: nat, item: Id)
    requires LegalLog(log) && n <= |log|
    ensures LastPurge(log, n, item) <= ProjectedAt(log, n, item)
  {
    if n > 0 {
      ProjectionAfterPurge(log, n - 1, item);
      if ItemAt(log, n - 1).itemId == item && ItemAt(log, n - 1).purged { PurgeIsOnlyHead(log, n - 1); }
    }
  }

  /** An item is projected as soon as it exists. */
  lemma {:induction false} ProjectedWhenStored(log: Ledger, n: nat, item: Id)
    requires LegalLog(log) && n <= |log|
    ensures ProjectedAt(log, n, item) > 0 <==> History(log, n, item) != map[]
  {
    if n > 0 {
      ProjectedWhenStored(log, n - 1, item);
      if ItemAt(log, n - 1).itemId == item && History(log, n - 1, item) == map[] {
        HeadsStep(log, n - 1);
        assert HeadsAt(log, n - 1, item) == {};
      }
    }
  }

  /** The projection is the single head's whenever there is just one. */
  lemma {:induction false} ProjectionFollowsHead(log: Ledger, n: nat, item: Id, x: Id)
    requires LegalLog(log) && n <= |log| && HeadsAt(log, n, item) == {x}
    ensures ProjectedAt(log, n, item) > 0 && IdAt(log, ProjectedAt(log, n, item) - 1) == x
  {
    assert n > 0 by { assert x in HeadsAt(log, n, item); }
    HeadsStep(log, n - 1);
    if ItemAt(log, n - 1).itemId == item {
      assert IdAt(log, n - 1) in {x};
    } else {
      ProjectionFollowsHead(log, n - 1, item, x);
    }
  }

  lemma {:induction false} OneElement<T>(s: set<T>, x: T)
    requires |s| == 1 && x in s
    ensures s == {x}
  {
    assert |s - {x}| == 0;
  }

  /** The projection row has the columns of the revision. */
  ghost predicate ShowsRow(row: ItemRow, r: Revision) {
    && row.schemaVersion == r.schemaVersion && row.revision == r.revision
    && row.deleted == r.deleted && row.purged == r.purged && row.envelope == r.envelope
  }

  /** When an item has exactly one head, its vault_items row is that head's revision,
      column by column; that of a lone tombstone is purged and empty. */
  lemma {:induction false} ProjectionIsTheHead(t: Tables, item: Id, x: Id)
    requires Represents(t) && HeadRows(t.heads, item) == {x}
    ensures x in t.revisions && item in t.items
    ensures var row, r := t.items[item], t.revisions[x].item;
            && row.schemaVersion == r.schemaVersion && row.revision == r.revision
            && row.deleted == r.deleted && row.purged == r.purged && row.envelope == r.envelope
            && (row.purged ==> row.deleted && row.envelope == []) && (!row.purged ==> row.envelope != [])
  {
    var log, n := t.ledger, |t.ledger|;
    assert HeadsAt(log, n, item) == {x};
    ProjectionFollowsHead(log, n, item, x);
    assert ItemProjected(t.items, log, item);
    HeadRowIsComplete(t, item, x);
    HistoryRow(log, n, ProjectedAt(log, n, item) - 1);
  }

  lemma {:induction false} StoredRow(t: Tables, y: Id) returns (k: nat)
    requires Represents(t) && y in t.revisions
    ensures k < |t.ledger| && IdAt(t.ledger, k) == y
    ensures t.revisions[y] == RevisionRowAt(t.ledger, |t.ledger|, k)
  {
    assert Logged(t.ledger, |t.ledger|, y);
    k :| 0 <= k < |t.ledger| && IdAt(t.ledger, k) == y;
  }

  lemma {:induction false} StoredHistory(t: Tables, item: Id, y: Id)
    requires Represents(t) && y in History(t.ledger, |t.ledger|, item)
    ensures y in t.revisions && t.revisions[y].item.itemId == item
    ensures t.revisions[y].item.parents == History(t.ledger, |t.ledger|, item)[y].parents
  {
    var k := HistoryIndex(t.ledger, |t.ledger|, item, y);
    assert t.revisions[y] == RevisionRowAt(t.ledger, |t.ledger|, k);
  }

  /** Children of a stored revision belong to the same item. */
  lemma {:induction false} ChildIsInHistory(t: Tables, item: Id, x: Id, y: Id)
    requires Represents(t) && x in History(t.ledger, |t.ledger|, item)
    requires y in t.revisions && x in t.revisions[y].item.parents
    ensures y in History(t.ledger, |t.ledger|, item)
  {
    var log, n := t.ledger, |t.ledger|;
    var k := StoredRow(t, y);
    HistoryRow(log, n, k);
    var other := ItemAt(log, k).itemId;
    HistoryClosed(log, n, other);
    assert x in History(log, n, other);
    var i := HistoryIndex(log, n, item, x);
    var j := HistoryIndex(log, n, other, x);
    UniqueIds(log, i, j);
  }

  /** The head table is exactly the stored revisions of the item that no stored
      revision names as a parent. */
  lemma {:induction false} HeadTableIsDerived(t: Tables, item: Id, x: Id)
    requires Represents(t)
    ensures x in HeadRows(t.heads, item) <==>
              && x in t.revisions && t.revisions[x].item.itemId == item
              && forall y :: y in t.revisions ==> x !in t.revisions[y].item.parents
  {
    var g := History(t.ledger, |t.ledger|, item);
    assert HeadRows(t.heads, item) == Heads(g);
    if x in g {
      StoredHistory(t, item, x);
      forall y | y in t.revisions && x in t.revisions[y].item.parents ensures Referenced(g, x) {
        ChildIsInHistory(t, item, x, y);
        StoredHistory(t, item, y);
      }
      forall y | y in g && x in g[y].parents ensures y in t.revisions && x in t.revisions[y].item.parents {
        StoredHistory(t, item, y);
      }
    } else if x in t.revisions {
      var k := StoredRow(t, x);
      HistoryRow(t.ledger, |t.ledger|, k);
    }
  }

  // ----------------------------------------------------- purge is permanent

  lemma {:induction false} PurgedRow(t: Tables, k: nat, j: nat)
    requires Represents(t) && j <= k < |t.ledger| && ItemAt(t.ledger, k).purged
    requires ItemAt(t.ledger, j).itemId == ItemAt(t.ledger, k).itemId
    ensures IdAt(t.ledger, j) in t.revisions
    ensures t.revisions[IdAt(t.ledger, j)].item.envelope == [] && t.revisions[IdAt(t.ledger, j)].contentPurged
  {
    assert Legal(t.ledger, j);
    assert LastPurge(t.ledger, |t.ledger|, ItemAt(t.ledger, k).itemId) >= k + 1;
    assert t.revisions[IdAt(t.ledger, j)] == RevisionRowAt(t.ledger, |t.ledger|, j);
  }

  lemma {:induction false} PurgedProjection(t: Tables, k: nat)
    requires Represents(t) && k < |t.ledger| && ItemAt(t.ledger, k).purged
    ensures ItemAt(t.ledger, k).itemId in t.items
    ensures exists j :: k <= j < |t.ledger| && ItemAt(t.ledger, j).itemId == ItemAt(t.ledger, k).itemId
                        && ShowsRow(t.items[ItemAt(t.ledger, k).itemId], ItemAt(t.ledger, j))
  {
    var item := ItemAt(t.ledger, k).itemId;
    assert LastPurge(t.ledger, |t.ledger|, item) >= k + 1;
    ProjectionAfterPurge(t.ledger, |t.ledger|, item);
    assert ItemProjected(t.items, t.ledger, item);
    var j := ProjectedAt(t.ledger, |t.ledger|, item) - 1;
    assert ShowsRow(t.items[item], ItemAt(t.ledger, j));
  }

  /** In every state whose history contains a purge (row k), nothing stored still
      holds the ciphertext of an earlier revision of that item: its revision rows
      are scrubbed, its change rows gone, and the projection comes from the purge
      or from something accepted after it. */
  lemma {:induction false} PurgeIsPermanent(t: Tables, k: nat)
    requires Represents(t) && k < |t.ledger| && ItemAt(t.ledger, k).purged
    ensures forall j :: 0 <= j <= k && ItemAt(t.ledger, j).itemId == ItemAt(t.ledger, k).itemId ==>
              && IdAt(t.ledger, j) in t.revisions
              && t.revisions[IdAt(t.ledger, j)].item.envelope == []
              && t.revisions[IdAt(t.ledger, j)].contentPurged
    ensures forall c :: c in t.changes && t.changes[c].item.itemId == ItemAt(t.ledger, k).itemId ==> k + 1 <= c
    ensures ItemAt(t.ledger, k).itemId in t.items
    ensures exists j :: k <= j < |t.ledger| && ItemAt(t.ledger, j).itemId == ItemAt(t.ledger, k).itemId
                        && ShowsRow(t.items[ItemAt(t.ledger, k).itemId], ItemAt(t.ledger, j))
  {
    var item := ItemAt(t.ledger, k).itemId;
    forall j | 0 <= j <= k && ItemAt(t.ledger, j).itemId == item
      ensures IdAt(t.ledger, j) in t.revisions
      ensures t.revisions[IdAt(t.ledger, j)].item.envelope == [] && t.revisions[IdAt(t.ledger, j)].contentPurged
    {
      PurgedRow(t, k, j);
    }
    assert LastPurge(t.ledger, |t.ledger|, item) >= k + 1;
    PurgedProjection(t, k);
  }

  /** No head ever loses its content, so every snapshot row is complete. */
  lemma {:induction false} HeadRowIsComplete(t: Tables, item: Id, x: Id)
    requires Represents(t) && x in HeadRows(t.heads, item)
    ensures x in t.revisions
    ensures x in History(t.ledger, |t.ledger|, item)
    ensures t.revisions[x].item == History(t.ledger, |t.ledger|, item)[x]
    ensures ValidContent(t.revisions[x].item)
  {
    var log, n := t.ledger, |t.ledger|;
    assert x in HeadsAt(log, n, item);
    var k := HistoryIndex(log, n, item, x);
    HeadsSurvivePurge(log, n, k);
    assert Legal(log, k);
    assert t.revisions[x] == RevisionRowAt(log, n, k);
  }

  /** A later purge of the item of row k. */
  ghost predicate ErasedLater(log: Ledger, k: nat)
    requires k < |log|
  {
    exists j {:trigger ItemAt(log, j)} :: k < j < |log| && ItemAt(log, j).purged && ItemAt(log, j).itemId == ItemAt(log, k).itemId
  }

  /** The row of every accepted revision, column by column: what was accepted, without
      its content from the next purge of the item on; a deletion has its time. */
  lemma {:induction false} RevisionRowMeaning(t: Tables, k: nat)
    requires Represents(t) && k < |t.ledger|
    ensures IdAt(t.ledger, k) in t.revisions
    ensures var row, r := t.revisions[IdAt(t.ledger, k)], t.ledger[k].mutation.item;
            && row.item == (if ErasedLater(t.ledger, k) then r.(envelope := []) else r)
            && (row.contentPurged <==> r.purged || ErasedLater(t.ledger, k))
            && row.tombstonedAt == (if r.deleted then Some(t.ledger[k].acceptedAt) else None)
  {
    var log, item := t.ledger, ItemAt(t.ledger, k).itemId;
    var c := LastPurge(log, |log|, item);
    assert t.revisions[IdAt(log, k)] == RevisionRowAt(log, |log|, k);
    if k + 1 < c { assert ItemAt(log, c - 1).purged && ItemAt(log, c - 1).itemId == item; }
  }

  /** Row j was the only head of its item when it was accepted. */
  ghost predicate WasAlone(log: Ledger, j: nat)
    requires j < |log|
  {
    Heads(History(log, j + 1, log[j].mutation.item.itemId)) == {log[j].mutation.mutationId}
  }

  lemma {:induction false} LastAlone(log: Ledger, n: nat, item: Id)
    requires n <= |log|
    ensures var c := ProjectedAt(log, n, item);
            && (c > 0 ==> WasAlone(log, c - 1))
            && forall j :: c <= j < n && ItemAt(log, j).itemId == item ==> !WasAlone(log, j)
  {
    if n > 0 { LastAlone(log, n - 1, item); }
  }

  /** While an item is in conflict its vault_items row stays that of the last revision that
      was alone when it was accepted. */
  lemma {:induction false} ProjectionWaits(t: Tables, item: Id)
    requires Represents(t) && item in t.items
    ensures exists j :: 0 <= j < |t.ledger| && ItemAt(t.ledger, j).itemId == item && WasAlone(t.ledger, j)
                        && ShowsRow(t.items[item], ItemAt(t.ledger, j))
                        && forall k :: j < k < |t.ledger| && ItemAt(t.ledger, k).itemId == item ==> !WasAlone(t.ledger, k)
  {
    assert ItemProjected(t.items, t.ledger, item);
    LastAlone(t.ledger, |t.ledger|, item);
    var j := ProjectedAt(t.ledger, |t.ledger|, item) - 1;
    assert ShowsRow(t.items[item], ItemAt(t.ledger, j));
  }
}
