/** The database of one account: tables changed step by step, each operation
    proved to make the step of the abstract protocol. */
module VaultStore {
  import opened Revisions
  import opened RevisionLog
  import opened SyncProtocol
  import opened Exchange
  import opened VaultTables

  // ----------------------------------------- counting queries as set facts

  lemma {:induction false} SubsetBySize<T>(a: set<T>, b: set<T>)
    requires a <= b
    ensures |a| == |b| <==> a == b
  {
    assert b == a + (b - a);
  }

  /** SELECT ... FROM vault_revisions WHERE item = i AND revision = ANY(parents). */
  function ParentRows(revisions: map<Id, RevisionRow>, item: Id, parents: seq<Id>): set<Id> {
    set x | x in revisions && revisions[x].item.itemId == item && x in parents
  }

  lemma {:induction false} HistoryIsStored(t: Tables, item: Id, x: Id)
    requires Represents(t)
    ensures x in t.revisions && t.revisions[x].item.itemId == item <==> x in History(t.ledger, |t.ledger|, item)
    ensures x in History(t.ledger, |t.ledger|, item) ==>
              History(t.ledger, |t.ledger|, item)[x].revision == t.revisions[x].item.revision
  {
    if x in t.revisions {
      var k := StoredRow(t, x);
      HistoryRow(t.ledger, |t.ledger|, k);
    }
    if x in History(t.ledger, |t.ledger|, item) { StoredHistory(t, item, x); }
  }

  lemma {:induction false} ParentRowsAreHistory(t: Tables, item: Id, parents: seq<Id>)
    requires Represents(t) && Distinct(parents)
    ensures var found := ParentRows(t.revisions, item, parents);
            var g := History(t.ledger, |t.ledger|, item);
            && (|found| == |parents| <==> ParentsIn(g, parents))
            && (|found| == |parents| ==> forall p :: p in parents ==> p in found)
            && forall x :: x in found ==> x in parents && x in g && g[x].revision == t.revisions[x].item.revision
  {
    var found := ParentRows(t.revisions, item, parents);
    var all := IdSet(parents);
    forall x ensures x in found <==> x in parents && x in History(t.ledger, |t.ledger|, item) {
      HistoryIsStored(t, item, x);
    }
    forall x | x in found ensures History(t.ledger, |t.ledger|, item)[x].revision == t.revisions[x].item.revision {
      HistoryIsStored(t, item, x);
    }
    DistinctSize(parents);
    SubsetBySize(found, all);
    assert found == all <==> forall p :: p in all ==> p in found;
    assert forall p :: p in parents ==> p in all;
    assert found == all <==> ParentsIn(History(t.ledger, |t.ledger|, item), parents);
  }

  /** The single-parent tombstone count against the resurrection guard. */
  lemma {:induction false} TombstoneCount(g: Graph, r: Revision, tombstones: set<Id>)
    requires |r.parents| == 1
    requires forall x :: x in tombstones <==> x in Heads(g) && x in r.parents && g[x].purged
    ensures |tombstones| == 1 <==> r.parents[0] in Heads(g) && g[r.parents[0]].purged
  {
    var p := r.parents[0];
    assert forall x :: x in r.parents <==> x == p;
    if p in tombstones {
      assert tombstones == {p};
    } else {
      assert tombstones == {};
    }
  }

  /** The head counts of a mutation against the guards over the graph. */
  lemma {:induction false} HeadCounts(t: Tables, r: Revision, heads: set<Id>, parentHeads: set<Id>, tombstones: set<Id>)
    requires Represents(t)
    requires heads == HeadRows(t.heads, r.itemId)
    requires parentHeads == set x | x in heads && x in r.parents
    ensures forall x :: x in parentHeads ==> x in t.revisions
    ensures |parentHeads| == |heads| <==> CoversHeads(History(t.ledger, |t.ledger|, r.itemId), r.parents)
    ensures tombstones == (set x | x in parentHeads && t.revisions[x].item.purged) ==>
              (!r.deleted && |r.parents| == 1 && |tombstones| == 1 <==> Resurrects(History(t.ledger, |t.ledger|, r.itemId), r))
  {
    var g := History(t.ledger, |t.ledger|, r.itemId);
    assert heads == Heads(g);
    SubsetBySize(parentHeads, heads);
    assert parentHeads == heads <==> CoversHeads(g, r.parents);
    forall x | x in parentHeads ensures x in t.revisions && t.revisions[x].item == g[x] {
      HeadRowIsComplete(t, r.itemId, x);
    }
    if |r.parents| == 1 && tombstones == set x | x in parentHeads && t.revisions[x].item.purged {
      TombstoneCount(g, r, tombstones);
    }
  }

  /** COALESCE(max(revision), 0) over the given rows. */
  method HighestStored(revisions: map<Id, RevisionRow>, rows: set<Id>) returns (m: nat)
    requires rows <= revisions.Keys
    ensures forall x :: x in rows ==> revisions[x].item.revision <= m
    ensures m == 0 || exists x :: x in rows && revisions[x].item.revision == m
  {
    m := 0;
    var rest := rows;
    while rest != {}
      invariant rest <= rows
      invariant forall x :: x in rows - rest ==> revisions[x].item.revision <= m
      invariant m == 0 || exists x :: x in rows && revisions[x].item.revision == m
      decreases |rest|
    {
      var x :| x in rest;
      if m < revisions[x].item.revision { m := revisions[x].item.revision; }
      rest := rest - {x};
    }
  }

  lemma {:induction false} ItemIsStored(t: Tables, item: Id)
    requires Represents(t)
    ensures (exists x :: x in t.revisions && t.revisions[x].item.itemId == item) || item in t.items
            <==> History(t.ledger, |t.ledger|, item) != map[]
  {
    var g := History(t.ledger, |t.ledger|, item);
    assert ItemProjected(t.items, t.ledger, item);
    ProjectedWhenStored(t.ledger, |t.ledger|, item);
    if x :| x in t.revisions && t.revisions[x].item.itemId == item {
      var k := StoredRow(t, x);
      HistoryRow(t.ledger, |t.ledger|, k);
    }
  }

  /** The item graph after the insert has a single head exactly when the table says so. */
  lemma {:induction false} SingleHeadTest(t: Tables, heads: map<Id, set<Id>>, m: Mutation, now: int)
    requires LegalLog(t.ledger + [LedgerRow(m, now)]) && HeadsTable(heads, t.ledger + [LedgerRow(m, now)])
    ensures |HeadRows(heads, m.item.itemId)| == 1 <==>
            HeadsAt(t.ledger + [LedgerRow(m, now)], |t.ledger| + 1, m.item.itemId) == {m.mutationId}
  {
    var longer := t.ledger + [LedgerRow(m, now)];
    HeadsStep(longer, |t.ledger|);
    var hs := HeadRows(heads, m.item.itemId);
    assert hs == HeadsAt(longer, |longer|, m.item.itemId);
    assert m.mutationId in hs;
    if |hs| == 1 { OneElement(hs, m.mutationId); }
  }

  /** Inserting an acceptable mutation into tables that represent the history
      gives tables that represent the longer history. */
  lemma {:induction false} InsertKeepsTables(t: Tables, m: Mutation, now: int)
    requires Represents(t) && |t.ledger| < MAX_REVISION
    requires LegalLog(t.ledger + [LedgerRow(m, now)])
    ensures var u := TablesAfter(t, m, now);
            Represents(u) && Server(u.ledger, u.changes.Keys) == Append(Server(t.ledger, t.changes.Keys), m, now)
  {
    var u := TablesAfter(t, m, now);
    RevisionsStep(t.revisions, t.ledger, m, now);
    HeadsTableStep(t.heads, t.ledger, m, now);
    ChangesStep(t.changes, t.ledger, m, now);
    ChangesKeysStep(t.changes, t.ledger, m, now);
    SingleHeadTest(t, u.heads, m, now);
    ItemsStep(t.items, t.ledger, m, now);
  }

  // -------------------------------------------------------- reads of Sync

  /** count(*) over a cursor range is the range's length exactly when no cursor is missing. */
  lemma {:induction false} IntervalCount(keys: set<nat>, lo: nat, hi: nat)
    requires lo <= hi
    ensures var found := set c | c in keys && lo < c <= hi;
            |found| <= hi - lo && (|found| == hi - lo <==> forall c :: lo < c <= hi ==> c in keys)
    decreases hi
  {
    var found := set c | c in keys && lo < c <= hi;
    if lo == hi {
      assert found == {};
    } else {
      IntervalCount(keys, lo, hi - 1);
      var before := set c | c in keys && lo < c <= hi - 1;
      if hi in keys {
        assert found == before + {hi};
      } else {
        assert found == before;
      }
    }
  }

  /** What the expired-trash query sees of a lone head. */
  lemma {:induction false} LoneHeadRow(t: Tables, item: Id, x: Id, now: int) returns (k: nat)
    requires Represents(t) && HeadRows(t.heads, item) == {x}
    ensures x in t.revisions && k < |t.ledger| && IdAt(t.ledger, k) == x
    ensures t.revisions[x].item == ItemAt(t.ledger, k) && ItemAt(t.ledger, k).itemId == item
    ensures ExpiredRow(t.ledger, now, k) <==>
              Trashed(t.revisions[x].item) && t.revisions[x].tombstonedAt.Some? && t.revisions[x].tombstonedAt.value <= now - RETENTION
  {
    assert HeadsAt(t.ledger, |t.ledger|, item) == {x};
    assert x in HeadRows(t.heads, item);
    HeadRowIsComplete(t, item, x);
    k := HistoryIndex(t.ledger, |t.ledger|, item, x);
    assert t.revisions[x] == RevisionRowAt(t.ledger, |t.ledger|, k);
  }

  lemma {:induction false} ExpiredRowIsListed(t: Tables, now: int, k: nat)
    requires Represents(t) && k < |t.ledger| && ExpiredRow(t.ledger, now, k)
    ensures ItemAt(t.ledger, k).itemId in t.heads
    ensures t.heads[ItemAt(t.ledger, k).itemId] == {IdAt(t.ledger, k)}
  {
    assert HeadRows(t.heads, ItemAt(t.ledger, k).itemId) == {IdAt(t.ledger, k)};
    assert IdAt(t.ledger, k) in HeadRows(t.heads, ItemAt(t.ledger, k).itemId);
  }

  /** rows are the expired rows of the items already looked at. */
  ghost predicate Selected(log: Ledger, now: int, done: set<Id>, rows: seq<nat>) {
    && Distinct(rows)
    && forall k: nat :: k in rows <==> k < |log| && ExpiredRow(log, now, k) && ItemAt(log, k).itemId in done
  }

  ghost predicate Listed(log: Ledger, rows: seq<nat>, expired: seq<Revision>) {
    |expired| == |rows| && forall j :: 0 <= j < |rows| ==> rows[j] < |log| && expired[j] == ItemAt(log, rows[j])
  }

  /** In the order of their items, all of which are among those given. */
  ghost predicate ByItem(expired: seq<Revision>, items: set<Id>) {
    && (forall j :: 0 <= j < |expired| ==> expired[j].itemId in items)
    && (forall i, j :: 0 <= i < j < |expired| ==> expired[i].itemId < expired[j].itemId)
  }

  lemma {:induction false} ByItemNext(expired: seq<Revision>, items: set<Id>, item: Id, found: Option<Revision>)
    requires ByItem(expired, items) && (forall x :: x in items ==> x < item) && (found.Some? ==> found.value.itemId == item)
    ensures ByItem(if found.Some? then expired + [found.value] else expired, items + {item})
  {
  }

  lemma {:induction false} ListedPlus(log: Ledger, rows: seq<nat>, expired: seq<Revision>, k: nat)
    requires Listed(log, rows, expired) && k < |log|
    ensures Listed(log, rows + [k], expired + [ItemAt(log, k)])
  {
  }

  lemma {:induction false} SelectOne(log: Ledger, now: int, done: set<Id>, item: Id, k: nat, rows: seq<nat>)
    requires k < |log| && ItemAt(log, k).itemId == item
    requires item !in done && Selected(log, now, done, rows)
    requires forall j: nat :: j < |log| && ExpiredRow(log, now, j) && ItemAt(log, j).itemId == item ==> j == k
    ensures Selected(log, now, done + {item}, if ExpiredRow(log, now, k) then rows + [k] else rows)
  {
    assert k !in rows;
  }

  lemma {:induction false} SelectLone(t: Tables, now: int, done: set<Id>, item: Id, x: Id, k: nat, rows: seq<nat>)
    requires Represents(t) && HeadRows(t.heads, item) == {x}
    requires k < |t.ledger| && IdAt(t.ledger, k) == x && ItemAt(t.ledger, k).itemId == item
    requires item !in done && Selected(t.ledger, now, done, rows)
    ensures Selected(t.ledger, now, done + {item}, if ExpiredRow(t.ledger, now, k) then rows + [k] else rows)
  {
    forall j: nat | j < |t.ledger| && ExpiredRow(t.ledger, now, j) && ItemAt(t.ledger, j).itemId == item ensures j == k {
      ExpiredRowIsListed(t, now, j);
      assert IdAt(t.ledger, j) in {x};
      UniqueIds(t.ledger, j, k);
    }
    SelectOne(t.ledger, now, done, item, k, rows);
  }

  lemma {:induction false} SelectNone(t: Tables, now: int, done: set<Id>, item: Id, rows: seq<nat>)
    requires Represents(t) && item in t.heads && |t.heads[item]| != 1
    requires Selected(t.ledger, now, done, rows)
    ensures Selected(t.ledger, now, done + {item}, rows)
  {
    forall j: nat | j < |t.ledger| && ItemAt(t.ledger, j).itemId == item ensures !ExpiredRow(t.ledger, now, j) {
      if ExpiredRow(t.ledger, now, j) { ExpiredRowIsListed(t, now, j); }
    }
  }

  /** Every expired row is the head of a listed item, so none is overlooked. */
  lemma {:induction false} SelectedIsAll(t: Tables, now: int, done: set<Id>, rows: seq<nat>)
    requires Represents(t) && done == t.heads.Keys && Selected(t.ledger, now, done, rows)
    ensures Enumerates(rows, ExpiredRows(t.ledger, now))
  {
    forall k: nat | k < |t.ledger| && ExpiredRow(t.ledger, now, k) ensures ItemAt(t.ledger, k).itemId in done {
      ExpiredRowIsListed(t, now, k);
    }
  }

  /** At the highest revision number the cursor space is used up as well. */
  lemma {:induction false} FullLogRefuses(s: Server, k: nat, m: Mutation, now: int)
    requires ServerOk(s) && k < |s.log| && ItemAt(s.log, k).revision >= MAX_REVISION
    requires !Logged(s.log, |s.log|, m.mutationId)
    ensures Accept(s, m, now).Err?
  {
    NumberBound(s.log, k);
    assert Find(s.log, m.mutationId).None?;
  }

  lemma {:induction false} TombstoneIsValid(log: Ledger, k: nat, id: Id)
    requires LegalLog(log) && k < |log| && ItemAt(log, k).revision < MAX_REVISION && id != NO_ID
    ensures ValidMutation(Tombstone(ItemAt(log, k), id)) && Storable(Tombstone(ItemAt(log, k), id))
  {
    assert Legal(log, k);
    var r := ItemAt(log, k);
    assert Tombstone(r, id).item.parents == [r.revisionId];
  }

  /** The head rows of some of the items. */
  function HeadIds(heads: map<Id, set<Id>>, items: set<Id>): set<Id> {
    set item, x | item in items && item in heads && x in heads[item] :: x
  }

  lemma {:induction false} HeadsAreStored(t: Tables, item: Id)
    requires Represents(t) && item in t.heads
    ensures StoredHeads(t.revisions, item, t.heads[item])
  {
    forall x | x in t.heads[item] ensures x in t.revisions && t.revisions[x].item.revisionId == x && t.revisions[x].item.itemId == item {
      assert x in HeadRows(t.heads, item);
      HeadRowIsComplete(t, item, x);
      HistoryClosed(t.ledger, |t.ledger|, item);
    }
  }

  ghost predicate StoredHeads(revisions: map<Id, RevisionRow>, item: Id, ids: set<Id>) {
    forall x :: x in ids ==> x in revisions && revisions[x].item.revisionId == x && revisions[x].item.itemId == item
  }

  /** rows are the stored revisions all, each once, by item and revision. */
  ghost predicate Collected(revisions: map<Id, RevisionRow>, all: set<Id>, rows: seq<Revision>) {
    && (forall j :: 0 <= j < |rows| ==> rows[j].revisionId in all && rows[j].revisionId in revisions
                                        && rows[j] == revisions[rows[j].revisionId].item)
    && (forall x :: x in all ==> x in revisions && revisions[x].item in rows)
    && InOrder(rows)
  }

  /** The head rows of one item, by revision. */
  method CollectHeads(revisions: map<Id, RevisionRow>, item: Id, heads: set<Id>) returns (rows: seq<Revision>)
    requires StoredHeads(revisions, item, heads)
    ensures Collected(revisions, heads, rows)
    ensures forall j :: 0 <= j < |rows| ==> rows[j].itemId == item
  {
    var ids := Ordered(heads);
    rows := [];
    for j := 0 to |ids|
      invariant |rows| == j && forall i :: 0 <= i < j ==> ids[i] in revisions && rows[i] == revisions[ids[i]].item
    {
      assert ids[j] in heads;
      rows := rows + [revisions[ids[j]].item];
    }
    forall j | 0 <= j < |rows| ensures rows[j].revisionId == ids[j] && ids[j] in heads && rows[j].itemId == item { assert ids[j] in heads; }
    forall x | x in heads ensures revisions[x].item in rows {
      var i :| 0 <= i < |ids| && ids[i] == x;
      assert rows[i] == revisions[x].item;
    }
  }

  ghost predicate CollectedUpTo(revisions: map<Id, RevisionRow>, heads: map<Id, set<Id>>, done: set<Id>, rows: seq<Revision>) {
    Collected(revisions, HeadIds(heads, done), rows) && forall j :: 0 <= j < |rows| ==> rows[j].itemId in done
  }

  lemma {:induction false} CollectedNext(revisions: map<Id, RevisionRow>, heads: map<Id, set<Id>>, done: set<Id>, item: Id,
                                         rows: seq<Revision>, more: seq<Revision>)
    requires CollectedUpTo(revisions, heads, done, rows) && item in heads && Collected(revisions, heads[item], more)
    requires forall x :: x in done ==> x < item
    requires forall j :: 0 <= j < |more| ==> more[j].itemId == item
    ensures CollectedUpTo(revisions, heads, done + {item}, rows + more)
  {
    assert HeadIds(heads, done + {item}) == HeadIds(heads, done) + heads[item];
  }

  method CollectAll(revisions: map<Id, RevisionRow>, heads: map<Id, set<Id>>) returns (rows: seq<Revision>)
    requires forall item :: item in heads ==> StoredHeads(revisions, item, heads[item])
    ensures Collected(revisions, HeadIds(heads, heads.Keys), rows)
  {
    var items := Ordered(heads.Keys);
    rows := [];
    for i := 0 to |items|
      invariant CollectedUpTo(revisions, heads, IdSet(items[..i]), rows)
    {
      NextInOrder(items, i);
      assert items[i] in heads;
      var more := CollectHeads(revisions, items[i], heads[items[i]]);
      CollectedNext(revisions, heads, IdSet(items[..i]), items[i], rows, more);
      rows := rows + more;
    }
    assert items[..|items|] == items && IdSet(items) == heads.Keys;
  }

  lemma {:induction false} CollectedIsSnapshot(t: Tables, rows: seq<Revision>)
    requires Represents(t) && Collected(t.revisions, HeadIds(t.heads, t.heads.Keys), rows)
    ensures SnapshotOf(t.ledger, |t.ledger|, rows)
  {
    var log, n := t.ledger, |t.ledger|;
    forall j | 0 <= j < |rows| ensures HeadRow(log, n, rows[j]) {
      var x := rows[j].revisionId;
      var item :| item in t.heads && x in t.heads[item];
      assert x in HeadRows(t.heads, item);
      HeadRowIsComplete(t, item, x);
      HistoryClosed(log, n, item);
    }
    forall item, x ensures HeadListed(log, n, rows, item, x) {
      if x in HeadsAt(log, n, item) {
        assert x in HeadRows(t.heads, item);
        HeadRowIsComplete(t, item, x);
        assert x in HeadIds(t.heads, t.heads.Keys);
      }
    }
    forall i, j | 0 <= i < j < |rows| ensures rows[i].revisionId != rows[j].revisionId {
      assert RowBefore(rows[i], rows[j]);
    }
  }

  lemma {:induction false} NextInSuffix<T>(s: seq<T>, j: nat)
    requires j < |s|
    ensures s[j..] != [] && s[j..][0] == s[j] && s[j] in s[j..] && s[j..][1..] == s[j + 1..]
  {
    assert s[j..][0] == s[j];
  }

  lemma {:induction false} RowsFit(log: Ledger, now: int, rows: seq<nat>, ids: seq<Id>)
    requires Enumerates(rows, ExpiredRows(log, now)) && |ExpiredRows(log, now)| <= |ids|
    ensures |rows| <= |ids| && forall k :: k in rows ==> k < |log|
  {
    DistinctSize(rows);
    assert IdSet(rows) == ExpiredRows(log, now);
    assert forall k :: k in rows ==> k in ExpiredRows(log, now);
  }

  /** The ids left over after one more tombstone are still fresh. */
  lemma {:induction false} AcceptedTombstone(s: Server, m: Mutation, now: int, ids: seq<Id>)
    requires ids != [] && m.mutationId == ids[0] && FreshIds(s.log, ids)
    ensures Accept(s, m, now).Ok? ==>
              s.log <= Accept(s, m, now).value.log && FreshIds(Accept(s, m, now).value.log, ids[1..])
  {
    assert ids[0] in ids;
    if Accept(s, m, now).Ok? {
      FreshTail(s.log, LedgerRow(m, now), ids);
    }
  }

  class DBStore {
    var revisions: map<Id, RevisionRow>
    var heads: map<Id, set<Id>>
    var changes: map<nat, ChangeRow>
    var cursor: nat
    var ledger: Ledger
    var items: map<Id, ItemRow>

    function Tables(): Tables
      reads this
    {
      VaultTables.Tables(revisions, heads, changes, cursor, ledger, items)
    }

    ghost predicate Valid()
      reads this
    {
      Represents(Tables())
    }

    /** The abstract state the protocol is stated on. */
    ghost function State(): Server
      reads this
    {
      Server(ledger, changes.Keys)
    }

    constructor ()
      ensures Valid() && State() == Server([], {})
    {
      revisions, heads, changes, cursor, ledger, items := map[], map[], map[], 0, [], map[];
    }

    /** Parent count and highest parent number, against the declared base. */
    method CheckParentRows(m: Mutation) returns (ok: bool)
      requires Valid() && Distinct(m.item.parents)
      ensures ok <==>
                && ParentsIn(Current(State(), m.item.itemId), m.item.parents)
                && MaxRevision(Current(State(), m.item.itemId), m.item.parents) == m.baseRevision
    {
      var found := ParentRows(revisions, m.item.itemId, m.item.parents);
      var highest := HighestStored(revisions, found);
      ParentRowsAreHistory(Tables(), m.item.itemId, m.item.parents);
      ok := |found| == |m.item.parents| && highest == m.baseRevision;
    }

    /** Head count, parent head count and purged parent head count. */
    method CheckHeadRows(m: Mutation) returns (ok: bool)
      requires Valid()
      ensures ok <==>
                && (m.item.purged ==> CoversHeads(Current(State(), m.item.itemId), m.item.parents))
                && !Resurrects(Current(State(), m.item.itemId), m.item)
    {
      var all := HeadRows(heads, m.item.itemId);
      var parentHeads := set x | x in all && x in m.item.parents;
      HeadCounts(Tables(), m.item, all, parentHeads, {});
      var tombstones := set x | x in parentHeads && revisions[x].item.purged;
      HeadCounts(Tables(), m.item, all, parentHeads, tombstones);
      if m.item.purged && |parentHeads| != |all| {
        return false;
      }
      ok := !(!m.item.deleted && |m.item.parents| == 1 && |tombstones| == 1);
    }

    /** The guards, as the counting queries decide them. */
    method CheckGuards(m: Mutation) returns (ok: bool)
      requires Valid() && ValidMutation(m)
      ensures ok <==> Acceptable(Current(State(), m.item.itemId), m)
    {
      if m.baseRevision == 0 {
        ItemIsStored(Tables(), m.item.itemId);
        ok := !((exists x :: x in revisions && revisions[x].item.itemId == m.item.itemId) || m.item.itemId in items);
      } else {
        ok := CheckParentRows(m);
        if ok { ok := CheckHeadRows(m); }
      }
    }

    /** The new revision takes the place of its parents among the heads. */
    method ReplaceHeads(m: Mutation)
      modifies this`heads
      ensures heads == HeadsAfter(old(heads), m)
    {
      var item := m.item.itemId;
      heads := heads[item := HeadRows(heads, item) - IdSet(m.item.parents)];
      heads := heads[item := heads[item] + {m.mutationId}];
    }

    /** A purge scrubs the other revisions of the item and drops its changes. */
    method EraseEarlier(m: Mutation)
      modifies this`revisions, this`changes
      ensures revisions == if m.item.purged then ScrubOthers(old(revisions), m.item.itemId, m.mutationId) else old(revisions)
      ensures changes == if m.item.purged then DropChanges(old(changes), m.item.itemId) else old(changes)
    {
      if m.item.purged {
        revisions := ScrubOthers(revisions, m.item.itemId, m.mutationId);
        changes := DropChanges(changes, m.item.itemId);
      }
    }

    /** The inserts, deletes and updates of one accepted mutation. */
    method Record(m: Mutation, now: int)
      modifies this
      ensures Tables() == TablesAfter(old(Tables()), m, now)
    {
      revisions := revisions[m.mutationId := FirstRow(m, now)];
      ReplaceHeads(m);
      EraseEarlier(m);
      if |HeadRows(heads, m.item.itemId)| == 1 {
        items := items[m.item.itemId := Project(m.item)];
      }
      cursor := cursor + 1;
      changes := changes[cursor := ChangeRow(m.item, now)];
      ledger := ledger + [LedgerRow(m, now)];
    }

    /** Applies one mutation: idempotent by the ledger, refused by the guards, or
        recorded in every table under the next change cursor. */
    method ApplyVaultMutation(m: Mutation, now: int) returns (r: Result<bool, SyncError>)
      requires Valid() && ValidMutation(m)
      modifies this
      ensures Valid()
      ensures match Accept(old(State()), m, now)
              case Ok(t) => r == Ok(true) && State() == t
              case Err(e) => r == Err(e) && Tables() == old(Tables())
    {
      match Find(ledger, m.mutationId) {
        case Some(k) =>
          return if SameMutation(ledger[k].mutation, m) then Ok(true) else Err(MutationIdReuse);
        case None =>
      }
      var ok := CheckGuards(m);
      if !ok { return Err(RevisionConflict); }
      if m.item.schemaVersion > MAX_INTEGER { return Err(StorageFailure); }
      if cursor == MAX_REVISION { return Err(CursorOverflow); }
      // The insert cannot collide: revision ids are exactly the ids of the ledger.
      assert m.mutationId !in revisions;
      AppendLegal(ledger, LedgerRow(m, now));
      InsertKeepsTables(Tables(), m, now);
      Record(m, now);
      r := Ok(true);
    }

    // --------------------------------------------------------- one request

    /** DELETE FROM vault_changes WHERE created_at < now - 30 days. */
    method PruneChanges(now: int)
      requires Valid()
      modifies this
      ensures Valid() && State() == Prune(old(State()), now)
      ensures forall c :: c in changes <==> c in old(changes) && old(changes)[c].createdAt >= now - 30 * 24 * 60 * 60 * 1_000_000_000
      ensures forall c :: c in changes ==> changes[c] == old(changes)[c]
      ensures ledger == old(ledger)
    {
      changes := map c | c in changes && changes[c].createdAt >= now - RETENTION :: changes[c];
    }

    /** The item's head when it is alone and expired trash. */
    method ExpiredHead(item: Id, now: int, ghost done: set<Id>, ghost rows: seq<nat>)
      returns (expired: Option<Revision>, ghost k: nat)
      requires Valid() && item in heads && item !in done && Selected(ledger, now, done, rows)
      ensures expired.None? ==> Selected(ledger, now, done + {item}, rows)
      ensures expired.Some? ==> Selected(ledger, now, done + {item}, rows + [k])
      ensures expired.Some? ==> k < |ledger| && expired.value == ItemAt(ledger, k) && expired.value.itemId == item
    {
      expired, k := None, 0;
      if |heads[item]| == 1 {
        var x :| x in heads[item];
        OneElement(heads[item], x);
        k := LoneHeadRow(Tables(), item, x, now);
        SelectLone(Tables(), now, done, item, x, k, rows);
        var row := revisions[x];
        if Trashed(row.item) && row.tombstonedAt.Some? && row.tombstonedAt.value <= now - RETENTION {
          expired := Some(row.item);
        }
      } else {
        SelectNone(Tables(), now, done, item, rows);
      }
    }

    /** The lone heads that are expired trash, by item, with their ledger positions. */
    method SelectExpired(now: int) returns (expired: seq<Revision>, ghost rows: seq<nat>)
      requires Valid()
      ensures |expired| == |rows| && Enumerates(rows, ExpiredRows(ledger, now))
      ensures forall j :: 0 <= j < |rows| ==> rows[j] < |ledger| && expired[j] == ItemAt(ledger, rows[j])
      ensures forall i, j :: 0 <= i < j < |expired| ==> expired[i].itemId < expired[j].itemId
    {
      expired, rows := [], [];
      var items := Ordered(heads.Keys);
      for i := 0 to |items|
        invariant Listed(ledger, rows, expired) && ByItem(expired, IdSet(items[..i]))
        invariant Selected(ledger, now, IdSet(items[..i]), rows)
      {
        NextInOrder(items, i);
        var found;
        ghost var k;
        found, k := ExpiredHead(items[i], now, IdSet(items[..i]), rows);
        ByItemNext(expired, IdSet(items[..i]), items[i], found);
        if found.Some? {
          ListedPlus(ledger, rows, expired, k);
          expired := expired + [found.value];
          rows := rows + [k];
        }
      }
      assert items[..|items|] == items && IdSet(items) == heads.Keys;
      SelectedIsAll(Tables(), now, heads.Keys, rows);
    }

    /** Purges one expired item; its number cannot grow past the maximum. */
    method PurgeOne(row: Revision, ghost k: nat, now: int, id: Id) returns (r: Result<bool, SyncError>)
      requires Valid() && k < |ledger| && row == ItemAt(ledger, k)
      requires id != NO_ID && !Logged(ledger, |ledger|, id)
      modifies this
      ensures Valid()
      ensures match Accept(old(State()), Tombstone(row, id), now)
              case Ok(t) => r.Ok? && State() == t
              case Err(_) => r.Err? && SweepError(r.error)
    {
      var m := Tombstone(row, id);
      if row.revision >= MAX_REVISION {
        FullLogRefuses(State(), k, m, now);
        return Err(RevisionConflict);
      }
      TombstoneIsValid(ledger, k, id);
      r := ApplyVaultMutation(m, now);
    }

    /** Purges every expired item with a fresh tombstone id each. */
    method PurgeExpiredVaultItems(now: int, ids: seq<Id>) returns (r: Result<bool, SyncError>, ghost rows: seq<nat>)
      requires Valid() && FreshIds(ledger, ids) && |ExpiredRows(ledger, now)| <= |ids|
      modifies this
      ensures Valid()
      ensures Enumerates(rows, ExpiredRows(old(ledger), now)) && |rows| <= |ids|
      ensures forall k :: k in rows ==> k < |old(ledger)|
      ensures match AcceptAll(old(State()), Tombstones(old(ledger), rows, ids[..|rows|]), now)
              case Ok(t) => r.Ok? && State() == t
              case Err(_) => r.Err? && SweepError(r.error)
    {
      var expired;
      expired, rows := SelectExpired(now);
      ghost var start := ledger;
      RowsFit(start, now, rows, ids);
      ghost var ts := Tombstones(start, rows, ids[..|rows|]);
      for j := 0 to |expired|
        invariant Valid() && start <= ledger && |expired| == |rows| == |ts|
        invariant FreshIds(ledger, ids[j..])
        invariant AcceptAll(old(State()), ts, now) == AcceptAll(State(), ts[j..], now)
      {
        assert ts[j] == Tombstone(expired[j], ids[j]);
        NextInSuffix(ts, j);
        NextInSuffix(ids, j);
        AcceptedTombstone(State(), ts[j], now, ids[j..]);
        r := PurgeOne(expired[j], rows[j], now, ids[j]);
        if r.Err? { return r, rows; }
      }
      r := Ok(true);
    }

    /** Applies the batch in order, stopping at the first refusal. */
    method ApplyBatch(ms: seq<Mutation>, now: int) returns (r: Result<seq<Id>, SyncError>)
      requires Valid() && AllValid(ms)
      modifies this
      ensures Valid()
      ensures match AcceptAll(old(State()), ms, now)
              case Ok(t) => r == Ok(Ids(ms)) && State() == t
              case Err(e) => r == Err(e)
    {
      var applied := [];
      for j := 0 to |ms|
        invariant Valid() && applied == Ids(ms[..j])
        invariant AcceptAll(old(State()), ms, now) == AcceptAll(State(), ms[j..], now)
      {
        assert ms[j..][0] == ms[j] && ms[j..][1..] == ms[j + 1..] && ms[j] in ms;
        assert ms[..j + 1][..j] == ms[..j];
        var one := ApplyVaultMutation(ms[j], now);
        if one.Err? { return Err(one.error); }
        applied := applied + [ms[j].mutationId];
      }
      assert ms[..|ms|] == ms;
      r := Ok(applied);
    }

    /** All current heads, read through the head table, by item and revision. */
    method AppendVaultSnapshot() returns (rows: seq<Revision>)
      requires Valid()
      ensures SnapshotOf(ledger, |ledger|, rows) && InOrder(rows)
      ensures forall i, j :: 0 <= i < j < |rows| ==>
                rows[i].itemId < rows[j].itemId || (rows[i].itemId == rows[j].itemId && rows[i].revisionId < rows[j].revisionId)
    {
      forall item | item in heads ensures StoredHeads(revisions, item, heads[item]) { HeadsAreStored(Tables(), item); }
      rows := CollectAll(revisions, heads);
      CollectedIsSnapshot(Tables(), rows);
    }

    /** The reply to a processed batch: incremental when no change is missing. */
    method ReadReply(input: nat, ghost ms: seq<Mutation>, applied: seq<Id>) returns (r: Reply)
      requires Valid() && input <= cursor && applied == Ids(ms)
      ensures ReplyFor(State(), input, ms, r)
    {
      var retained := set c | c in changes.Keys && input < c <= cursor;
      IntervalCount(changes.Keys, input, cursor);
      if |retained| != cursor - input {
        var rows := AppendVaultSnapshot();
        return Reply(cursor, true, applied, rows);
      }
      var out := input;
      var rows := [];
      while out < cursor && |rows| < PAGE_SIZE
        invariant input <= out <= cursor && |rows| == out - input <= PAGE_SIZE
        invariant rows == Items(ledger, input, out)
      {
        assert out + 1 in changes.Keys;
        rows := rows + [changes[out + 1].item];
        out := out + 1;
      }
      r := Reply(out, false, applied, rows);
    }

    /** The batch and its answer, up to the commit or the first error. */
    method AnswerBatch(input: nat, ms: seq<Mutation>, now: int) returns (r: Result<Reply, SyncError>)
      requires Valid() && AllValid(ms)
      modifies this
      ensures Valid()
      ensures BatchAnswers(old(State()), input, ms, now, State(), r)
    {
      var applied := ApplyBatch(ms, now);
      if applied.Err? { return Err(applied.error); }
      if input > cursor { return Err(InvalidCursor); }
      var reply := ReadReply(input, ms, applied.value);
      r := Ok(reply);
    }

    /** The statements of the transaction: prune, sweep, batch, answer. */
    method RunTransaction(input: nat, ms: seq<Mutation>, now: int, ids: seq<Id>)
      returns (r: Result<Reply, SyncError>, ghost rows: seq<nat>)
      requires Valid() && AllValid(ms)
      requires FreshIds(ledger, ids) && |ExpiredRows(ledger, now)| <= |ids|
      modifies this
      ensures Valid()
      ensures Enumerates(rows, ExpiredRows(old(ledger), now)) && |rows| <= |ids|
      ensures forall k :: k in rows ==> k < |old(ledger)|
      ensures Answers(old(State()), input, ms, now, rows, ids, State(), r)
    {
      PruneChanges(now);
      var swept;
      swept, rows := PurgeExpiredVaultItems(now, ids);
      if swept.Err? { return Err(swept.error), rows; }
      r := AnswerBatch(input, ms, now);
    }

    method Restore(saved: Tables)
      modifies this
      ensures Tables() == saved
    {
      revisions, heads, changes := saved.revisions, saved.heads, saved.changes;
      cursor, ledger, items := saved.cursor, saved.ledger, saved.items;
    }

    /** One synchronization transaction: everything, or nothing at all. */
    method Sync(input: nat, ms: seq<Mutation>, now: int, ids: seq<Id>)
      returns (r: Result<Reply, SyncError>, ghost rows: seq<nat>)
      requires Valid() && AllValid(ms)
      requires FreshIds(ledger, ids) && |ExpiredRows(ledger, now)| <= |ids|
      modifies this
      ensures Valid()
      ensures Enumerates(rows, ExpiredRows(old(ledger), now)) && |rows| <= |ids|
      ensures forall k :: k in rows ==> k < |old(ledger)|
      ensures Answers(old(State()), input, ms, now, rows, ids, State(), r)
      ensures r.Err? ==> Tables() == old(Tables())
    {
      var saved := Tables();
      r, rows := RunTransaction(input, ms, now, ids);
      if r.Err? { Restore(saved); }
    }
  }
}
