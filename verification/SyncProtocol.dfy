/** One exchange with the server, on the abstract state: the history of accepted
    mutations and the set of change cursors still retained. */
module SyncProtocol {
  import opened Revisions
  import opened RevisionLog

  // Both retention periods are 30 days, in nanoseconds.
  const RETENTION: int := 30 * 24 * 60 * 60 * 1_000_000_000
  const PAGE_SIZE: nat := 500
  const MAX_BATCH: nat := 100

  datatype Server = Server(log: Ledger, kept: set<nat>)

  datatype SyncError = RevisionConflict | MutationIdReuse | InvalidCursor | CursorOverflow | StorageFailure | InvalidRequest

  datatype Reply = Reply(cursor: nat, full: bool, applied: seq<Id>, changes: seq<Revision>)

  ghost predicate ServerOk(s: Server) {
    && LegalLog(s.log) && |s.log| <= MAX_REVISION
    && forall c :: c in s.kept ==>
         1 <= c <= |s.log| && LastPurge(s.log, |s.log|, ItemAt(s.log, c - 1).itemId) <= c
  }

  /** The history of an item in the current state. */
  function Current(s: Server, item: Id): Graph {
    History(s.log, |s.log|, item)
  }

  // ----------------------------------------------------------- one mutation

  function Find(log: Ledger, x: Id): (r: Option<nat>)
    ensures r.Some? ==> r.value < |log| && IdAt(log, r.value) == x
    ensures r.None? ==> !Logged(log, |log|, x)
  {
    if log == [] then None
    else if IdAt(log, |log| - 1) == x then Some(|log| - 1)
    else
      var r := Find(log[..|log| - 1], x);
      assert r.None? ==> forall k :: 0 <= k < |log| - 1 ==> IdAt(log, k) == IdAt(log[..|log| - 1], k);
      r
  }

  predicate SameMutation(a: Mutation, b: Mutation) {
    a.mutationId == b.mutationId && a.baseRevision == b.baseRevision && SameRevision(a.item, b.item)
  }

  function CursorsOf(s: Server, item: Id): set<nat> {
    set c | c in s.kept && 1 <= c <= |s.log| && ItemAt(s.log, c - 1).itemId == item
  }

  function Append(s: Server, m: Mutation, now: int): Server {
    Server(s.log + [LedgerRow(m, now)],
           (if m.item.purged then s.kept - CursorsOf(s, m.item.itemId) else s.kept) + {|s.log| + 1})
  }

  function Accept(s: Server, m: Mutation, now: int): Result<Server, SyncError> {
    match Find(s.log, m.mutationId)
    case Some(k) =>
      if SameMutation(s.log[k].mutation, m) then Ok(s) else Err(MutationIdReuse)
    case None =>
      if !Acceptable(Current(s, m.item.itemId), m) then Err(RevisionConflict)
      else if !Storable(m) then Err(StorageFailure)
      else if |s.log| == MAX_REVISION then Err(CursorOverflow)
      else Ok(Append(s, m, now))
  }

  function AcceptAll(s: Server, ms: seq<Mutation>, now: int): Result<Server, SyncError>
    decreases |ms|
  {
    if ms == [] then Ok(s) else
      match Accept(s, ms[0], now)
      case Ok(t) => AcceptAll(t, ms[1..], now)
      case Err(e) => Err(e)
  }

  ghost predicate AllValid(ms: seq<Mutation>) {
    forall m :: m in ms ==> ValidMutation(m)
  }

  /** The ledger row of m, recorded with the same content. */
  ghost predicate RecordedAt(log: Ledger, k: nat, m: Mutation) {
    k < |log| && SameMutation(log[k].mutation, m)
  }

  ghost predicate Recorded(log: Ledger, m: Mutation) {
    exists k: nat :: RecordedAt(log, k, m)
  }

  lemma {:induction false} KeptAfterAppend(s: Server, m: Mutation, now: int)
    requires ServerOk(s)
    ensures var t := Append(s, m, now);
            forall c :: c in t.kept ==> 1 <= c <= |t.log| && LastPurge(t.log, |t.log|, ItemAt(t.log, c - 1).itemId) <= c
  {
    var t := Append(s, m, now);
    forall c | c in t.kept
      ensures 1 <= c <= |t.log| && LastPurge(t.log, |t.log|, ItemAt(t.log, c - 1).itemId) <= c
    {
      if c <= |s.log| {
        assert c in s.kept;
        LastPurgePrefix(s.log, t.log, |s.log|, ItemAt(s.log, c - 1).itemId);
      }
    }
  }

  lemma {:induction false} AcceptKeepsServer(s: Server, m: Mutation, now: int)
    requires ServerOk(s) && ValidMutation(m) && Accept(s, m, now).Ok?
    ensures var t := Accept(s, m, now).value;
            && ServerOk(t) && s.log <= t.log
            && (t == s || (t == Append(s, m, now) && !Logged(s.log, |s.log|, m.mutationId)))
            && Recorded(t.log, m)
  {
    var t := Accept(s, m, now).value;
    match Find(s.log, m.mutationId)
    case Some(k) =>
      assert RecordedAt(t.log, k, m);
    case None =>
      AppendLegal(s.log, LedgerRow(m, now));
      KeptAfterAppend(s, m, now);
      assert RecordedAt(t.log, |s.log|, m);
  }

  lemma {:induction false} RecordedStays(log: Ledger, longer: Ledger, m: Mutation)
    requires Recorded(log, m) && log <= longer
    ensures Recorded(longer, m)
  {
    var k: nat :| RecordedAt(log, k, m);
    assert RecordedAt(longer, k, m);
  }

  /** From log to longer only rows of the batch, accepted now, were appended. */
  ghost predicate GrownBy(log: Ledger, longer: Ledger, ms: seq<Mutation>, now: int) {
    && log <= longer && |longer| <= |log| + |ms|
    && forall k :: |log| <= k < |longer| ==> longer[k].mutation in ms && longer[k].acceptedAt == now
  }

  /** What a whole accepted batch leaves behind: the old history untouched, only
      rows of the batch appended, and every mutation of the batch recorded. */
  lemma {:induction false} AcceptAllKeepsServer(s: Server, ms: seq<Mutation>, now: int)
    requires ServerOk(s) && AllValid(ms) && AcceptAll(s, ms, now).Ok?
    ensures var t := AcceptAll(s, ms, now).value;
            ServerOk(t) && GrownBy(s.log, t.log, ms, now) && forall m :: m in ms ==> Recorded(t.log, m)
    decreases |ms|
  {
    if ms != [] {
      AcceptKeepsServer(s, ms[0], now) by { assert ms[0] in ms; }
      var s1 := Accept(s, ms[0], now).value;
      var rest := ms[1..];
      assert AllValid(rest) by { assert forall m :: m in rest ==> m in ms; }
      AcceptAllKeepsServer(s1, rest, now);
      var t := AcceptAll(s, ms, now).value;
      forall m | m in ms ensures Recorded(t.log, m) {
        if m == ms[0] { RecordedStays(s1.log, t.log, m); } else { assert m in rest; }
      }
    }
  }

  /** Resending recorded mutations is acknowledged and changes nothing, in any
      later state. */
  lemma {:induction false} ResendChangesNothing(s: Server, ms: seq<Mutation>, now: int)
    requires LegalLog(s.log)
    requires forall m :: m in ms ==> Recorded(s.log, m)
    ensures AcceptAll(s, ms, now) == Ok(s)
  {
    if ms != [] {
      assert ms[0] in ms && forall m :: m in ms[1..] ==> m in ms;
      var k: nat :| RecordedAt(s.log, k, ms[0]);
      assert IdAt(s.log, k) == ms[0].mutationId;
      assert Find(s.log, ms[0].mutationId).Some?;
      UniqueIds(s.log, k, Find(s.log, ms[0].mutationId).value);
      ResendChangesNothing(s, ms[1..], now);
    }
  }

  // ------------------------------------------------------------- the sweep

  function Prune(s: Server, now: int): Server {
    s.(kept := set c | c in s.kept && !(1 <= c <= |s.log| && s.log[c - 1].acceptedAt < now - RETENTION))
  }

  /** Row k is the only head of its item and trash that has expired. */
  predicate ExpiredRow(log: Ledger, now: int, k: nat)
    requires k < |log|
  {
    && Trashed(ItemAt(log, k))
    && log[k].acceptedAt <= now - RETENTION
    && HeadsAt(log, |log|, ItemAt(log, k).itemId) == {IdAt(log, k)}
  }

  function ExpiredRows(log: Ledger, now: int): set<nat> {
    set k | 0 <= k < |log| && ExpiredRow(log, now, k)
  }

  function Tombstone(r: Revision, id: Id): Mutation {
    Mutation(id, r.revision,
             Revision(r.itemId, r.schemaVersion, r.revision + 1, id, [r.revisionId], true, true, []))
  }

  ghost predicate Enumerates(rows: seq<nat>, all: set<nat>) {
    && Distinct(rows)
    && forall k :: k in all <==> k in rows
  }

  function Tombstones(log: Ledger, rows: seq<nat>, ids: seq<Id>): (ms: seq<Mutation>)
    requires |rows| == |ids| && forall k :: k in rows ==> k < |log|
    ensures |ms| == |rows|
    ensures forall j {:trigger ms[j]} :: 0 <= j < |ms| ==> rows[j] in rows && ms[j] == Tombstone(ItemAt(log, rows[j]), ids[j])
  {
    if rows == [] then [] else
      assert rows[0] in rows && forall k :: k in rows[1..] ==> k in rows;
      [Tombstone(ItemAt(log, rows[0]), ids[0])] + Tombstones(log, rows[1..], ids[1..])
  }

  ghost predicate FreshIds(log: Ledger, ids: seq<Id>) {
    ValidParents(ids) && forall x :: x in ids ==> !Logged(log, |log|, x)
  }

  /** The state of the sweep before tombstone j: rows from j on are still the only,
      expired heads of distinct items, and nothing else happened to any item. */
  ghost predicate SweepPending(s: Server, now: int, rows: seq<nat>) {
    && (forall k :: k in rows ==> k < |s.log| && ExpiredRow(s.log, now, k))
    && Distinct(rows)
  }

  lemma {:induction false} TombstoneIsLegal(s: Server, now: int, k: nat, id: Id)
    requires ServerOk(s) && |s.log| < MAX_REVISION
    requires k < |s.log| && ExpiredRow(s.log, now, k)
    requires id != NO_ID && !Logged(s.log, |s.log|, id)
    ensures var m := Tombstone(ItemAt(s.log, k), id);
            ValidMutation(m) && Accept(s, m, now) == Ok(Append(s, m, now))
  {
    var r := ItemAt(s.log, k);
    assert Legal(s.log, k);
    NumberBound(s.log, k);
    HistoryRow(s.log, |s.log|, k);
    var g := Current(s, r.itemId);
    var m := Tombstone(r, id);
    assert m.item.parents == [r.revisionId];
    assert ParentsIn(g, m.item.parents);
    assert MaxRevision(g, m.item.parents) == r.revision;
  }

  lemma {:induction false} ExpiredRowsOfDistinctItems(log: Ledger, now: int, j: nat, k: nat)
    requires LegalLog(log) && j < |log| && k < |log|
    requires ExpiredRow(log, now, j) && ExpiredRow(log, now, k)
    requires ItemAt(log, j).itemId == ItemAt(log, k).itemId
    ensures j == k
  {
    assert IdAt(log, j) in {IdAt(log, k)};
    UniqueIds(log, j, k);
  }

  /** Tombstones appended for one item leave the other expired items as they are. */
  lemma {:induction false} AppendLeavesOthers(s: Server, m: Mutation, now: int, item: Id)
    requires item != m.item.itemId
    ensures Current(Append(s, m, now), item) == Current(s, item)
  {
    HistoryPrefix(s.log, Append(s, m, now).log, |s.log|, item);
  }

  lemma {:induction false} TailMember<T>(xs: seq<T>, x: T) returns (i: nat)
    requires xs != [] && x in xs[1..]
    ensures 1 <= i < |xs| && xs[i] == x && x in xs
  {
    var j :| 0 <= j < |xs| - 1 && xs[1..][j] == x;
    i := j + 1;
  }

  lemma {:induction false} ExpiredStays(s: Server, m: Mutation, now: int, j: nat)
    requires j < |s.log| && ExpiredRow(s.log, now, j) && ItemAt(s.log, j).itemId != m.item.itemId
    ensures var t := Append(s, m, now);
            j < |t.log| && ItemAt(t.log, j) == ItemAt(s.log, j) && ExpiredRow(t.log, now, j)
  {
    AppendLeavesOthers(s, m, now, ItemAt(s.log, j).itemId);
    assert Append(s, m, now).log[j] == s.log[j];
  }

  lemma {:induction false} FreshTail(log: Ledger, row: LedgerRow, ids: seq<Id>)
    requires ids != [] && FreshIds(log, ids) && row.mutation.mutationId == ids[0]
    ensures FreshIds(log + [row], ids[1..])
  {
    var longer := log + [row];
    forall x | x in ids[1..] ensures x != NO_ID && !Logged(longer, |longer|, x) {
      var i := TailMember(ids, x);
      LoggedPrefix(log, longer, |log|, x);
    }
  }

  lemma {:induction false} PendingTail(s: Server, m: Mutation, now: int, rows: seq<nat>)
    requires LegalLog(s.log) && SweepPending(s, now, rows) && rows != []
    requires rows[0] in rows && m.item.itemId == ItemAt(s.log, rows[0]).itemId
    ensures var t := Append(s, m, now);
            && SweepPending(t, now, rows[1..])
            && forall k :: k in rows[1..] ==> k in rows && ItemAt(s.log, k) == ItemAt(t.log, k) && ItemAt(t.log, k).itemId != m.item.itemId
  {
    var t := Append(s, m, now);
    forall j | j in rows[1..]
      ensures j in rows && ItemAt(s.log, j) == ItemAt(t.log, j) && ItemAt(t.log, j).itemId != m.item.itemId
      ensures ExpiredRow(t.log, now, j)
    {
      var i := TailMember(rows, j);
      if ItemAt(s.log, j).itemId == m.item.itemId { ExpiredRowsOfDistinctItems(s.log, now, j, rows[0]); }
      ExpiredStays(s, m, now, j);
    }
  }

  lemma {:induction false} AppendedPurge(s: Server, m: Mutation, now: int)
    requires LegalLog(Append(s, m, now).log) && m.item.purged
    ensures var g := Current(Append(s, m, now), m.item.itemId);
            Heads(g) == {m.mutationId} && m.mutationId in g && g[m.mutationId] == m.item
  {
    var t := Append(s, m, now);
    PurgeIsOnlyHead(t.log, |s.log|);
    HistoryRow(t.log, |t.log|, |s.log|);
  }

  /** The sweep cannot fail on its own guards: as long as cursors remain, every
      tombstone it builds is accepted, becomes the only head of its item, and
      every item it was not built for is left alone. */
  lemma {:induction false} SweepSucceeds(s: Server, now: int, rows: seq<nat>, ids: seq<Id>)
    requires ServerOk(s) && SweepPending(s, now, rows)
    requires |rows| == |ids| && FreshIds(s.log, ids)
    requires |s.log| + |rows| <= MAX_REVISION
    ensures AllValid(Tombstones(s.log, rows, ids))
    ensures AcceptAll(s, Tombstones(s.log, rows, ids), now).Ok?
    ensures Swept(s, AcceptAll(s, Tombstones(s.log, rows, ids), now).value, rows, ids)
    decreases |rows|
  {
    if rows != [] {
      var ms := Tombstones(s.log, rows, ids);
      var m := ms[0];
      assert m == Tombstone(ItemAt(s.log, rows[0]), ids[0]);
      assert rows[0] in rows && ids[0] in ids;
      TombstoneIsLegal(s, now, rows[0], ids[0]);
      AcceptKeepsServer(s, m, now);
      PendingTail(s, m, now, rows);
      var s1 := Append(s, m, now);
      FreshTail(s.log, LedgerRow(m, now), ids);
      AppendedPurge(s, m, now);
      var rest := Tombstones(s1.log, rows[1..], ids[1..]);
      assert ms[1..] == rest;
      SweepSucceeds(s1, now, rows[1..], ids[1..]);
      assert forall x :: x in ms ==> x == m || x in rest;
      SweptStep(s, s1, AcceptAll(s1, rest, now).value, m, now, rows, ids);
    }
  }

  ghost predicate Swept(s: Server, t: Server, rows: seq<nat>, ids: seq<Id>)
    requires |rows| == |ids| && forall k :: k in rows ==> k < |s.log|
  {
    && (forall j :: 0 <= j < |rows| ==>
          && rows[j] in rows
          && Heads(Current(t, ItemAt(s.log, rows[j]).itemId)) == {ids[j]}
          && ids[j] in Current(t, ItemAt(s.log, rows[j]).itemId)
          && Current(t, ItemAt(s.log, rows[j]).itemId)[ids[j]].purged)
    && (forall item :: (forall k :: k in rows ==> ItemAt(s.log, k).itemId != item) ==>
          Current(t, item) == Current(s, item))
  }

  lemma {:induction false} SweptStep(s: Server, s1: Server, t: Server, m: Mutation, now: int, rows: seq<nat>, ids: seq<Id>)
    requires |rows| == |ids| && rows != [] && forall k :: k in rows ==> k < |s.log|
    requires rows[0] in rows && m == Tombstone(ItemAt(s.log, rows[0]), ids[0]) && s1 == Append(s, m, now)
    requires forall k :: k in rows[1..] ==> k in rows && ItemAt(s.log, k) == ItemAt(s1.log, k) && ItemAt(s1.log, k).itemId != m.item.itemId
    requires Swept(s1, t, rows[1..], ids[1..])
    requires Heads(Current(s1, m.item.itemId)) == {ids[0]}
    requires ids[0] in Current(s1, m.item.itemId) && Current(s1, m.item.itemId)[ids[0]].purged
    ensures Swept(s, t, rows, ids)
  {
    assert Current(t, m.item.itemId) == Current(s1, m.item.itemId);
    forall j | 0 <= j < |rows|
      ensures rows[j] in rows
      ensures Heads(Current(t, ItemAt(s.log, rows[j]).itemId)) == {ids[j]}
      ensures ids[j] in Current(t, ItemAt(s.log, rows[j]).itemId)
      ensures Current(t, ItemAt(s.log, rows[j]).itemId)[ids[j]].purged
    {
      if j > 0 {
        assert rows[1..][j - 1] == rows[j] && ids[1..][j - 1] == ids[j];
      }
    }
    forall item | forall k :: k in rows ==> ItemAt(s.log, k).itemId != item
      ensures Current(t, item) == Current(s, item)
    {
      AppendLeavesOthers(s, m, now, item);
    }
  }
}
