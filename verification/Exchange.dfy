/** A whole synchronization request: prune, sweep, apply the batch all or nothing,
    then answer with the changes after the input cursor or with a full snapshot. */
module Exchange {
  import opened Revisions
  import opened RevisionLog
  import opened SyncProtocol

  function Process(s: Server, ms: seq<Mutation>, now: int, rows: seq<nat>, ids: seq<Id>): Result<Server, SyncError>
    requires |rows| == |ids| && forall k :: k in rows ==> k < |s.log|
  {
    match AcceptAll(Prune(s, now), Tombstones(s.log, rows, ids), now)
    case Ok(t) => AcceptAll(t, ms, now)
    case Err(e) => Err(e)
  }

  /** Every change cursor after the input is still stored. */
  predicate Retained(s: Server, input: nat) {
    forall c :: input < c <= |s.log| ==> c in s.kept
  }

  function Items(log: Ledger, lo: nat, hi: nat): (rs: seq<Revision>)
    requires lo <= hi <= |log|
    ensures |rs| == hi - lo
    ensures forall j :: 0 <= j < |rs| ==> rs[j] == ItemAt(log, lo + j)
    decreases hi
  {
    if lo == hi then [] else Items(log, lo, hi - 1) + [ItemAt(log, hi - 1)]
  }

  function PageEnd(log: Ledger, input: nat): (c: nat)
    requires input <= |log|
    ensures input <= c <= |log|
  {
    if |log| - input <= PAGE_SIZE then |log| else input + PAGE_SIZE
  }

  function Ids(ms: seq<Mutation>): (ids: seq<Id>)
    ensures |ids| == |ms|
    ensures forall j :: 0 <= j < |ms| ==> ids[j] == ms[j].mutationId
  {
    if ms == [] then [] else Ids(ms[..|ms| - 1]) + [ms[|ms| - 1].mutationId]
  }

  ghost predicate HeadRow(log: Ledger, n: nat, r: Revision)
    requires n <= |log|
  {
    r.revisionId in HeadsAt(log, n, r.itemId) && r == History(log, n, r.itemId)[r.revisionId]
  }

  ghost predicate HeadListed(log: Ledger, n: nat, changes: seq<Revision>, item: Id, x: Id)
    requires n <= |log|
  {
    x in HeadsAt(log, n, item) ==> History(log, n, item)[x] in changes
  }

  /** The current heads of every item, each once, in any order. */
  ghost predicate SnapshotOf(log: Ledger, n: nat, changes: seq<Revision>)
    requires n <= |log|
  {
    && (forall j {:trigger HeadRow(log, n, changes[j])} :: 0 <= j < |changes| ==> HeadRow(log, n, changes[j]))
    && (forall item, x {:trigger HeadListed(log, n, changes, item, x)} :: HeadListed(log, n, changes, item, x))
    && (forall i, j :: 0 <= i < j < |changes| ==> changes[i].revisionId != changes[j].revisionId)
  }

  /** ORDER BY item, revision. */
  predicate RowBefore(a: Revision, b: Revision) {
    a.itemId < b.itemId || (a.itemId == b.itemId && a.revisionId < b.revisionId)
  }

  predicate InOrder(rows: seq<Revision>) {
    forall i, j :: 0 <= i < j < |rows| ==> RowBefore(rows[i], rows[j])
  }

  ghost predicate ReplyFor(s: Server, input: nat, ms: seq<Mutation>, r: Reply)
    requires input <= |s.log|
  {
    && r.applied == Ids(ms)
    && r.full == !Retained(s, input)
    && if r.full then
         r.cursor == |s.log| && SnapshotOf(s.log, |s.log|, r.changes) && InOrder(r.changes)
       else
         r.cursor == PageEnd(s.log, input) && r.changes == Items(s.log, input, r.cursor)
  }

  /** The server may move from s to t and answer r. */
  ghost predicate Exchanged(s: Server, input: nat, ms: seq<Mutation>, now: int,
                            rows: seq<nat>, ids: seq<Id>, t: Server, r: Reply)
  {
    && Enumerates(rows, ExpiredRows(s.log, now))
    && |rows| == |ids| && FreshIds(s.log, ids)
    && Process(s, ms, now, rows, ids) == Ok(t)
    && input <= |t.log|
    && ReplyFor(t, input, ms, r)
  }

  /** The result of a batch applied after the sweep, with the error of the first thing
      that fails: a mutation, or a cursor ahead of the server; t is the state after it. */
  ghost predicate BatchAnswers(s: Server, input: nat, ms: seq<Mutation>, now: int, t: Server, r: Result<Reply, SyncError>) {
    match AcceptAll(s, ms, now)
    case Err(e) => r == Err(e)
    case Ok(u) => if input <= |u.log| then r.Ok? && t == u && ReplyFor(u, input, ms, r.value) else r == Err(InvalidCursor)
  }

  predicate SweepError(e: SyncError) {
    e == RevisionConflict || e == CursorOverflow
  }

  /** The result of a whole request: that of the batch, unless the sweep fails. */
  ghost predicate Answers(s: Server, input: nat, ms: seq<Mutation>, now: int,
                          rows: seq<nat>, ids: seq<Id>, t: Server, r: Result<Reply, SyncError>)
    requires |rows| <= |ids| && forall k :: k in rows ==> k < |s.log|
  {
    match AcceptAll(Prune(s, now), Tombstones(s.log, rows, ids[..|rows|]), now)
    case Err(_) => r.Err? && SweepError(r.error)
    case Ok(u) => BatchAnswers(u, input, ms, now, t, r)
  }

  /** A successful answer of the store is an exchange with the ids it used up. */
  lemma {:induction false} AnswersAreExchanges(s: Server, input: nat, ms: seq<Mutation>, now: int,
                                               rows: seq<nat>, ids: seq<Id>, t: Server, r: Result<Reply, SyncError>)
    requires Enumerates(rows, ExpiredRows(s.log, now)) && |rows| <= |ids| && FreshIds(s.log, ids)
    requires forall k :: k in rows ==> k < |s.log|
    requires Answers(s, input, ms, now, rows, ids, t, r)
    ensures r.Ok? <==> Process(s, ms, now, rows, ids[..|rows|]).Ok?
                       && input <= |Process(s, ms, now, rows, ids[..|rows|]).value.log|
    ensures r.Ok? ==> Exchanged(s, input, ms, now, rows, ids[..|rows|], t, r.value)
  {
    var used := ids[..|rows|];
    assert forall x :: x in used ==> x in ids;
    assert FreshIds(s.log, used);
  }

  /** The trash sweep never is what fails while cursors are left: the error of a request
      is then that of its batch, or of its cursor. */
  lemma {:induction false} BatchDecidesFailure(s: Server, input: nat, ms: seq<Mutation>, now: int,
                                              rows: seq<nat>, ids: seq<Id>, t: Server, r: Result<Reply, SyncError>)
    returns (u: Server)
    requires ServerOk(s) && AllValid(ms) && |s.log| + |rows| + |ms| <= MAX_REVISION
    requires Enumerates(rows, ExpiredRows(s.log, now)) && |rows| <= |ids| && FreshIds(s.log, ids)
    requires forall k :: k in rows ==> k < |s.log|
    requires Answers(s, input, ms, now, rows, ids, t, r)
    ensures AcceptAll(Prune(s, now), Tombstones(s.log, rows, ids[..|rows|]), now) == Ok(u)
    ensures AcceptAll(u, ms, now).Err? ==> r == Err(AcceptAll(u, ms, now).error) && r.error != CursorOverflow
    ensures AcceptAll(u, ms, now).Ok? ==> (r.Ok? <==> input <= |AcceptAll(u, ms, now).value.log|)
    ensures AcceptAll(u, ms, now).Ok? && r.Err? ==> r == Err(InvalidCursor)
  {
    var used := ids[..|rows|];
    assert forall x :: x in used ==> x in ids;
    assert FreshIds(s.log, used);
    u := ProcessPhases(s, ms, now, rows, used);
    NoOverflow(u, ms, now);
  }

  lemma {:induction false} NoOverflow(s: Server, ms: seq<Mutation>, now: int)
    requires |s.log| + |ms| <= MAX_REVISION
    ensures AcceptAll(s, ms, now).Err? ==> AcceptAll(s, ms, now).error != CursorOverflow
    decreases |ms|
  {
    if ms != [] && Accept(s, ms[0], now).Ok? { NoOverflow(Accept(s, ms[0], now).value, ms[1..], now); }
  }

  // ------------------------------------------------------------ the state

  lemma {:induction false} SweepStarts(s: Server, now: int, rows: seq<nat>)
    requires ServerOk(s) && Enumerates(rows, ExpiredRows(s.log, now))
    ensures forall k :: k in rows ==> k < |s.log|
    ensures ServerOk(Prune(s, now)) && SweepPending(Prune(s, now), now, rows)
  {
    assert forall k :: k in rows ==> k in ExpiredRows(s.log, now);
  }

  /** A sweep that went through had cursors left for all its tombstones. */
  lemma {:induction false} SweepFits(s: Server, now: int, rows: seq<nat>, ids: seq<Id>)
    requires ServerOk(s) && SweepPending(s, now, rows)
    requires |rows| == |ids| && FreshIds(s.log, ids)
    requires AcceptAll(s, Tombstones(s.log, rows, ids), now).Ok?
    ensures |s.log| + |rows| <= MAX_REVISION
    decreases |rows|
  {
    if rows != [] {
      var ms := Tombstones(s.log, rows, ids);
      var m := ms[0];
      assert rows[0] in rows && ids[0] in ids;
      assert Find(s.log, m.mutationId).None?;
      TombstoneIsLegal(s, now, rows[0], ids[0]);
      AcceptKeepsServer(s, m, now);
      PendingTail(s, m, now, rows);
      var s1 := Append(s, m, now);
      FreshTail(s.log, LedgerRow(m, now), ids);
      assert ms[1..] == Tombstones(s1.log, rows[1..], ids[1..]);
      SweepFits(s1, now, rows[1..], ids[1..]);
    }
  }

  lemma {:induction false} ProcessedFits(s: Server, ms: seq<Mutation>, now: int, rows: seq<nat>, ids: seq<Id>)
    requires ServerOk(s) && Enumerates(rows, ExpiredRows(s.log, now))
    requires |rows| == |ids| && FreshIds(s.log, ids)
    requires Process(s, ms, now, rows, ids).Ok?
    ensures |s.log| + |rows| <= MAX_REVISION
  {
    SweepStarts(s, now, rows);
    SweepFits(Prune(s, now), now, rows, ids);
  }

  /** The two phases of a processed request, with the sweep between them. */
  lemma {:induction false} ProcessPhases(s: Server, ms: seq<Mutation>, now: int, rows: seq<nat>, ids: seq<Id>) returns (u: Server)
    requires ServerOk(s) && AllValid(ms)
    requires Enumerates(rows, ExpiredRows(s.log, now))
    requires |rows| == |ids| && FreshIds(s.log, ids)
    requires |s.log| + |rows| <= MAX_REVISION
    ensures AcceptAll(Prune(s, now), Tombstones(s.log, rows, ids), now) == Ok(u)
    ensures Process(s, ms, now, rows, ids) == AcceptAll(u, ms, now)
    ensures ServerOk(u) && AllValid(Tombstones(s.log, rows, ids))
    ensures GrownBy(s.log, u.log, Tombstones(s.log, rows, ids), now)
    ensures Swept(s, u, rows, ids)
    ensures Process(s, ms, now, rows, ids).Ok? ==>
              var t := Process(s, ms, now, rows, ids).value;
              ServerOk(t) && GrownBy(u.log, t.log, ms, now) && forall m :: m in ms ==> Recorded(t.log, m)
  {
    SweepStarts(s, now, rows);
    SweepSucceeds(Prune(s, now), now, rows, ids);
    var ts := Tombstones(s.log, rows, ids);
    AcceptAllKeepsServer(Prune(s, now), ts, now);
    u := AcceptAll(Prune(s, now), ts, now).value;
    if AcceptAll(u, ms, now).Ok? { AcceptAllKeepsServer(u, ms, now); }
  }

  /** Sending an already recorded batch again only prunes and sweeps. */
  lemma {:induction false} ResentBatchOnlySweeps(s: Server, ms: seq<Mutation>, now: int, rows: seq<nat>, ids: seq<Id>)
    requires ServerOk(s) && AllValid(ms)
    requires Enumerates(rows, ExpiredRows(s.log, now))
    requires |rows| == |ids| && FreshIds(s.log, ids)
    requires |s.log| + |rows| <= MAX_REVISION
    requires forall m :: m in ms ==> Recorded(s.log, m)
    ensures Process(s, ms, now, rows, ids) == Process(s, [], now, rows, ids)
    ensures ExpiredRows(s.log, now) == {} ==> Process(s, ms, now, rows, ids) == Ok(Prune(s, now))
  {
    var u := ProcessPhases(s, ms, now, rows, ids);
    forall m | m in ms ensures Recorded(u.log, m) { RecordedStays(s.log, u.log, m); }
    ResendChangesNothing(u, ms, now);
    if rows != [] { assert rows[0] in rows; }
  }

  // ------------------------------------------------------------- the trash

  lemma {:induction false} NewestRowIsHead(log: Ledger, m: nat, n: nat, item: Id)
    requires LegalLog(log) && m <= n <= |log|
    ensures History(log, n, item) == History(log, m, item)
            || exists k :: m <= k < n && IdAt(log, k) in HeadsAt(log, n, item)
    decreases n
  {
    if m < n {
      HeadsStep(log, n - 1);
      if ItemAt(log, n - 1).itemId == item {
        assert IdAt(log, n - 1) in HeadsAt(log, n, item);
      } else {
        NewestRowIsHead(log, m, n - 1, item);
      }
    }
  }

  lemma {:induction false} ExpiredRowIsOld(s: Server, t: Server, now: int, k: nat, added: seq<Mutation>)
    requires LegalLog(t.log) && GrownBy(s.log, t.log, added, now)
    requires k < |t.log| && ExpiredRow(t.log, now, k)
    ensures k < |s.log| && ExpiredRow(s.log, now, k)
    ensures Current(t, ItemAt(t.log, k).itemId) == Current(s, ItemAt(t.log, k).itemId)
  {
    var item := ItemAt(t.log, k).itemId;
    assert k < |s.log|;
    NewestRowIsHead(t.log, |s.log|, |t.log|, item);
    HistoryPrefix(s.log, t.log, |s.log|, item);
    if j :| |s.log| <= j < |t.log| && IdAt(t.log, j) in HeadsAt(t.log, |t.log|, item) {
      UniqueIds(t.log, j, k);
    }
  }

  /** Each expired head got a tombstone on top of it. */
  lemma {:induction false} SweptHeadIsGone(s: Server, u: Server, now: int, rows: seq<nat>, ids: seq<Id>, k: nat)
    requires Enumerates(rows, ExpiredRows(s.log, now)) && |rows| == |ids| && FreshIds(s.log, ids)
    requires (forall i :: i in rows ==> i < |s.log|) && Swept(s, u, rows, ids)
    requires k < |s.log| && ExpiredRow(s.log, now, k)
    ensures HeadsAt(u.log, |u.log|, ItemAt(s.log, k).itemId) != {IdAt(s.log, k)}
  {
    assert k in ExpiredRows(s.log, now);
    var j :| 0 <= j < |rows| && rows[j] == k;
    assert ids[j] in ids && IdAt(s.log, k) != ids[j];
    assert ids[j] in {ids[j]};
  }

  /** After every exchange no item has an expired trash revision as its only head,
      whatever the batch did. */
  lemma {:induction false} NoExpiredTrashRemains(s: Server, input: nat, ms: seq<Mutation>, now: int,
                              rows: seq<nat>, ids: seq<Id>, t: Server, r: Reply)
    requires ServerOk(s) && AllValid(ms)
    requires Exchanged(s, input, ms, now, rows, ids, t, r)
    ensures ExpiredRows(t.log, now) == {}
  {
    ProcessedFits(s, ms, now, rows, ids);
    var u := ProcessPhases(s, ms, now, rows, ids);
    forall k | 0 <= k < |s.log| && ExpiredRow(s.log, now, k)
      ensures HeadsAt(u.log, |u.log|, ItemAt(s.log, k).itemId) != {IdAt(s.log, k)}
    {
      SweptHeadIsGone(s, u, now, rows, ids, k);
    }
    forall k | 0 <= k < |t.log| ensures !ExpiredRow(t.log, now, k) {
      if ExpiredRow(t.log, now, k) {
        ExpiredRowIsOld(u, t, now, k, ms);
        ExpiredRowIsOld(s, u, now, k, Tombstones(s.log, rows, ids));
      }
    }
  }

  // ---------------------------------------------------------------- replies

  /** Gap detection is exact, and an incremental reply is the contiguous run of
      changes after the input cursor. */
  lemma {:induction false} IncrementalReply(s: Server, input: nat, ms: seq<Mutation>, r: Reply)
    requires ServerOk(s) && input <= |s.log| && ReplyFor(s, input, ms, r)
    ensures !r.full <==> forall c :: input < c <= |s.log| ==> c in s.kept
    ensures !r.full ==>
              && |r.changes| == (if |s.log| - input <= 500 then |s.log| - input else 500)
              && r.cursor == input + |r.changes|
              && forall j :: 0 <= j < |r.changes| ==> r.changes[j] == ItemAt(s.log, input + j)
    ensures !r.full ==>
              forall i, j :: 0 <= i < j < |r.changes| && r.changes[j].purged ==>
                r.changes[i].itemId != r.changes[j].itemId
  {
    if !r.full {
      forall i, j | 0 <= i < j < |r.changes| && r.changes[j].purged
        ensures r.changes[i].itemId != r.changes[j].itemId
      {
        var c := input + i + 1;
        assert c in s.kept;
        assert LastPurge(s.log, |s.log|, ItemAt(s.log, c - 1).itemId) <= c;
        assert ItemAt(s.log, input + j) == r.changes[j] && ItemAt(s.log, c - 1) == r.changes[i];
      }
    }
  }

  /** Successive exchanges of one client: every page starts at the cursor of the page
      before, from whatever the server has become since. */
  ghost predicate Paging(input: nat, states: seq<Server>, batches: seq<seq<Mutation>>, pages: seq<Reply>)
    decreases |pages|
  {
    && |states| == |batches| == |pages|
    && (pages != [] ==>
          var n := |pages| - 1;
          && Paging(input, states[..n], batches[..n], pages[..n])
          && NextPage(if n == 0 then input else pages[n - 1].cursor, states[n], batches[n], pages[n])
          && (n > 0 ==> states[n - 1].log <= states[n].log))
  }

  /** An incremental answer to a cursor. */
  ghost predicate NextPage(from: nat, s: Server, batch: seq<Mutation>, page: Reply) {
    from <= |s.log| && ReplyFor(s, from, batch, page) && !page.full
  }

  function PagedChanges(pages: seq<Reply>): seq<Revision> {
    if pages == [] then [] else PagedChanges(pages[..|pages| - 1]) + pages[|pages| - 1].changes
  }

  lemma {:induction false} OnePageMore(log: Ledger, longer: Ledger, lo: nat, mid: nat, hi: nat)
    requires lo <= mid <= hi <= |longer| && mid <= |log| && log <= longer
    ensures Items(log, lo, mid) + Items(longer, mid, hi) == Items(longer, lo, hi)
  {
    assert forall k :: 0 <= k < |log| ==> ItemAt(log, k) == ItemAt(longer, k);
  }

  /** Paging delivers every change after the cursor exactly once and in order, although
      the server prunes, sweeps and accepts between the pages; a short page reaches the
      server's cursor. */
  lemma {:induction false} PagingDeliversEachChangeOnce(input: nat, states: seq<Server>, batches: seq<seq<Mutation>>, pages: seq<Reply>)
    requires Paging(input, states, batches, pages) && pages != []
    ensures var last, end := states[|states| - 1], pages[|pages| - 1].cursor;
            && input <= end <= |last.log|
            && PagedChanges(pages) == Items(last.log, input, end)
            && (|pages[|pages| - 1].changes| < 500 ==> end == |last.log|)
    decreases |pages|
  {
    var n := |pages| - 1;
    if n > 0 {
      PagingDeliversEachChangeOnce(input, states[..n], batches[..n], pages[..n]);
      OnePageMore(states[n - 1].log, states[n].log, input, pages[n - 1].cursor, pages[n].cursor);
    } else {
      assert pages[..0] == [];
    }
  }

  /** A snapshot row always carries valid content: no head has lost its envelope. */
  lemma {:induction false} SnapshotRowsAreValid(log: Ledger, n: nat, changes: seq<Revision>, j: nat)
    requires LegalLog(log) && n <= |log| && SnapshotOf(log, n, changes) && j < |changes|
    ensures exists k :: 0 <= k < n && changes[j] == ItemAt(log, k) && LastPurge(log, n, changes[j].itemId) <= k + 1
    ensures ValidContent(changes[j]) && ValidParents(changes[j].parents)
  {
    var r := changes[j];
    assert HeadRow(log, n, r);
    var k := HistoryIndex(log, n, r.itemId, r.revisionId);
    assert Legal(log, k);
    HeadsSurvivePurge(log, n, k);
  }

  // --------------------------------------------------------------- refusals

  /** Once an item has any history, creating it again is refused; only the
      identical resend of a recorded mutation is acknowledged, without effect. */
  lemma {:induction false} CreationIsRefused(s: Server, m: Mutation, now: int)
    requires ServerOk(s) && m.baseRevision == 0 && Current(s, m.item.itemId) != map[]
    ensures Accept(s, m, now) == Ok(s) || Accept(s, m, now) == Err(RevisionConflict) || Accept(s, m, now) == Err(MutationIdReuse)
    ensures Accept(s, m, now).Ok? <==> Recorded(s.log, m)
  {
    match Find(s.log, m.mutationId)
    case Some(k) =>
      if SameMutation(s.log[k].mutation, m) {
        assert RecordedAt(s.log, k, m);
      }
      forall j: nat | RecordedAt(s.log, j, m) ensures j == k {
        assert IdAt(s.log, j) == m.mutationId;
        UniqueIds(s.log, j, k);
      }
    case None =>
      forall j: nat | j < |s.log| ensures !RecordedAt(s.log, j, m) {
        assert IdAt(s.log, j) != m.mutationId;
      }
  }

  /** Exactly when a new, well-formed purge is accepted: its parents are stored,
      carry the base number, and cover every head the server has. */
  lemma {:induction false} PurgeAcceptance(s: Server, m: Mutation, now: int)
    requires ServerOk(s) && ValidMutation(m) && m.item.purged && m.baseRevision > 0
    requires !Logged(s.log, |s.log|, m.mutationId) && |s.log| < MAX_REVISION
    ensures var g := Current(s, m.item.itemId);
            Accept(s, m, now).Ok? <==>
              && Storable(m) && ParentsIn(g, m.item.parents) && MaxRevision(g, m.item.parents) == m.baseRevision
              && Heads(g) <= IdSet(m.item.parents)
  {
    assert Find(s.log, m.mutationId).None?;
    var g := Current(s, m.item.itemId);
    assert (Heads(g) <= IdSet(m.item.parents)) <==> CoversHeads(g, m.item.parents);
  }
}
