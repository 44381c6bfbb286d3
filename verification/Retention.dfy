/** What an exchange keeps: the changes that can still be sent one by one, and the items
    the sweep leaves alone. */
module Retention {
  import opened Revisions
  import opened RevisionLog
  import opened SyncProtocol
  import opened Exchange

  /** A purge of the item among the rows lo..hi. */
  ghost predicate PurgedWithin(log: Ledger, lo: nat, hi: nat, item: Id)
    requires hi <= |log|
  {
    exists k {:trigger ItemAt(log, k)} :: lo <= k < hi && ItemAt(log, k).itemId == item && ItemAt(log, k).purged
  }

  /** Change c, stored before or new, is not removed by a purge on the way from s to t. */
  ghost predicate Kept(s: Server, t: Server, c: nat)
    requires 1 <= c <= |t.log|
  {
    && (c <= |s.log| ==> c in s.kept)
    && !PurgedWithin(t.log, if c < |s.log| then |s.log| else c, |t.log|, ItemAt(t.log, c - 1).itemId)
  }

  lemma {:induction false} AcceptKeeps(s: Server, m: Mutation, now: int, c: nat)
    requires ServerOk(s) && Accept(s, m, now).Ok?
    requires 1 <= c <= |Accept(s, m, now).value.log|
    ensures c in Accept(s, m, now).value.kept <==> Kept(s, Accept(s, m, now).value, c)
  {
    var u := Accept(s, m, now).value;
    if u != s {
      assert u.log[|s.log|] == LedgerRow(m, now) && ItemAt(u.log, |s.log|) == m.item;
      if c <= |s.log| { assert u.log[c - 1] == s.log[c - 1]; }
    }
  }

  lemma {:induction false} KeptTwice(s: Server, u: Server, t: Server, c: nat)
    requires 1 <= c <= |t.log| && s.log <= u.log <= t.log
    requires c <= |u.log| ==> (c in u.kept <==> Kept(s, u, c))
    ensures Kept(s, t, c) <==> Kept(u, t, c)
  {
    var item, from := ItemAt(t.log, c - 1).itemId, if c < |s.log| then |s.log| else c;
    assert forall k :: 0 <= k < |u.log| ==> ItemAt(t.log, k) == ItemAt(u.log, k);
    if c <= |u.log| {
      assert PurgedWithin(t.log, from, |t.log|, item) <==>
               PurgedWithin(u.log, from, |u.log|, item) || PurgedWithin(t.log, |u.log|, |t.log|, item);
    }
  }

  lemma {:induction false} BatchKeeps(s: Server, ms: seq<Mutation>, now: int, c: nat)
    requires ServerOk(s) && AllValid(ms) && AcceptAll(s, ms, now).Ok?
    requires 1 <= c <= |AcceptAll(s, ms, now).value.log|
    ensures c in AcceptAll(s, ms, now).value.kept <==> Kept(s, AcceptAll(s, ms, now).value, c)
    decreases |ms|
  {
    if ms != [] {
      assert ms[0] in ms && forall x :: x in ms[1..] ==> x in ms;
      AcceptKeepsServer(s, ms[0], now);
      var u := Accept(s, ms[0], now).value;
      AcceptAllKeepsServer(u, ms[1..], now);
      BatchKeeps(u, ms[1..], now, c);
      if c <= |u.log| { AcceptKeeps(s, ms[0], now, c); }
      KeptTwice(s, u, AcceptAll(s, ms, now).value, c);
    }
  }

  /** Change c is stored after an exchange from s to t: new, or stored before and at most
      30 days old; and no purge of its item came after it in this exchange. */
  ghost predicate Survives(s: Server, t: Server, now: int, c: nat)
    requires 1 <= c <= |t.log|
  {
    && (c <= |s.log| ==> c in s.kept && s.log[c - 1].acceptedAt >= now - 30 * 24 * 60 * 60 * 1_000_000_000)
    && forall k :: c <= k < |t.log| && |s.log| <= k ==>
         !(t.log[k].mutation.item.purged && t.log[k].mutation.item.itemId == t.log[c - 1].mutation.item.itemId)
  }

  lemma {:induction false} KeptSurvives(s: Server, t: Server, now: int, c: nat)
    requires 1 <= c <= |t.log| && s.log <= t.log
    ensures Kept(Prune(s, now), t, c) <==> Survives(s, t, now, c)
  {
    assert forall k :: 0 <= k < |t.log| ==> ItemAt(t.log, k) == t.log[k].mutation.item;
  }

  lemma {:induction false} ExchangeKeeps(s: Server, input: nat, ms: seq<Mutation>, now: int,
                                         rows: seq<nat>, ids: seq<Id>, t: Server, r: Reply, c: nat)
    requires ServerOk(s) && AllValid(ms) && Exchanged(s, input, ms, now, rows, ids, t, r) && 1 <= c <= |t.log|
    ensures s.log <= t.log && (c in t.kept <==> Kept(Prune(s, now), t, c))
  {
    ProcessedFits(s, ms, now, rows, ids);
    SweepStarts(s, now, rows);
    var u := ProcessPhases(s, ms, now, rows, ids);
    if c <= |u.log| { BatchKeeps(Prune(s, now), Tombstones(s.log, rows, ids), now, c); }
    BatchKeeps(u, ms, now, c);
    KeptTwice(Prune(s, now), u, t, c);
  }

  /** Exactly these changes survive an exchange, and the answer is incremental if and
      only if all after the input cursor do. */
  lemma {:induction false} SurvivingChanges(s: Server, input: nat, ms: seq<Mutation>, now: int,
                                            rows: seq<nat>, ids: seq<Id>, t: Server, r: Reply)
    requires ServerOk(s) && AllValid(ms) && Exchanged(s, input, ms, now, rows, ids, t, r)
    ensures forall c :: 1 <= c <= |t.log| ==> (c in t.kept <==> Survives(s, t, now, c))
    ensures !r.full <==> forall c :: input < c <= |t.log| ==> Survives(s, t, now, c)
  {
    forall c | 1 <= c <= |t.log| ensures c in t.kept <==> Survives(s, t, now, c) {
      ExchangeKeeps(s, input, ms, now, rows, ids, t, r, c);
      KeptSurvives(s, t, now, c);
    }
  }

  // ----------------------------------------------- what the sweep touches

  /** Row k is the only head of its item, deleted but not purged, for 30 days at least. */
  ghost predicate OldTrash(log: Ledger, now: int, k: nat)
    requires k < |log|
  {
    var r := log[k].mutation.item;
    && r.deleted && !r.purged && log[k].acceptedAt <= now - 30 * 24 * 60 * 60 * 1_000_000_000
    && Heads(History(log, |log|, r.itemId)) == {log[k].mutation.mutationId}
  }

  ghost predicate IsOldTrash(log: Ledger, now: int, item: Id) {
    exists k {:trigger ItemAt(log, k)} :: 0 <= k < |log| && ItemAt(log, k).itemId == item && OldTrash(log, now, k)
  }

  lemma {:induction false} SweptTombstone(log: Ledger, longer: Ledger, now: int, rows: seq<nat>, ids: seq<Id>, j: nat, item: Id)
    requires LegalLog(longer) && |rows| == |ids| && (forall k :: k in rows ==> k < |log|) && FreshIds(log, ids) && j < |ids|
    requires GrownBy(log, longer, Tombstones(log, rows, ids), now) && ids[j] in History(longer, |longer|, item)
    ensures rows[j] in rows && History(longer, |longer|, item)[ids[j]] == Tombstone(ItemAt(log, rows[j]), ids[j]).item
  {
    var ts := Tombstones(log, rows, ids);
    var k := HistoryIndex(longer, |longer|, item, ids[j]);
    assert ids[j] in ids;
    LoggedPrefix(log, longer, |log|, ids[j]);
    var i :| 0 <= i < |ts| && ts[i] == longer[k].mutation;
    assert rows[i] in rows && ts[i] == Tombstone(ItemAt(log, rows[i]), ids[i]) && i == j;
  }

  /** The tombstone the sweep puts over a row. */
  ghost predicate BuriesRow(r: Revision, over: Revision) {
    && r.itemId == over.itemId && r.schemaVersion == over.schemaVersion && r.revision == over.revision + 1
    && r.parents == [over.revisionId] && r.deleted && r.purged && r.envelope == []
  }

  lemma {:induction false} OldTrashIsBuried(s: Server, input: nat, now: int, rows: seq<nat>, ids: seq<Id>, t: Server, r: Reply, k: nat)
    returns (x: Id)
    requires ServerOk(s) && Exchanged(s, input, [], now, rows, ids, t, r) && k < |s.log| && OldTrash(s.log, now, k)
    ensures var item, h := ItemAt(s.log, k).itemId, IdAt(s.log, k);
            && x in Current(t, item) && Heads(Current(t, item)) == {x} && x !in Current(s, item)
            && h in Current(s, item) && Current(s, item)[h] == ItemAt(s.log, k) && BuriesRow(Current(t, item)[x], Current(s, item)[h])
  {
    ProcessedFits(s, [], now, rows, ids);
    var u := ProcessPhases(s, [], now, rows, ids);
    var item := ItemAt(s.log, k).itemId;
    assert k in ExpiredRows(s.log, now);
    var j :| 0 <= j < |rows| && rows[j] == k;
    x := ids[j];
    assert x in ids && x in Current(t, item);
    if x in Current(s, item) {
      var i := HistoryIndex(s.log, |s.log|, item, x);
    }
    SweptTombstone(s.log, t.log, now, rows, ids, j, item);
    HistoryRow(s.log, |s.log|, k);
  }

  lemma {:induction false} OthersAreLeftAlone(s: Server, input: nat, now: int, rows: seq<nat>, ids: seq<Id>, t: Server, r: Reply, item: Id)
    requires ServerOk(s) && Exchanged(s, input, [], now, rows, ids, t, r) && !IsOldTrash(s.log, now, item)
    ensures Current(t, item) == Current(s, item)
  {
    ProcessedFits(s, [], now, rows, ids);
    var u := ProcessPhases(s, [], now, rows, ids);
    forall k | k in rows ensures ItemAt(s.log, k).itemId != item {
      assert k in ExpiredRows(s.log, now);
      assert OldTrash(s.log, now, k);
    }
  }

  /** An exchange without a batch changes exactly the items that are old trash: each of
      them ends with a tombstone over that row as its only head, every other keeps all
      its revisions as they are. */
  lemma {:induction false} OnlyOldTrashIsSwept(s: Server, input: nat, now: int, rows: seq<nat>, ids: seq<Id>, t: Server, r: Reply, item: Id)
    requires ServerOk(s) && Exchanged(s, input, [], now, rows, ids, t, r)
    ensures if IsOldTrash(s.log, now, item)
            then exists x, h :: x in Current(t, item) && Heads(Current(t, item)) == {x} && x !in Current(s, item)
                                && h in Current(s, item) && Heads(Current(s, item)) == {h} && BuriesRow(Current(t, item)[x], Current(s, item)[h])
            else Current(t, item) == Current(s, item)
  {
    if IsOldTrash(s.log, now, item) {
      var k :| 0 <= k < |s.log| && ItemAt(s.log, k).itemId == item && OldTrash(s.log, now, k);
      var x := OldTrashIsBuried(s, input, now, rows, ids, t, r, k);
      assert Heads(Current(s, item)) == {IdAt(s.log, k)};
    } else {
      OthersAreLeftAlone(s, input, now, rows, ids, t, r, item);
    }
  }
}
