/** Short runs from empty caches into the states the other theorems are about: a purge
    that is stuck, a client that is caught up and lacks a head, a queue that jams. */
module Witnesses {
  import opened Revisions
  import opened RevisionLog
  import opened SyncProtocol
  import opened Exchange
  import opened CacheModel
  import opened SyncSystem
  import opened SyncInvariant
  import opened SyncTheorems
  import opened RequestBody
  import opened StuckPurge
  import opened Progress
  import opened Jam

  // ------------------------------------------------------------ single steps

  function Queueing(s: System, k: nat, m: Mutation): System
    requires k < |s.peers|
  {
    var p := s.peers[k];
    var graph := GraphWithQueued(GraphOf(p.cache.revisions, m.item.itemId), m.item);
    var cache := p.cache.(revisions := p.cache.revisions[m.item.itemId := graph], mutations := p.cache.mutations + [m]);
    s.(peers := s.peers[k := p.(cache := cache)], issued := s.issued[m.mutationId := Ticket(m, Some(k))])
  }

  lemma {:induction false} QueuesCreation(s: System, k: nat, r: Revision) returns (t: System)
    requires Reachable(s) && k < |s.peers| && GraphOf(s.peers[k].cache.revisions, r.itemId) == map[]
    requires ValidNew(r, 0) && r.parents == [] && r.revisionId != NO_ID && r.revisionId !in s.issued
    requires forall x :: x in s.issued ==> s.issued[x].mutation.item.itemId != r.itemId
    ensures t == Queueing(s, k, Mutation(r.revisionId, 0, r)) && Reachable(t)
  {
    t := Queueing(s, k, Mutation(r.revisionId, 0, r));
    assert QueueStep(s, t, k, r, 0);
    ReachableNext(s, t);
  }

  lemma {:induction false} QueuesEdit(s: System, k: nat, r: Revision, base: nat, p: Id) returns (t: System)
    requires Reachable(s) && k < |s.peers| && base > 0 && r.parents == [p]
    requires var g := GraphOf(s.peers[k].cache.revisions, r.itemId); p in g && g[p].revision == base && r.revisionId !in g
    requires ValidNew(r, base) && r.revisionId != NO_ID && r.revisionId !in s.issued
    ensures t == Queueing(s, k, Mutation(r.revisionId, base, r)) && Reachable(t)
  {
    SortedIsFixed(r.parents);
    t := Queueing(s, k, Mutation(r.revisionId, base, r));
    PreparedGiven(GraphOf(s.peers[k].cache.revisions, r.itemId), r, base);
    assert QueueStep(s, t, k, r, base);
    ReachableNext(s, t);
  }

  lemma {:induction false} OwnPathKeepsOthers(s: System, more: seq<System>, t: System, k: nat)
    requires OwnPath(s, more, t, k)
    ensures |t.peers| == |s.peers| && forall j :: 0 <= j < |s.peers| && j != k ==> t.peers[j] == s.peers[j]
    decreases |more|
  {
    if more != [] {
      OwnPathKeepsOthers(more[0], more[1..], t, k);
    }
  }

  /** Reachable, and everything accepted at time 0. */
  ghost predicate Calm(s: System) {
    Reachable(s) && forall j {:trigger s.server.log[j]} :: 0 <= j < |s.server.log| ==> s.server.log[j].acceptedAt == 0
  }

  /** What an exchange of client k at time 0 changes. */
  ghost predicate Synchronized(s: System, t: System, k: nat) {
    && k < |s.peers| == |t.peers| && Calm(t) && t.peers[k].cache.mutations == []
    && t.issued == s.issued && GrownBy(s.server.log, t.server.log, s.peers[k].cache.mutations, 0)
    && (forall m :: m in s.peers[k].cache.mutations ==> Recorded(t.server.log, m))
    && (forall j :: 0 <= j < |s.peers| && j != k ==> t.peers[j] == s.peers[j])
    && CursorOf(s.peers[k].cache.cursor) <= |t.server.log| && Answered(s, t, k)
    && (|t.server.log| < PAGE_SIZE ==> CaughtUp(t, k))
  }

  lemma {:induction false} Synchronizes(s: System, k: nat) returns (t: System)
    requires Calm(s) && k < |s.peers| && Sendable(s, k, 0, [], [])
    ensures Synchronized(s, t, k)
  {
    var more;
    more, t := OneExchange(s, k, 0, [], []);
    OwnPathKeepsOthers(s, more, t, k);
    ReachableHasInv(t);
    assert PeerOk(t, k);
  }

  lemma {:induction false} NothingExpires(s: System)
    requires Calm(s)
    ensures ExpiredRows(s.server.log, 0) == {}
  {
  }

  /** A mutation of a byte at most, over one parent at most. */
  predicate Tiny(m: Mutation) {
    && m.item.schemaVersion == 1 && m.item.revision <= 2 && m.baseRevision <= 1
    && |m.item.parents| <= 1 && |m.item.envelope| <= 1
  }

  lemma {:induction false} TinyMutationSize(m: Mutation)
    requires Tiny(m)
    ensures MutationSize(m) <= 1000
  {
    assert ItemSize(m.item) <= 800;
  }

  lemma {:induction false} TinyRequestFits(req: Request, m: Mutation)
    requires req.mutations == [m] && Tiny(m) && CursorOf(req.cursor) <= MAX_REVISION
    ensures Admissible(req)
  {
    CursorsAreShort();
    if req.cursor.Some? { DigitsBound(req.cursor.value, 20); }
    TinyMutationSize(m);
    assert [m][..0] == [] && TotalSize([m]) == MutationSize(m);
  }

  lemma {:induction false} EmptyOrInhabited(rows: seq<nat>)
    ensures rows == [] || exists k :: k in rows
  {
    if rows != [] { assert rows[0] in rows; }
  }

  lemma {:induction false} TinyEditIsSendable(s: System, k: nat, m: Mutation)
    requires Calm(s) && k < |s.peers| && s.peers[k].cache.mutations == [m] && Tiny(m) && |s.server.log| < 100
    requires Unobstructed(m, s.issued)
    ensures Sendable(s, k, 0, [], [])
  {
    ReachableHasInv(s);
    assert PeerOk(s, k);
    TinyRequestFits(QueueRequest(s, k), m);
    NothingExpires(s);
    var rows, ids := EditsAreSendable(s, k, 0);
    EmptyOrInhabited(rows);
    assert rows == [];
    assert ids == [];
  }

  lemma {:induction false} IdleIsSendable(s: System, k: nat)
    requires Calm(s) && k < |s.peers| && s.peers[k].cache.mutations == []
    ensures Sendable(s, k, 0, [], [])
  {
    NothingExpires(s);
    AskingIsSendable(s, k, 0);
  }

  lemma {:induction false} OneRowMore(log: Ledger, longer: Ledger, m: Mutation)
    requires GrownBy(log, longer, [m], 0) && Recorded(longer, m) && !Logged(log, |log|, m.mutationId)
    ensures longer == log + [LedgerRow(m, 0)]
  {
    var k: nat :| RecordedAt(longer, k, m);
    assert k < |log| ==> IdAt(longer, k) == IdAt(log, k);
    assert longer[|log|].mutation in [m];
  }

  lemma {:induction false} RecordedIsLogged(log: Ledger, m: Mutation)
    requires Recorded(log, m)
    ensures Logged(log, |log|, m.mutationId)
  {
    var k: nat :| RecordedAt(log, k, m);
    assert IdAt(log, k) == m.mutationId;
  }

  lemma {:induction false} UnissuedIsNotLogged(s: System, x: Id)
    requires Reachable(s) && x !in s.issued
    ensures !Logged(s.server.log, |s.server.log|, x)
  {
    ReachableHasInv(s);
  }

  lemma {:induction false} CachedIsIssued(s: System, k: nat, item: Id, x: Id)
    requires Reachable(s) && k < |s.peers| && x in GraphOf(s.peers[k].cache.revisions, item)
    ensures x in s.issued && s.issued[x].mutation.item == GraphOf(s.peers[k].cache.revisions, item)[x]
  {
    ReachableHasInv(s);
    assert PeerOk(s, k) && TracksItem(s.peers[k], s.server.log, s.issued, item);
    assert x in Universe(s.issued, item);
  }

  // ---------------------------------------------------------- a first item

  const ITEM: Id := 1
  const FIRST := Revision(ITEM, 1, 1, 1, [], false, false, [0])

  function Empty(n: nat): System {
    System(Server([], {}), seq(n, _ => Peer(EmptyCache(1), 0, None, [])), {}, {}, map[])
  }

  lemma {:induction false} EmptyIsCalm(n: nat)
    ensures Calm(Empty(n))
  {
    assert Init(Empty(n)) && Leads(Empty(n), Empty(n), 0);
  }

  /** Client 0 has created the item and clients 0 and 1 have synchronized. */
  ghost predicate Shared(s: System, n: nat) {
    && Calm(s) && |s.peers| == n >= 2 && s.server.log == [LedgerRow(Mutation(1, 0, FIRST), 0)]
    && s.issued == map[1 := Ticket(Mutation(1, 0, FIRST), Some(0))]
    && (forall k :: 0 <= k < 2 ==> s.peers[k].cache.mutations == [] && HasFirst(s, k))
    && forall k :: 2 <= k < n ==> NewPeer(s.peers[k])
  }

  ghost predicate HasFirst(s: System, k: nat)
    requires k < |s.peers|
  {
    var g := GraphOf(s.peers[k].cache.revisions, ITEM);
    1 in g && g[1] == FIRST
  }

  lemma {:induction false} CaughtUpHasFirst(s: System, k: nat)
    requires Calm(s) && k < |s.peers| && CaughtUp(s, k)
    requires s.server.log == [LedgerRow(Mutation(1, 0, FIRST), 0)]
    ensures HasFirst(s, k)
  {
    Convergence(s, k, ITEM);
    var log, h := s.server.log, Current(s.server, ITEM);
    assert History(log, 0, ITEM) == map[] && ItemAt(log, 0) == FIRST;
    assert h == map[1 := FIRST];
    assert 1 in Heads(h) && !Trashed(h[1]);
  }

  lemma {:induction false} FirstIsCreated(n: nat) returns (s: System)
    requires n >= 2
    ensures Calm(s) && |s.peers| == n && s.server.log == [] && s.peers[0].cache.mutations == [Mutation(1, 0, FIRST)]
    ensures s.issued == map[1 := Ticket(Mutation(1, 0, FIRST), Some(0))]
    ensures forall k :: 1 <= k < n ==> NewPeer(s.peers[k])
  {
    EmptyIsCalm(n);
    s := QueuesCreation(Empty(n), 0, FIRST);
    assert s.peers[0].cache.mutations == [Mutation(1, 0, FIRST)];
  }

  lemma {:induction false} FirstExchange(n: nat) returns (s: System)
    requires n >= 2
    ensures Calm(s) && |s.peers| == n && s.server.log == [LedgerRow(Mutation(1, 0, FIRST), 0)]
    ensures s.issued == map[1 := Ticket(Mutation(1, 0, FIRST), Some(0))]
    ensures s.peers[0].cache.mutations == [] && HasFirst(s, 0)
    ensures forall k :: 1 <= k < n ==> NewPeer(s.peers[k])
  {
    var a := FirstIsCreated(n);
    var m := Mutation(1, 0, FIRST);
    TinyEditIsSendable(a, 0, m);
    s := Synchronizes(a, 0);
    assert m in a.peers[0].cache.mutations;
    OneRowMore(a.server.log, s.server.log, m);
    CaughtUpHasFirst(s, 0);
  }

  lemma {:induction false} FirstExchanges(n: nat) returns (s: System)
    requires n >= 2
    ensures Shared(s, n)
  {
    var b := FirstExchange(n);
    IdleIsSendable(b, 1);
    s := Synchronizes(b, 1);
    assert s.server.log == b.server.log;
    CaughtUpHasFirst(s, 1);
  }

  // -------------------------------------------------------- a stuck purge

  const EDITED := Revision(ITEM, 1, 2, 2, [1], false, false, [0])
  const STALE_PURGE := Revision(ITEM, 1, 2, 3, [1], true, true, [])

  lemma {:induction false} NewIdIsNotCached(s: System, k: nat, x: Id)
    requires Reachable(s) && k < |s.peers| && x !in s.issued
    ensures x !in GraphOf(s.peers[k].cache.revisions, ITEM)
  {
    if x in GraphOf(s.peers[k].cache.revisions, ITEM) { CachedIsIssued(s, k, ITEM, x); }
  }

  lemma {:induction false} FirstIsEdited() returns (s: System)
    ensures Calm(s) && |s.peers| == 2 && s.peers[0].cache.mutations == [Mutation(2, 1, EDITED)]
    ensures s.peers[1].cache.mutations == [] && HasFirst(s, 1) && |s.server.log| == 1
    ensures s.issued == map[1 := Ticket(Mutation(1, 0, FIRST), Some(0)), 2 := Ticket(Mutation(2, 1, EDITED), Some(0))]
  {
    var a := FirstExchanges(2);
    NewIdIsNotCached(a, 0, 2);
    s := QueuesEdit(a, 0, EDITED, 1, 1);
    assert s.peers[0].cache.mutations == [Mutation(2, 1, EDITED)];
  }

  /** Client 0 saves and sends an edit; client 1 has not heard of it. */
  lemma {:induction false} EditIsSent() returns (s: System)
    ensures Calm(s) && |s.peers| == 2 && s.peers[1].cache.mutations == [] && HasFirst(s, 1)
    ensures s.issued.Keys == {1, 2} && s.issued[2].mutation.item == EDITED && Logged(s.server.log, |s.server.log|, 2)
  {
    var b := FirstIsEdited();
    var m := Mutation(2, 1, EDITED);
    TinyEditIsSendable(b, 0, m);
    s := Synchronizes(b, 0);
    assert m in b.peers[0].cache.mutations;
    RecordedIsLogged(s.server.log, m);
  }

  /** A purge can get stuck: client 1 deletes the item for good without that edit. */
  lemma {:induction false} PurgeGetsStuck() returns (s: System)
    ensures Reachable(s) && |s.peers| == 2 && Misses(s, 1, 3, 2)
  {
    var a := EditIsSent();
    NewIdIsNotCached(a, 1, 3);
    s := QueuesEdit(a, 1, STALE_PURGE, 1, 1);
    UnissuedIsNotLogged(a, 3);
    ReachableHasInv(a);
    LoggedInHistory(a.server.log, |a.server.log|, a.issued, 2);
    CachedIsIssued(a, 1, ITEM, 1);
    var u := Universe(s.issued, ITEM);
    assert s.issued[1] == a.issued[1] && u[1] == FIRST;
    assert !Descends(u, 1, 2);
  }

  // ------------------------------------------------- a client lacks a head

  const PURGE := Revision(ITEM, 1, 2, 9, [1], true, true, [])
  const LATE_DELETION := Revision(ITEM, 1, 2, 5, [1], true, false, [0])

  const PURGED_LOG: Ledger := [LedgerRow(Mutation(1, 0, FIRST), 0), LedgerRow(Mutation(9, 1, PURGE), 0)]
  const DELETED_LOG: Ledger := PURGED_LOG + [LedgerRow(Mutation(5, 1, LATE_DELETION), 0)]

  lemma {:induction false} PurgeIsSendable(s: System)
    requires Calm(s) && |s.peers| > 0 && s.peers[0].cache.mutations == [Mutation(9, 1, PURGE)]
    requires s.server.log == PURGED_LOG[..1]
    ensures Sendable(s, 0, 0, [], [])
  {
    ReachableHasInv(s);
    assert PeerOk(s, 0);
    var m := Mutation(9, 1, PURGE);
    TinyRequestFits(QueueRequest(s, 0), m);
    NothingExpires(s);
    var log := s.server.log;
    assert History(log, 0, ITEM) == map[] && ItemAt(log, 0) == FIRST;
    assert Current(s.server, ITEM) == map[1 := FIRST];
    assert !TombstoneRefusal(Current(s.server, ITEM), m);
  }

  lemma {:induction false} FirstIsPurged() returns (s: System)
    ensures Calm(s) && |s.peers| == 3 && s.server.log == PURGED_LOG[..1] && s.issued.Keys == {1, 9}
    ensures s.peers[0].cache.mutations == [Mutation(9, 1, PURGE)] && !Logged(s.server.log, 1, 9)
    ensures s.peers[1].cache.mutations == [] && HasFirst(s, 1) && NewPeer(s.peers[2])
  {
    var a := FirstExchanges(3);
    NewIdIsNotCached(a, 0, 9);
    UnissuedIsNotLogged(a, 9);
    s := QueuesEdit(a, 0, PURGE, 1, 1);
    assert s.peers[0].cache.mutations == [Mutation(9, 1, PURGE)];
  }

  /** Client 0 deletes the item for good, and the server takes it. */
  lemma {:induction false} PurgeIsSent() returns (s: System)
    ensures Calm(s) && |s.peers| == 3 && s.server.log == PURGED_LOG && s.issued.Keys == {1, 9}
    ensures s.peers[1].cache.mutations == [] && HasFirst(s, 1) && NewPeer(s.peers[2])
  {
    var b := FirstIsPurged();
    var m := Mutation(9, 1, PURGE);
    PurgeIsSendable(b);
    s := Synchronizes(b, 0);
    assert m in b.peers[0].cache.mutations;
    OneRowMore(b.server.log, s.server.log, m);
  }

  /** Client 1 deletes it before it hears of that. */
  lemma {:induction false} DeletionIsSent() returns (s: System)
    ensures Calm(s) && |s.peers| == 3 && s.server.log == DELETED_LOG && NewPeer(s.peers[2])
  {
    var a := PurgeIsSent();
    NewIdIsNotCached(a, 1, 5);
    var b := QueuesEdit(a, 1, LATE_DELETION, 1, 1);
    var m := Mutation(5, 1, LATE_DELETION);
    assert b.peers[1].cache.mutations == [m];
    UnissuedIsNotLogged(a, 5);
    TinyEditIsSendable(b, 1, m);
    s := Synchronizes(b, 1);
    assert m in b.peers[1].cache.mutations;
    OneRowMore(b.server.log, s.server.log, m);
  }

  lemma {:induction false} TwoHeads()
    ensures var h := History(DELETED_LOG, 3, ITEM);
            Heads(h) == {5, 9} && h[5] == LATE_DELETION && h[9] == PURGE
    ensures LastPurge(DELETED_LOG, 3, ITEM) == 2
  {
    var log := DELETED_LOG;
    assert ItemAt(log, 0) == FIRST && ItemAt(log, 1) == PURGE && ItemAt(log, 2) == LATE_DELETION;
    assert History(log, 0, ITEM) == map[];
    assert History(log, 1, ITEM) == map[1 := FIRST];
    assert History(log, 2, ITEM) == map[1 := FIRST, 9 := PURGE];
    assert History(log, 3, ITEM) == map[1 := FIRST, 9 := PURGE, 5 := LATE_DELETION];
    assert LastPurge(log, 2, ITEM) == 2;
    var h := History(log, 3, ITEM);
    assert 1 in h[9].parents && h[9].parents == [1] && h[5].parents == [1] && h[1].parents == [];
    assert Referenced(h, 1) && !Referenced(h, 5) && !Referenced(h, 9);
  }

  /** A client can catch up and lack a head: the snapshot client 2 starts from lists the
      late deletion before the tombstone. */
  lemma {:induction false} CaughtUpLacksHead() returns (s: System)
    ensures Reachable(s) && CaughtUp(s, 2)
    ensures 5 in Heads(Current(s.server, ITEM)) && Shown(s.peers[2], ITEM) == {9}
  {
    var a := DeletionIsSent();
    IdleIsSendable(a, 2);
    s := Synchronizes(a, 2);
    assert s.server.log == DELETED_LOG;
    TwoHeads();
    ReachableHasInv(s);
    assert 1 !in s.server.kept;
    OrderedSnapshotDrops(s.server.log, 3, s.peers[2].rows, ITEM, 5);
    OrderedSnapshotDrops(s.server.log, 3, s.peers[2].rows, ITEM, 9);
    Convergence(s, 2, ITEM);
  }

  // ----------------------------------------------------------- a jammed queue

  /** One item of 96 KiB jams a client for good. */
  lemma {:induction false} LargeItemJams() returns (s: System)
    ensures Reachable(s) && |s.peers| == 1 && |s.peers[0].cache.mutations| == 1 && Jammed(s, 0)
  {
    EmptyIsCalm(1);
    var r := FIRST.(envelope := seq(98304, _ => 0));
    s := QueuesCreation(Empty(1), 0, r);
    assert s.peers[0].cache.mutations == [Mutation(1, 0, r)];
    assert Mutation(1, 0, r) in s.peers[0].cache.mutations;
    WhatJams(s, 0);
  }
}
