/** What the protocol guarantees in every reachable state. */
module SyncTheorems {
  import opened Revisions
  import opened RevisionLog
  import opened SyncProtocol
  import opened Exchange
  import opened CacheModel
  import opened ItemService
  import opened Replica
  import opened SyncSystem
  import opened SyncInvariant
  import opened RequestBody
  import opened AnswersExist

  // ------------------------------------------------------------ convergence

  /** The heads a client shows for an item (allItemHeads). */
  function Shown(p: Peer, item: Id): set<Id> {
    Heads(GraphOf(p.cache.revisions, item))
  }

  /** A client with nothing queued at the server's cursor shows, for every item, exactly
      the server's heads but those its last snapshot lost, which are all trashed: every
      live and every tombstone head, and no head the server lacks. */
  lemma {:induction false} Convergence(s: System, k: nat, item: Id)
    requires Reachable(s) && k < |s.peers| && s.peers[k].cache.mutations == []
    requires CursorOf(s.peers[k].cache.cursor) == |s.server.log|
    ensures var server := Current(s.server, item);
            var p := s.peers[k];
            && Shown(p, item) == Heads(server) - Lost(p.rows, item)
            && (forall x :: x in Lost(p.rows, item) ==> x in server && Trashed(server[x]))
            && (forall x :: x in Shown(p, item) ==> GraphOf(p.cache.revisions, item)[x] == server[x])
  {
    ReachableHasInv(s);
    var p := s.peers[k];
    assert PeerOk(s, k) && TracksItem(p, s.server.log, s.issued, item);
    assert QueueGraph(p.cache.mutations, item) == map[];
    Converged(Universe(s.issued, item), Current(s.server, item), GraphOf(p.cache.revisions, item), Lost(p.rows, item));
  }

  /** Two clients that have both caught up agree on everything but trashed heads. */
  lemma {:induction false} ClientsAgree(s: System, j: nat, k: nat, item: Id, x: Id)
    requires Reachable(s) && j < |s.peers| && k < |s.peers|
    requires s.peers[j].cache.mutations == [] && s.peers[k].cache.mutations == []
    requires CursorOf(s.peers[j].cache.cursor) == |s.server.log| == CursorOf(s.peers[k].cache.cursor)
    requires x in Shown(s.peers[j], item)
    ensures x in Shown(s.peers[k], item) || Trashed(GraphOf(s.peers[j].cache.revisions, item)[x])
  {
    Convergence(s, j, item);
    Convergence(s, k, item);
  }

  /** No cached item is ever hidden: a non-empty cached graph always has a head. */
  lemma {:induction false} CachedItemsAreShown(s: System, k: nat, item: Id)
    requires Reachable(s) && k < |s.peers|
    requires GraphOf(s.peers[k].cache.revisions, item) != map[]
    ensures Numbered(GraphOf(s.peers[k].cache.revisions, item))
    ensures Shown(s.peers[k], item) != {}
  {
    ReachableHasInv(s);
    var g := GraphOf(s.peers[k].cache.revisions, item);
    assert PeerOk(s, k) && TracksItem(s.peers[k], s.server.log, s.issued, item);
    forall x, p | x in g && p in g[x].parents && p in g ensures g[p].revision < g[x].revision {
      assert x in s.issued && WellIssued(s.issued, x);
      var m := s.issued[x].mutation;
      assert Universe(s.issued, item)[p].revision <= MaxRevision(Universe(s.issued, item), m.item.parents);
    }
    HeadExists(g);
  }

  // ------------------------------------------------------- progress of a sync

  /** Any answer can be applied, and an answer to an up-to-date request from the
      current state either reaches the server's cursor or advances a full page. */
  lemma {:induction false} DeliveryAdvances(s: System, k: nat, r: Reply)
    requires Reachable(s) && k < |s.peers| && s.peers[k].outstanding.Some?
    requires (s.peers[k].outstanding.value, r) in s.replies
    ensures var p := s.peers[k]; var o := p.outstanding.value;
            && ApplyReply(p.cache, r).Ok?
            && p.cache.mutations == o.mutations + ApplyReply(p.cache, r).value.mutations
            && CursorOf(o.cursor) == CursorOf(p.cache.cursor) <= r.cursor <= |s.server.log|
            && (ReplyFor(s.server, CursorOf(o.cursor), o.mutations, r) ==>
                  r.cursor == |s.server.log| || r.cursor == CursorOf(p.cache.cursor) + PAGE_SIZE)
  {
    ReachableHasInv(s);
    assert PeerOk(s, k);
    DeliverySucceeds(s, k, r);
  }

  // ------------------------------------------------- no loss, exactly once

  /** Whatever a client created is still queued there or recorded by the server, and
      the server records it under exactly one cursor, with its content unchanged. */
  lemma {:induction false} NoLossExactlyOnce(s: System, k: nat, x: Id)
    requires Reachable(s) && k < |s.peers|
    requires x in s.issued && s.issued[x].owner == Some(k)
    ensures Logged(s.server.log, |s.server.log|, x)
            || EarlierIn(s.peers[k].cache.mutations, |s.peers[k].cache.mutations|, x)
    ensures forall a, b :: (0 <= a < |s.server.log| && 0 <= b < |s.server.log|
                            && IdAt(s.server.log, a) == x && IdAt(s.server.log, b) == x) ==> a == b
    ensures forall a :: 0 <= a < |s.server.log| && IdAt(s.server.log, a) == x ==>
              s.server.log[a].mutation == s.issued[x].mutation
  {
    ReachableHasInv(s);
    var log := s.server.log;
    assert PeerOk(s, k);
    forall a: nat, b: nat | a < |log| && b < |log| && IdAt(log, a) == x && IdAt(log, b) == x ensures a == b {
      UniqueIds(log, a, b);
    }
  }

  /** A request whose answer was lost can be handled again at any later time: its
      mutations are acknowledged and only pruning and the sweep change anything. */
  lemma {:induction false} ReplayedRequestChangesNothing(s: System, req: Request, r: Reply, now: int, rows: seq<nat>, ids: seq<Id>)
    requires Reachable(s) && (req, r) in s.replies
    requires AllValid(req.mutations)
    requires Enumerates(rows, ExpiredRows(s.server.log, now))
    requires |rows| == |ids| && FreshIds(s.server.log, ids) && |s.server.log| + |rows| <= MAX_REVISION
    ensures Process(s.server, req.mutations, now, rows, ids) == Process(s.server, [], now, rows, ids)
  {
    ReachableHasInv(s);
    assert (req, r).0 in s.requests && RequestOk(req, s) && ReplyOk(req, r, s.server.log);
    forall m | m in req.mutations ensures Recorded(s.server.log, m) {
      var j :| 0 <= j < |req.mutations| && req.mutations[j] == m;
      assert Logged(s.server.log, |s.server.log|, m.mutationId);
      var k :| 0 <= k < |s.server.log| && IdAt(s.server.log, k) == m.mutationId;
      assert s.server.log[k].mutation == m;
      assert RecordedAt(s.server.log, k, m);
    }
    ResentBatchOnlySweeps(s.server, req.mutations, now, rows, ids);
  }

  // ------------------------------------------------ offline edits are accepted

  /** The only grounds on which the server turns down a queued mutation: a purge
      that misses a head, or a live edit of nothing but a tombstone head. */
  predicate TombstoneRefusal(g: Graph, m: Mutation) {
    (m.item.purged && !CoversHeads(g, m.item.parents)) || Resurrects(g, m.item)
  }

  /** Some mutation of the batch that is not recorded yet is refused on those grounds
      once those before it are appended. */
  ghost predicate Blocked(s: Server, ms: seq<Mutation>, now: int)
    decreases |ms|
  {
    ms != [] &&
    if Find(s.log, ms[0].mutationId).Some? then Blocked(s, ms[1..], now)
    else TombstoneRefusal(Current(s, ms[0].item.itemId), ms[0]) || Blocked(Append(s, ms[0], now), ms[1..], now)
  }

  lemma {:induction false} CreatorLogged(log: Ledger, n: nat, item: Id) returns (k: nat)
    requires LegalLog(log) && n <= |log| && History(log, n, item) != map[]
    ensures k < n && ItemAt(log, k).itemId == item && log[k].mutation.baseRevision == 0
  {
    if History(log, n - 1, item) != map[] {
      k := CreatorLogged(log, n - 1, item);
    } else {
      k := n - 1;
      assert Legal(log, k);
    }
  }

  /** Parents that are logged and registered are parents in the current graph. */
  lemma {:induction false} ParentsAreStored(s: Server, issued: map<Id, Ticket>, x: Id)
    requires LegalLog(s.log) && LogIssued(s.log, issued) && Registry(issued) && x in issued
    requires forall p :: p in issued[x].mutation.item.parents ==> Logged(s.log, |s.log|, p)
    ensures var m := issued[x].mutation; var g := Current(s, m.item.itemId);
            Distinct(m.item.parents) && ParentsIn(g, m.item.parents) && MaxRevision(g, m.item.parents) == m.baseRevision
  {
    var m := issued[x].mutation;
    var g := Current(s, m.item.itemId);
    assert WellIssued(issued, x);
    forall p | p in m.item.parents ensures p in g && g[p] == issued[p].mutation.item {
      LoggedInHistory(s.log, |s.log|, issued, p);
      assert p in Universe(issued, m.item.itemId);
    }
    MaxRevisionAgrees(g, Universe(issued, m.item.itemId), m.item.parents);
  }

  /** No revision of an item is recorded before the mutation that created it. */
  lemma {:induction false} NothingBeforeCreation(s: Server, issued: map<Id, Ticket>, m: Mutation)
    requires LegalLog(s.log) && LogIssued(s.log, issued) && Registry(issued)
    requires m.mutationId in issued && issued[m.mutationId].mutation == m && m.baseRevision == 0
    requires !Logged(s.log, |s.log|, m.mutationId)
    ensures Current(s, m.item.itemId) == map[]
  {
    assert Creates(issued, m.mutationId);
    if Current(s, m.item.itemId) != map[] {
      var k := CreatorLogged(s.log, |s.log|, m.item.itemId);
      assert Creates(issued, IdAt(s.log, k));
    }
  }

  /** A registered mutation whose parents are stored is accepted unless a tombstone
      stands in its way. */
  lemma {:induction false} AcceptedUnlessTombstone(s: Server, issued: map<Id, Ticket>, m: Mutation, now: int)
    requires Storable(m)
    requires LegalLog(s.log) && LogIssued(s.log, issued) && Registry(issued)
    requires m.mutationId in issued && issued[m.mutationId].mutation == m && |s.log| < MAX_REVISION
    requires forall p :: p in m.item.parents ==> Logged(s.log, |s.log|, p)
    ensures Find(s.log, m.mutationId).Some? ==> Accept(s, m, now) == Ok(s)
    ensures Find(s.log, m.mutationId).None? ==>
              Accept(s, m, now) == if TombstoneRefusal(Current(s, m.item.itemId), m) then Err(RevisionConflict) else Ok(Append(s, m, now))
  {
    match Find(s.log, m.mutationId)
    case Some(k) =>
      assert s.log[k].mutation == m;
    case None =>
      var item := m.item.itemId;
      var g := Current(s, item);
      assert WellIssued(issued, m.mutationId);
      ParentsAreStored(s, issued, m.mutationId);
      if m.baseRevision == 0 {
        NothingBeforeCreation(s, issued, m);
        assert Heads(g) == {};
      }
  }

  ghost predicate Ready(s: Server, issued: map<Id, Ticket>, ms: seq<Mutation>) {
    && (forall m :: m in ms ==> m.mutationId in issued && issued[m.mutationId].mutation == m)
    && ParentsFirst(ms, s.log)
  }

  lemma {:induction false} ReadyTail(s: Server, t: Server, issued: map<Id, Ticket>, ms: seq<Mutation>)
    requires Ready(s, issued, ms) && ms != [] && s.log <= t.log && Logged(t.log, |t.log|, ms[0].mutationId)
    ensures Ready(t, issued, ms[1..])
  {
    var rest := ms[1..];
    assert forall m :: m in rest ==> m in ms;
    forall j, p | 0 <= j < |rest| && p in rest[j].item.parents ensures Logged(t.log, |t.log|, p) || EarlierIn(rest, j, p) {
      assert rest[j] == ms[j + 1];
      assert Logged(s.log, |s.log|, p) || EarlierIn(ms, j + 1, p);
      if Logged(s.log, |s.log|, p) {
        LoggedStays(s.log, t.log, p);
      } else {
        var i :| 0 <= i < j + 1 && i < |ms| && ms[i].mutationId == p;
        if i > 0 { assert rest[i - 1].mutationId == p; }
      }
    }
  }

  lemma {:induction false} LogIssuedAppend(s: Server, issued: map<Id, Ticket>, m: Mutation, now: int)
    requires LogIssued(s.log, issued) && m.mutationId in issued && issued[m.mutationId].mutation == m
    ensures LogIssued(Append(s, m, now).log, issued)
  {
    var log, longer := s.log, Append(s, m, now).log;
    forall k | 0 <= k < |longer| ensures IdAt(longer, k) in issued && issued[IdAt(longer, k)].mutation == longer[k].mutation {
      if k < |log| { assert longer[k] == log[k] && IdAt(log, k) in issued; }
    }
  }

  /** A batch of registered mutations in queue order is accepted whole exactly when
      no mutation of it is blocked by a tombstone. */
  lemma {:induction false} BatchAcceptance(s: Server, issued: map<Id, Ticket>, ms: seq<Mutation>, now: int)
    requires ServerOk(s) && LogIssued(s.log, issued) && Registry(issued) && Ready(s, issued, ms) && AllValid(ms)
    requires forall m :: m in ms ==> Storable(m)
    requires |s.log| + |ms| <= MAX_REVISION
    ensures AcceptAll(s, ms, now).Ok? <==> !Blocked(s, ms, now)
    ensures AcceptAll(s, ms, now).Err? ==> AcceptAll(s, ms, now) == Err(RevisionConflict)
    decreases |ms|
  {
    if ms != [] {
      var m := ms[0];
      assert m in ms;
      forall p | p in m.item.parents ensures Logged(s.log, |s.log|, p) {
        assert p in ms[0].item.parents;
      }
      AcceptedUnlessTombstone(s, issued, m, now);
      if Accept(s, m, now).Ok? {
        AcceptKeepsServer(s, m, now);
        var t := Accept(s, m, now).value;
        if t != s { LogIssuedAppend(s, issued, m, now); }
        var k: nat :| RecordedAt(t.log, k, m);
        assert IdAt(t.log, k) == m.mutationId;
        ReadyTail(s, t, issued, ms);
        assert forall x :: x in ms[1..] ==> x in ms;
        BatchAcceptance(t, issued, ms[1..], now);
      }
    }
  }

  /** An edit no tombstone can ever block: not a purge, and not a live edit of
      nothing but a tombstone. */
  ghost predicate Unobstructed(m: Mutation, issued: map<Id, Ticket>) {
    && !m.item.purged
    && (!m.item.deleted && |m.item.parents| == 1 ==>
          m.item.parents[0] in issued && !issued[m.item.parents[0]].mutation.item.purged)
  }

  lemma {:induction false} UnobstructedIsNotBlocked(s: Server, issued: map<Id, Ticket>, ms: seq<Mutation>, now: int)
    requires LogIssued(s.log, issued)
    requires forall m :: m in ms ==> Unobstructed(m, issued) && m.mutationId in issued && issued[m.mutationId].mutation == m
    ensures !Blocked(s, ms, now)
    decreases |ms|
  {
    if ms != [] {
      var m := ms[0];
      assert m in ms && forall x :: x in ms[1..] ==> x in ms;
      if Find(s.log, m.mutationId).Some? {
        UnobstructedIsNotBlocked(s, issued, ms[1..], now);
      } else {
        HistoryInUniverse(s.log, |s.log|, issued, m.item.itemId);
        assert !TombstoneRefusal(Current(s, m.item.itemId), m);
        LogIssuedAppend(s, issued, m, now);
        UnobstructedIsNotBlocked(Append(s, m, now), issued, ms[1..], now);
      }
    }
  }

  /** A request the handler lets in and the database can store: a hundred mutations at
      most, 128 KiB, and columns within their range. */
  predicate Admissible(req: Request) {
    && WithinLimits(req.cursor, req.mutations)
    && forall m :: m in req.mutations ==> m.item.revision <= MAX_REVISION && Storable(m)
  }

  /** What is issued is well formed but for the sizes, and the body limit is stricter
      than that of an envelope. */
  lemma {:induction false} AdmissibleIsValid(req: Request, s: System)
    requires Inv(s) && req in s.requests && WithinLimits(req.cursor, req.mutations)
    ensures AllValid(req.mutations) <==> forall m :: m in req.mutations ==> m.item.revision <= MAX_REVISION
  {
    assert RequestOk(req, s);
    forall m | m in req.mutations ensures ValidMutation(m) <==> m.item.revision <= MAX_REVISION {
      var j :| 0 <= j < |req.mutations| && req.mutations[j] == m;
      assert WellIssued(s.issued, m.mutationId);
      AdmittedEnvelope(req.cursor, req.mutations, m);
    }
  }

  /** The registry and the batch as they stand once the sweep is done. */
  lemma {:induction false} SweptBatchIsReady(s: System, req: Request, now: int, rows: seq<nat>, ids: seq<Id>, u: Server)
    requires Inv(s) && req in s.requests
    requires |rows| == |ids| && FreshIds(s.server.log, ids) && (forall x :: x in ids ==> x !in s.issued)
    requires forall k :: k in rows ==> k < |s.server.log|
    requires GrownBy(s.server.log, u.log, Tombstones(s.server.log, rows, ids), now)
    ensures var more := s.issued + TombstoneTickets(s.server.log, rows, ids);
            Extends(s.issued, more) && Registry(more) && LogIssued(u.log, more) && Ready(u, more, req.mutations)
  {
    assert RequestOk(req, s);
    TicketsAfterSweep(s, rows, ids);
    SweptLogIssued(s.server.log, u.log, rows, ids, now, s.issued);
    ParentsFirstGrows(req.mutations, s.server.log, u.log);
  }

  /** An accepted mutation can be stored. */
  lemma {:induction false} AcceptedIsStorable(s: Server, ms: seq<Mutation>, now: int, m: Mutation)
    requires ServerOk(s) && AllValid(ms) && AcceptAll(s, ms, now).Ok? && m in ms
    ensures Storable(m)
    decreases |ms|
  {
    AcceptKeepsServer(s, ms[0], now) by { assert ms[0] in ms; }
    var t := Accept(s, ms[0], now).value;
    if ms[0] == m {
      var k: nat :| RecordedAt(t.log, k, m);
      assert Legal(t.log, k);
    } else {
      assert m in ms[1..] && forall x :: x in ms[1..] ==> x in ms;
      AcceptedIsStorable(t, ms[1..], now, m);
    }
  }

  /** The batch of an admitted request goes through at the store exactly when all of it
      can be stored and nothing in it is blocked by a tombstone. */
  lemma {:induction false} StoreAcceptance(s: System, req: Request, now: int, rows: seq<nat>, ids: seq<Id>, u: Server)
    requires Inv(s) && req in s.requests && AllValid(req.mutations)
    requires ServerOk(u) && |u.log| + |req.mutations| <= MAX_REVISION
    requires |rows| == |ids| && forall k :: k in rows ==> k < |s.server.log|
    requires var more := s.issued + TombstoneTickets(s.server.log, rows, ids);
             Registry(more) && LogIssued(u.log, more) && Ready(u, more, req.mutations)
    ensures AcceptAll(u, req.mutations, now).Ok? <==>
              (forall m :: m in req.mutations ==> Storable(m)) && !Blocked(u, req.mutations, now)
  {
    var ms := req.mutations;
    if AcceptAll(u, ms, now).Ok? {
      forall m | m in ms ensures Storable(m) { AcceptedIsStorable(u, ms, now, m); }
    }
    if forall m :: m in ms ==> Storable(m) {
      BatchAcceptance(u, s.issued + TombstoneTickets(s.server.log, rows, ids), ms, now);
    }
  }

  /** The step that handles an accepted request. */
  lemma {:induction false} AcceptedIsHandled(s: System, req: Request, now: int, rows: seq<nat>, ids: seq<Id>, u: Server)
    returns (t: System, reply: Reply)
    requires Inv(s) && req in s.requests && WithinLimits(req.cursor, req.mutations) && AllValid(req.mutations)
    requires Enumerates(rows, ExpiredRows(s.server.log, now)) && (forall k :: k in rows ==> k < |s.server.log|)
    requires |rows| == |ids| && FreshIds(s.server.log, ids) && forall x :: x in ids ==> x !in s.issued
    requires AcceptAll(Prune(s.server, now), Tombstones(s.server.log, rows, ids), now) == Ok(u) && ServerOk(u)
    requires s.server.log <= u.log && AcceptAll(u, req.mutations, now).Ok?
    ensures HandleStep(s, t, req, now, rows, ids, reply)
    ensures reply.cursor == |t.server.log| || reply.cursor == CursorOf(req.cursor) + PAGE_SIZE
    ensures forall m :: m in req.mutations ==> Recorded(t.server.log, m)
  {
    assert RequestOk(req, s);
    RequestIsNormal(req, s);
    AcceptAllKeepsServer(u, req.mutations, now);
    var server := AcceptAll(u, req.mutations, now).value;
    reply := ReplyExists(server, CursorOf(req.cursor), req.mutations);
    t := s.(server := server, replies := s.replies + {(req, reply)}, issued := s.issued + TombstoneTickets(s.server.log, rows, ids));
  }

  /** u is the state the sweep of a request leaves, before its batch. */
  ghost predicate AfterSweep(s: System, req: Request, now: int, rows: seq<nat>, ids: seq<Id>, u: Server) {
    && |rows| == |ids| && (forall k :: k in rows ==> k < |s.server.log|)
    && AcceptAll(Prune(s.server, now), Tombstones(s.server.log, rows, ids), now) == Ok(u) && ServerOk(u)
    && s.server.log <= u.log && |u.log| + |req.mutations| <= MAX_REVISION
    && var more := s.issued + TombstoneTickets(s.server.log, rows, ids);
    Extends(s.issued, more) && Registry(more) && LogIssued(u.log, more) && Ready(u, more, req.mutations)
  }

  lemma {:induction false} SweptState(s: System, req: Request, now: int, rows: seq<nat>, ids: seq<Id>) returns (u: Server)
    requires Inv(s) && req in s.requests
    requires Enumerates(rows, ExpiredRows(s.server.log, now))
    requires |rows| == |ids| && FreshIds(s.server.log, ids) && forall x :: x in ids ==> x !in s.issued
    requires |s.server.log| + |rows| + |req.mutations| <= MAX_REVISION
    ensures AfterSweep(s, req, now, rows, ids, u)
  {
    u := ProcessPhases(s.server, [], now, rows, ids);
    SweptBatchIsReady(s, req, now, rows, ids, u);
  }

  lemma {:induction false} HandledIsAcceptable(s: System, t: System, req: Request, now: int, rows: seq<nat>, ids: seq<Id>, reply: Reply, u: Server)
    requires Inv(s) && AfterSweep(s, req, now, rows, ids, u) && HandleStep(s, t, req, now, rows, ids, reply)
    ensures Admissible(req) && !Blocked(u, req.mutations, now)
  {
    RequestIsNormal(req, s);
    AdmissibleIsValid(req, s);
    StoreAcceptance(s, req, now, rows, ids, u);
  }

  lemma {:induction false} AcceptableIsHandled(s: System, req: Request, now: int, rows: seq<nat>, ids: seq<Id>, u: Server)
    returns (t: System, reply: Reply)
    requires Inv(s) && req in s.requests && AfterSweep(s, req, now, rows, ids, u)
    requires Enumerates(rows, ExpiredRows(s.server.log, now)) && FreshIds(s.server.log, ids) && forall x :: x in ids ==> x !in s.issued
    requires Admissible(req) && !Blocked(u, req.mutations, now)
    ensures HandleStep(s, t, req, now, rows, ids, reply)
  {
    AdmissibleIsValid(req, s);
    StoreAcceptance(s, req, now, rows, ids, u);
    t, reply := AcceptedIsHandled(s, req, now, rows, ids, u);
  }

  lemma {:induction false} EditsAreNotBlocked(s: System, req: Request, now: int, rows: seq<nat>, ids: seq<Id>, u: Server)
    requires AfterSweep(s, req, now, rows, ids, u) && forall m :: m in req.mutations ==> Unobstructed(m, s.issued)
    ensures !Blocked(u, req.mutations, now)
  {
    var more := s.issued + TombstoneTickets(s.server.log, rows, ids);
    assert forall m :: m in req.mutations ==> Unobstructed(m, more);
    UnobstructedIsNotBlocked(u, more, req.mutations, now);
  }

  /** Exactly when a sent request is handled, in any later state and whatever other
      clients did meanwhile: it is admissible, and nothing in it is blocked by a
      tombstone once the sweep is done. */
  lemma {:induction false} RequestAcceptance(s: System, req: Request, now: int, rows: seq<nat>, ids: seq<Id>)
    returns (u: Server)
    requires Reachable(s) && req in s.requests
    requires Enumerates(rows, ExpiredRows(s.server.log, now))
    requires |rows| == |ids| && FreshIds(s.server.log, ids) && forall x :: x in ids ==> x !in s.issued
    requires |s.server.log| + |rows| + |req.mutations| <= MAX_REVISION
    ensures forall k :: k in rows ==> k < |s.server.log|
    ensures AcceptAll(Prune(s.server, now), Tombstones(s.server.log, rows, ids), now) == Ok(u)
    ensures (exists t, reply :: HandleStep(s, t, req, now, rows, ids, reply)) <==>
              Admissible(req) && !Blocked(u, req.mutations, now)
    ensures (forall m :: m in req.mutations ==> Unobstructed(m, s.issued)) ==> !Blocked(u, req.mutations, now)
  {
    ReachableHasInv(s);
    u := SweptState(s, req, now, rows, ids);
    if t, reply :| HandleStep(s, t, req, now, rows, ids, reply) {
      HandledIsAcceptable(s, t, req, now, rows, ids, reply, u);
    } else if Admissible(req) && !Blocked(u, req.mutations, now) {
      var t, reply := AcceptableIsHandled(s, req, now, rows, ids, u);
    }
    if forall m :: m in req.mutations ==> Unobstructed(m, s.issued) {
      EditsAreNotBlocked(s, req, now, rows, ids, u);
    }
  }

  /** Offline edits are never refused: a sent admissible batch of edits, none a purge and
      none a live edit of a lone tombstone, is handled and recorded whole, whenever it
      reaches the server. */
  lemma {:induction false} OfflineEditsAreAccepted(s: System, req: Request, now: int, rows: seq<nat>, ids: seq<Id>)
    returns (t: System, reply: Reply)
    requires Reachable(s) && req in s.requests && Admissible(req)
    requires forall m :: m in req.mutations ==> Unobstructed(m, s.issued)
    requires Enumerates(rows, ExpiredRows(s.server.log, now))
    requires |rows| == |ids| && FreshIds(s.server.log, ids) && forall x :: x in ids ==> x !in s.issued
    requires |s.server.log| + |rows| + |req.mutations| <= MAX_REVISION
    ensures HandleStep(s, t, req, now, rows, ids, reply)
    ensures forall m :: m in req.mutations ==> Recorded(t.server.log, m)
  {
    var u := RequestAcceptance(s, req, now, rows, ids);
    t, reply :| HandleStep(s, t, req, now, rows, ids, reply);
    ReachableHasInv(s);
    var v := HandledGrowth(s, t, req, now, rows, ids, reply);
  }

  // ------------------------------------------------- purges that cannot succeed

  lemma {:induction false} MissedHeadStaysMissed(log: Ledger, m: nat, n: nat, item: Id, parents: seq<Id>)
    requires LegalLog(log) && m <= n <= |log|
    requires ParentsIn(History(log, m, item), parents) && !CoversHeads(History(log, m, item), parents)
    ensures ParentsIn(History(log, n, item), parents) && !CoversHeads(History(log, n, item), parents)
    decreases n
  {
    if m < n {
      MissedHeadStaysMissed(log, m, n - 1, item, parents);
      HistoryGrows(log, n - 1, n, item);
      HeadsStep(log, n - 1);
      assert Legal(log, n - 1);
      var r := ItemAt(log, n - 1);
      if r.itemId == item {
        FreshInHistory(log, n - 1, item, r.revisionId);
        assert r.revisionId in HeadsAt(log, n, item) && r.revisionId !in parents;
      }
    }
  }

  /** A queued purge that misses one server head is refused in every later state: the
      parents it names can never again be all the heads. */
  lemma {:induction false} RefusedPurgeStaysRefused(s: Server, t: Server, m: Mutation, now: int)
    requires ServerOk(s) && ServerOk(t) && s.log <= t.log
    requires ValidMutation(m) && m.item.purged && !Logged(s.log, |s.log|, m.mutationId)
    requires ParentsIn(Current(s, m.item.itemId), m.item.parents) && !CoversHeads(Current(s, m.item.itemId), m.item.parents)
    ensures Accept(t, m, now).Err?
  {
    var item := m.item.itemId;
    HistoryPrefix(s.log, t.log, |s.log|, item);
    match Find(t.log, m.mutationId)
    case None =>
      MissedHeadStaysMissed(t.log, |s.log|, |t.log|, item, m.item.parents);
    case Some(k) =>
      if SameMutation(t.log[k].mutation, m) {
        var row := t.log[k].mutation;
        assert Legal(t.log, k);
        SortKeepsParents(row.item.parents);
        SortKeepsParents(m.item.parents);
        assert forall p :: p in row.item.parents <==> p in m.item.parents;
        assert k < |s.log| ==> IdAt(t.log, k) == IdAt(s.log, k);
        MissedHeadStaysMissed(t.log, |s.log|, k, item, m.item.parents);
      }
  }

  /** And it takes down every batch it is part of, so nothing queued beside it ever
      reaches the server either. */
  lemma {:induction false} RefusedPurgeBlocksQueue(s: Server, t: Server, m: Mutation, ms: seq<Mutation>, now: int)
    requires ServerOk(s) && ServerOk(t) && s.log <= t.log
    requires ValidMutation(m) && m.item.purged && !Logged(s.log, |s.log|, m.mutationId)
    requires ParentsIn(Current(s, m.item.itemId), m.item.parents) && !CoversHeads(Current(s, m.item.itemId), m.item.parents)
    requires m in ms && AllValid(ms)
    ensures AcceptAll(t, ms, now).Err?
    decreases |ms|
  {
    var first, rest := ms[0], ms[1..];
    assert first in ms;
    if first == m {
      RefusedPurgeStaysRefused(s, t, m, now);
    } else if Accept(t, first, now).Ok? {
      AcceptKeepsServer(t, first, now);
      assert m in rest && forall x :: x in rest ==> x in ms;
      RefusedPurgeBlocksQueue(s, Accept(t, first, now).value, m, rest, now);
    }
  }

  // -------------------------------------------------------- snapshots, exactly

  /** Applied with nothing queued, a snapshot in any row order shows exactly the
      server's heads at its cursor, less the trashed heads its order loses; none is lost
      of an item that does not have a trashed head and a tombstone. */
  lemma {:induction false} SnapshotIsExact(s: System, c: nat, cs: seq<Revision>, item: Id)
    requires Reachable(s) && c <= |s.server.log| && SnapshotOf(s.server.log, c, cs)
    ensures ApplyChanges(map[], [], cs, |cs|).Ok?
    ensures Heads(GraphOf(ApplyChanges(map[], [], cs, |cs|).value, item)) == HeadsAt(s.server.log, c, item) - Lost(cs, item)
    ensures var h := History(s.server.log, c, item);
            (forall x, t :: x in Heads(h) && t in Heads(h) ==> !(Trashed(h[x]) && h[t].purged)) ==> Lost(cs, item) == {}
  {
    ReachableHasInv(s);
    var log, issued := s.server.log, s.issued;
    SnapshotStartsAll([], 0, log, c, issued, cs);
    SnapshotRows(map[], [], 0, log, c, issued, cs, |cs|);
    var graphs := ApplyChanges(map[], [], cs, |cs|).value;
    assert SnapshotTracks(graphs, [], log, c, issued, cs, |cs|, item);
    SeenAll(log, c, cs, item);
    DroppedIsLost(log, c, cs, item);
    var h, g := History(log, c, item), GraphOf(graphs, item);
    RebuiltHeads(Universe(issued, item), h, g, Lost(cs, item));
    LostAreHeads(log, c, cs, item);
  }

  lemma {:induction false} LostAreHeads(log: Ledger, c: nat, cs: seq<Revision>, item: Id)
    requires c <= |log| && SnapshotOf(log, c, cs)
    ensures var h := History(log, c, item);
            forall x :: x in Lost(cs, item) ==> x in Heads(h) && Trashed(h[x]) && exists t :: t in Heads(h) && h[t].purged
  {
    assert forall j :: 0 <= j < |cs| ==> HeadRow(log, c, cs[j]);
    var h := History(log, c, item);
    forall x | x in Lost(cs, item) ensures x in Heads(h) && Trashed(h[x]) && exists t :: t in Heads(h) && h[t].purged {
      var i: nat, j: nat :| i < |cs| && j < |cs| && Displaces(cs, item, i, j) && x == cs[i].revisionId;
      assert cs[j].revisionId in Heads(h) && h[cs[j].revisionId].purged;
    }
  }

  /** With a trashed head and a tombstone on one item the order does matter: the
      trashed head is shown after the tombstone row and lost before it. */
  lemma {:induction false} SnapshotOrderMatters(h: Revision, t: Revision)
    requires h.itemId == t.itemId && h.revisionId != t.revisionId && Trashed(h) && t.purged
    requires {h.revisionId, t.revisionId} !! IdSet(h.parents) + IdSet(t.parents)
    ensures ApplyChanges(map[], [], [h, t], 2).Ok? && ApplyChanges(map[], [], [t, h], 2).Ok?
    ensures Heads(GraphOf(ApplyChanges(map[], [], [h, t], 2).value, t.itemId)) == {t.revisionId}
    ensures Heads(GraphOf(ApplyChanges(map[], [], [t, h], 2).value, t.itemId)) == {t.revisionId, h.revisionId}
  {
    var a, b := [h, t], [t, h];
    assert ApplyChanges(map[], [], a, 0) == Ok(map[]) && ApplyChanges(map[], [], b, 0) == Ok(map[]);
    var first := ApplyChanges(map[], [], a, 1).value;
    assert GraphOf(first, t.itemId) == map[h.revisionId := h] && LiveHeads(map[h.revisionId := h]) == map[];
    assert GraphOf(ApplyChanges(map[], [], a, 2).value, t.itemId) == map[t.revisionId := t];
    assert GraphOf(ApplyChanges(map[], [], b, 1).value, t.itemId) == map[t.revisionId := t];
    assert GraphOf(ApplyChanges(map[], [], b, 2).value, t.itemId) == map[t.revisionId := t, h.revisionId := h];
  }

  lemma {:induction false} RebuiltHeads(u: Graph, h: Graph, g: Graph, dropped: set<Id>)
    requires Rebuilding(u, h, map[], g, Heads(h), dropped)
    ensures Heads(g) == Heads(h) - dropped
  {
    forall x | x in g ensures !Referenced(g, x) {
      forall y | y in g ensures x !in g[y].parents {
        assert y in h && g[y] == h[y];
      }
    }
    assert g.Keys == Heads(h) - dropped;
  }

  // ------------------------------------------- a restore during an exchange

  /** A server with one item whose only change has been pruned, and its answer to an
      empty cache. */
  lemma {:induction false} PrunedServerSendsSnapshot(m: Mutation) returns (before: Server, s: Server, r: Reply)
    requires ValidMutation(m) && Storable(m) && m.baseRevision == 0 && !m.item.deleted
    ensures Accept(Server([], {}), m, 0) == Ok(before) && ServerOk(before)
    ensures Exchanged(before, 0, [], RETENTION + 1, [], [], s, r)
    ensures r == Reply(1, true, [], [m.item])
  {
    var now := RETENTION + 1;
    AcceptKeepsServer(Server([], {}), m, 0);
    before := Append(Server([], {}), m, 0);
    s := Prune(before, now);
    r := Reply(1, true, [], [m.item]);
    HeadsStep(before.log, 0);
    HistoryRow(before.log, 1, 0);
    forall item ensures HeadsAt(before.log, 1, item) == if item == m.item.itemId then {m.mutationId} else {} {
      assert History(before.log, 0, item) == map[];
    }
    assert HeadRow(s.log, 1, r.changes[0]);
    assert SnapshotOf(s.log, 1, r.changes);
    assert 1 !in s.kept && !Retained(s, 0);
    assert ExpiredRows(before.log, now) == {};
  }

  /** A restored backup may hold a queued creation without a schema version. If it is
      restored while an exchange of the still empty cache is in flight, and the answer
      is a full snapshot, applying it leaves a cache the reader refuses. An exchange
      that carries the queue cannot do that: the server refuses the request. */
  lemma {:induction false} RestoreDuringExchangeBreaksCache(account: Id, item: Id, x: Id, content: Byte, other: Mutation)
    returns (b: Backup, d: CacheData, before: Server, s: Server, r: Reply)
    requires account != NO_ID && item != NO_ID && x != NO_ID
    requires ValidMutation(other) && Storable(other) && other.baseRevision == 0 && !other.item.deleted && other.item.itemId != item
    ensures RestoreState(EmptyCache(account), b) == Ok(d) && ValidCache(d)
    ensures ServerOk(before) && Exchanged(before, 0, EmptyCache(account).mutations, RETENTION + 1, [], [], s, r)
    ensures r.full && ApplyReply(d, r).Ok? && !ValidCache(ApplyReply(d, r).value)
    ensures !AllValid(NormalizeAll(d.mutations))
  {
    var m := Mutation(x, 0, Revision(item, 0, 1, x, [], false, false, [content]));
    b := Backup(account, map[], [m], None, NO_ID);
    d := CacheData(account, map[], [m], None, []);
    before, s, r := PrunedServerSendsSnapshot(other);
    assert Unacknowledged([], []) == [] && Unacknowledged([m], []) == [m];
    assert WithQueued(map[], [m], 0, item) == map[] && QueueGraph([m], item)[x] == m.item;
    assert Rebuilt([m], 0) == map[] && Rebuilt([m], 1) == map[item := map[x := m.item]];
    assert ValidChange(other.item);
    assert ApplyChanges(Rebuilt([m], 1), [m], r.changes, 0) == Ok(Rebuilt([m], 1));
    assert ApplyReply(d, r).Ok?;
    assert Relaid(true, r.changes, 1, item) && m in [m];
    assert !Versioned(QueueGraph([m], item));
    ApplyReplyValidity(d, r);
    assert NormalizeAll([m])[0] == Normalize(m) && NormalizeAll([m])[0] in NormalizeAll([m]);
  }

  // ------------------------------------------------ the server's row order

  lemma {:induction false} LaterRowsAreHigher(cs: seq<Revision>, i: nat, j: nat)
    requires InOrder(cs) && i < |cs| && j < |cs|
    ensures i < j ==> RowBefore(cs[i], cs[j])
  {
  }

  lemma {:induction false} BelowTombstoneIsLost(log: Ledger, c: nat, cs: seq<Revision>, item: Id, x: Id, t: Id)
    requires LegalLog(log) && c <= |log| && SnapshotOf(log, c, cs) && InOrder(cs)
    requires x in HeadsAt(log, c, item) && t in HeadsAt(log, c, item) && x < t
    requires Trashed(History(log, c, item)[x]) && History(log, c, item)[t].purged
    ensures x in Lost(cs, item)
  {
    SeenAll(log, c, cs, item);
    SeenMembers(cs, |cs|, item, t);
    SeenMembers(cs, |cs|, item, x);
    var b: nat :| b < |cs| && cs[b].itemId == item && cs[b].revisionId == t;
    var j: nat :| j < |cs| && cs[j].itemId == item && cs[j].revisionId == x;
    assert HeadRow(log, c, cs[b]) && HeadRow(log, c, cs[j]);
    LaterRowsAreHigher(cs, b, j);
    assert Displaces(cs, item, j, b);
  }

  /** In the order the server sends, a snapshot loses a trashed head exactly when a
      tombstone head of its item has a higher id. */
  lemma {:induction false} OrderedSnapshotDrops(log: Ledger, c: nat, cs: seq<Revision>, item: Id, x: Id)
    requires LegalLog(log) && c <= |log| && SnapshotOf(log, c, cs) && InOrder(cs)
    ensures var h := History(log, c, item);
            x in Lost(cs, item) <==> x in Heads(h) && Trashed(h[x]) && exists t :: t in Heads(h) && h[t].purged && x < t
  {
    var h := History(log, c, item);
    assert forall j :: 0 <= j < |cs| ==> HeadRow(log, c, cs[j]);
    if x in Lost(cs, item) {
      var i: nat, j: nat :| i < |cs| && j < |cs| && Displaces(cs, item, i, j) && x == cs[i].revisionId;
      LaterRowsAreHigher(cs, i, j);
      assert cs[j].revisionId in Heads(h) && h[cs[j].revisionId].purged;
    } else if x in Heads(h) && Trashed(h[x]) {
      forall t | t in Heads(h) && h[t].purged ensures !(x < t) {
        if x < t { BelowTombstoneIsLost(log, c, cs, item, x, t); }
      }
    }
  }

  /** What a cache with nothing queued shows after a snapshot as the server orders it:
      every head but the trashed ones below a tombstone. */
  lemma {:induction false} OrderedSnapshotShows(s: System, c: nat, cs: seq<Revision>, item: Id)
    requires Reachable(s) && c <= |s.server.log|
    requires SnapshotOf(s.server.log, c, cs) && InOrder(cs)
    ensures ApplyChanges(map[], [], cs, |cs|).Ok?
    ensures var h := History(s.server.log, c, item);
            forall x :: x in Heads(GraphOf(ApplyChanges(map[], [], cs, |cs|).value, item)) <==>
              x in Heads(h) && !(Trashed(h[x]) && exists t :: t in Heads(h) && h[t].purged && x < t)
  {
    ReachableHasInv(s);
    SnapshotIsExact(s, c, cs, item);
    forall x { OrderedSnapshotDrops(s.server.log, c, cs, item, x); }
  }

  // ------------------------------------------- queued work after a snapshot

  /** In every reachable state, a client that applies a full snapshot has everything it still has
      queued in its graph, exactly as it was queued. */
  lemma {:induction false} DeliveredSnapshotKeepsQueue(s: System, k: nat, r: Reply, m: Mutation)
    requires Reachable(s) && k < |s.peers| && s.peers[k].outstanding.Some?
    requires (s.peers[k].outstanding.value, r) in s.replies && r.full
    ensures ApplyReply(s.peers[k].cache, r).Ok?
    ensures var e := ApplyReply(s.peers[k].cache, r).value;
            m in e.mutations ==>
              var g := GraphOf(e.revisions, m.item.itemId);
              m.item.revisionId in g && g[m.item.revisionId] == m.item
  {
    ReachableHasInv(s);
    var p := s.peers[k];
    assert PeerOk(s, k);
    DeliverySucceeds(s, k, r);
    var e := ApplyReply(p.cache, r).value;
    if m in e.mutations {
      FullSnapshotKeepsQueue(p.cache, r);
      var item := m.item.itemId;
      var q := Delivered(p, e, r);
      assert TracksItem(q, s.server.log, s.issued, item);
      var j :| 0 <= j < |p.cache.mutations| && p.cache.mutations[j] == m;
      assert WellIssued(s.issued, m.mutationId);
      assert m.item.revisionId in Universe(s.issued, item);
    }
  }
}
