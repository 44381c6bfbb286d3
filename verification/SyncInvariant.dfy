/** Every step of the system keeps the invariant, so every reachable state has it. */
module SyncInvariant {
  import opened Revisions
  import opened RevisionLog
  import opened SyncProtocol
  import opened Exchange
  import opened CacheModel
  import opened ItemService
  import opened Replica
  import opened SyncSystem

  // ------------------------------------------------------ registry and graphs

  ghost predicate Extends(issued: map<Id, Ticket>, more: map<Id, Ticket>) {
    forall x :: x in issued ==> x in more && more[x] == issued[x]
  }

  lemma {:induction false} WellIssuedGrows(issued: map<Id, Ticket>, more: map<Id, Ticket>, x: Id)
    requires Extends(issued, more) && x in issued && WellIssued(issued, x)
    ensures WellIssued(more, x)
  {
    var m := issued[x].mutation;
    MaxRevisionAgrees(Universe(issued, m.item.itemId), Universe(more, m.item.itemId), m.item.parents);
  }

  lemma {:induction false} HistoryInUniverse(log: Ledger, n: nat, issued: map<Id, Ticket>, item: Id)
    requires LogIssued(log, issued) && n <= |log|
    ensures Within(History(log, n, item), Universe(issued, item))
  {
    forall x | x in History(log, n, item)
      ensures x in Universe(issued, item) && Universe(issued, item)[x] == History(log, n, item)[x]
    {
      var k := HistoryIndex(log, n, item, x);
    }
  }

  lemma {:induction false} LoggedInHistory(log: Ledger, n: nat, issued: map<Id, Ticket>, x: Id)
    requires LegalLog(log) && LogIssued(log, issued) && n <= |log| && Logged(log, n, x)
    ensures x in issued && x in History(log, n, issued[x].mutation.item.itemId)
    ensures History(log, n, issued[x].mutation.item.itemId)[x] == issued[x].mutation.item
  {
    var k :| 0 <= k < n && IdAt(log, k) == x;
    HistoryRow(log, n, k);
  }

  lemma {:induction false} HistoryIsLogged(log: Ledger, n: nat, item: Id, x: Id)
    requires n <= |log| && x in History(log, n, item)
    ensures Logged(log, n, x)
  {
    var k := HistoryIndex(log, n, item, x);
  }

  ghost predicate Known(ms: seq<Mutation>, issued: map<Id, Ticket>) {
    forall j :: 0 <= j < |ms| ==>
      && ms[j].mutationId in issued && issued[ms[j].mutationId].mutation == ms[j]
      && ms[j].item.revisionId == ms[j].mutationId
  }

  lemma {:induction false} QueueGraphUpTo(ms: seq<Mutation>, issued: map<Id, Ticket>, item: Id, n: nat)
    requires Known(ms, issued) && n <= |ms|
    ensures var q := WithQueued(map[], ms, n, item);
            Within(q, Universe(issued, item)) && forall x :: x in q <==> EarlierIn(ms, n, x) && x in Universe(issued, item)
  {
    if n > 0 {
      QueueGraphUpTo(ms, issued, item, n - 1);
      forall x ensures EarlierIn(ms, n, x) <==> EarlierIn(ms, n - 1, x) || x == ms[n - 1].mutationId {}
    }
  }

  lemma {:induction false} QueueGraphMembers(ms: seq<Mutation>, k: nat, issued: map<Id, Ticket>, item: Id)
    requires IssuedQueue(ms, k, issued) && Registry(issued)
    ensures Within(QueueGraph(ms, item), Universe(issued, item))
    ensures forall x :: x in QueueGraph(ms, item) <==> EarlierIn(ms, |ms|, x) && x in Universe(issued, item)
  {
    forall j | 0 <= j < |ms| ensures ms[j].item.revisionId == ms[j].mutationId {
      assert WellIssued(issued, ms[j].mutationId);
    }
    QueueGraphUpTo(ms, issued, item, |ms|);
  }

  lemma {:induction false} WithQueuedPrefix(g: Graph, ms: seq<Mutation>, more: seq<Mutation>, n: nat, item: Id)
    requires n <= |ms| && ms <= more
    ensures WithQueued(g, ms, n, item) == WithQueued(g, more, n, item)
  {
    if n > 0 {
      WithQueuedPrefix(g, ms, more, n - 1, item);
      assert ms[n - 1] == more[n - 1];
    }
  }

  // ------------------------------------------------------------- the log grows

  lemma {:induction false} LoggedStays(log: Ledger, longer: Ledger, x: Id)
    requires log <= longer && Logged(log, |log|, x)
    ensures Logged(longer, |longer|, x)
  {
    var k :| 0 <= k < |log| && IdAt(log, k) == x;
    assert IdAt(longer, k) == x;
  }

  lemma {:induction false} ParentsFirstGrows(ms: seq<Mutation>, log: Ledger, longer: Ledger)
    requires ParentsFirst(ms, log) && log <= longer
    ensures ParentsFirst(ms, longer)
  {
    forall j, p | 0 <= j < |ms| && p in ms[j].item.parents ensures Logged(longer, |longer|, p) || EarlierIn(ms, j, p) {
      if Logged(log, |log|, p) { LoggedStays(log, longer, p); }
    }
  }

  lemma {:induction false} SnapshotOfGrows(log: Ledger, longer: Ledger, n: nat, changes: seq<Revision>)
    requires n <= |log| && log <= longer && SnapshotOf(log, n, changes)
    ensures SnapshotOf(longer, n, changes)
  {
    forall item ensures History(longer, n, item) == History(log, n, item) {
      HistoryPrefix(log, longer, n, item);
    }
    forall j | 0 <= j < |changes| ensures HeadRow(longer, n, changes[j]) {
      assert HeadRow(log, n, changes[j]);
    }
    forall item, x ensures HeadListed(longer, n, changes, item, x) {
      assert HeadListed(log, n, changes, item, x);
    }
  }

  lemma {:induction false} ReplyOkGrows(req: Request, r: Reply, log: Ledger, longer: Ledger)
    requires ReplyOk(req, r, log) && log <= longer
    ensures ReplyOk(req, r, longer)
  {
    forall j | 0 <= j < |req.mutations| ensures Logged(longer, |longer|, req.mutations[j].mutationId) {
      LoggedStays(log, longer, req.mutations[j].mutationId);
    }
    if r.full {
      SnapshotOfGrows(log, longer, r.cursor, r.changes);
    } else {
      var a, b := Items(log, CursorOf(req.cursor), r.cursor), Items(longer, CursorOf(req.cursor), r.cursor);
      assert forall j :: 0 <= j < |a| ==> a[j] == b[j];
    }
  }

  lemma {:induction false} TracksServerGrows(p: Peer, log: Ledger, longer: Ledger, issued: map<Id, Ticket>, more: map<Id, Ticket>)
    requires TracksServer(p, log, issued) && log <= longer && Extends(issued, more)
    requires LegalLog(longer) && LogIssued(longer, more)
    ensures TracksServer(p, longer, more)
  {
    var c := CursorOf(p.cache.cursor);
    forall item ensures TracksItem(p, longer, more, item) {
      assert TracksItem(p, log, issued, item);
      HistoryPrefix(log, longer, c, item);
      HistoryPrefix(log, longer, |log|, item);
      HistoryGrows(longer, |log|, |longer|, item);
      HistoryInUniverse(longer, |longer|, more, item);
    }
  }

  // ----------------------------------------------------------------- queueing

  /** What a successful QueueMutation adds. */
  lemma {:induction false} Queued(d: CacheData, r: Revision, base: nat) returns (m: Mutation)
    requires r.revisionId != NO_ID && Queue(d, r, base).Ok?
    ensures var e := Queue(d, r, base).value; var g := GraphOf(d.revisions, r.itemId);
            && e == d.(revisions := d.revisions[r.itemId := GraphWithQueued(g, m.item)], mutations := d.mutations + [m])
            && m.mutationId == m.item.revisionId == r.revisionId && m.baseRevision == base && m.item.itemId == r.itemId
            && m.item.schemaVersion == r.schemaVersion >= 1 && m.item.revision == base + 1
            && m.item.itemId != NO_ID && ValidContent(m.item) && Sorted(m.item.parents) && Distinct(m.item.parents)
            && (base == 0 <==> m.item.parents == [])
            && ParentsIn(g, m.item.parents) && MaxRevision(g, m.item.parents) == base
            && m.item.purged == r.purged && m.item.deleted == r.deleted
  {
    PreparedFacts(GraphOf(d.revisions, r.itemId), r, base);
    m := Mutation(r.revisionId, base, Prepared(GraphOf(d.revisions, r.itemId), r, base).value);
  }

  /** The shape every new mutation has, seen from the graph g it extends. */
  ghost predicate NewMutation(m: Mutation, g: Graph) {
    && m.mutationId != NO_ID && m.item.revisionId == m.mutationId && m.item.revision == m.baseRevision + 1
    && m.item.itemId != NO_ID && ValidContent(m.item) && m.item.schemaVersion >= 1
    && Sorted(m.item.parents) && Distinct(m.item.parents) && (m.baseRevision == 0 <==> m.item.parents == [])
    && ParentsIn(g, m.item.parents) && MaxRevision(g, m.item.parents) == m.baseRevision
  }

  lemma {:induction false} NewTicket(issued: map<Id, Ticket>, more: map<Id, Ticket>, g: Graph, m: Mutation)
    requires Registry(issued) && Extends(issued, more)
    requires m.mutationId in more && more[m.mutationId].mutation == m
    requires Within(g, Universe(issued, m.item.itemId)) && NewMutation(m, g)
    ensures WellIssued(more, m.mutationId)
  {
    var u := Universe(more, m.item.itemId);
    MaxRevisionAgrees(g, u, m.item.parents);
    forall p | p in m.item.parents ensures p != NO_ID {
      assert p in issued && WellIssued(issued, p);
    }
  }

  lemma {:induction false} RegistryGrows(issued: map<Id, Ticket>, more: map<Id, Ticket>, created: Id)
    requires Registry(issued) && Extends(issued, more)
    requires forall x {:trigger WellIssued(more, x)} :: x in more && x !in issued ==> WellIssued(more, x)
    requires forall x :: x in more && x !in issued && x != created ==> !Creates(more, x)
    requires created in more && created !in issued && Creates(more, created) ==>
               forall x :: x in issued ==> issued[x].mutation.item.itemId != more[created].mutation.item.itemId
    ensures Registry(more)
  {
    forall x | x in more ensures WellIssued(more, x) {
      if x in issued { WellIssuedGrows(issued, more, x); }
    }
    forall x, y | Creates(more, x) && Creates(more, y) && more[x].mutation.item.itemId == more[y].mutation.item.itemId
      ensures x == y
    {
      if x in issued && y in issued {
        assert Creates(issued, x) && Creates(issued, y);
      }
    }
  }

  lemma {:induction false} RegistryPlusOne(issued: map<Id, Ticket>, x: Id, ticket: Ticket)
    requires Registry(issued) && x !in issued
    requires WellIssued(issued[x := ticket], x)
    requires ticket.mutation.baseRevision == 0 ==>
               forall y :: y in issued ==> issued[y].mutation.item.itemId != ticket.mutation.item.itemId
    ensures Registry(issued[x := ticket])
  {
    RegistryGrows(issued, issued[x := ticket], x);
  }

  lemma {:induction false} TicketsAfterQueue(issued: map<Id, Ticket>, g: Graph, m: Mutation, k: nat)
    requires Registry(issued) && m.mutationId !in issued
    requires Within(g, Universe(issued, m.item.itemId)) && NewMutation(m, g)
    requires m.baseRevision == 0 ==> forall x :: x in issued ==> issued[x].mutation.item.itemId != m.item.itemId
    ensures Registry(issued[m.mutationId := Ticket(m, Some(k))])
  {
    NewTicket(issued, issued[m.mutationId := Ticket(m, Some(k))], g, m);
    RegistryPlusOne(issued, m.mutationId, Ticket(m, Some(k)));
  }

  /** The cache once a prepared mutation is queued. */
  function Enqueued(d: CacheData, m: Mutation): CacheData {
    var g := GraphOf(d.revisions, m.item.itemId);
    d.(revisions := d.revisions[m.item.itemId := GraphWithQueued(g, m.item)], mutations := d.mutations + [m])
  }

  lemma {:induction false} ItemTracksAfterQueueing(p: Peer, m: Mutation, k: nat, log: Ledger, issued: map<Id, Ticket>)
    requires TracksServer(p, log, issued) && m.mutationId !in issued && m.item.revisionId == m.mutationId
    ensures TracksItem(p.(cache := Enqueued(p.cache, m)), log, issued[m.mutationId := Ticket(m, Some(k))], m.item.itemId)
  {
    var item, ms := m.item.itemId, p.cache.mutations;
    var more := issued[m.mutationId := Ticket(m, Some(k))];
    assert TracksItem(p, log, issued, item);
    WithQueuedPrefix(map[], ms, ms + [m], |ms|, item);
    assert Universe(more, item) == Universe(issued, item)[m.mutationId := m.item];
    TracksAfterQueue(Universe(issued, item), History(log, |log|, item), History(log, CursorOf(p.cache.cursor), item),
                     QueueGraph(ms, item), GraphOf(p.cache.revisions, item), Lost(p.rows, item), m.item);
  }

  lemma {:induction false} OtherItemTracksAfterQueueing(p: Peer, m: Mutation, k: nat, log: Ledger, issued: map<Id, Ticket>, item: Id)
    requires TracksServer(p, log, issued) && m.mutationId !in issued && item != m.item.itemId
    ensures TracksItem(p.(cache := Enqueued(p.cache, m)), log, issued[m.mutationId := Ticket(m, Some(k))], item)
  {
    var ms := p.cache.mutations;
    assert TracksItem(p, log, issued, item);
    WithQueuedPrefix(map[], ms, ms + [m], |ms|, item);
    assert Universe(issued[m.mutationId := Ticket(m, Some(k))], item) == Universe(issued, item);
  }

  lemma {:induction false} TracksAfterQueueing(p: Peer, m: Mutation, k: nat, log: Ledger, issued: map<Id, Ticket>)
    requires TracksServer(p, log, issued) && m.mutationId !in issued && m.item.revisionId == m.mutationId
    ensures TracksServer(p.(cache := Enqueued(p.cache, m)), log, issued[m.mutationId := Ticket(m, Some(k))])
  {
    var more := issued[m.mutationId := Ticket(m, Some(k))];
    forall item ensures TracksItem(p.(cache := Enqueued(p.cache, m)), log, more, item) {
      if item == m.item.itemId {
        ItemTracksAfterQueueing(p, m, k, log, issued);
      } else {
        OtherItemTracksAfterQueueing(p, m, k, log, issued, item);
      }
    }
  }

  // ------------------------------------------------- what a step leaves alone

  lemma {:induction false} RequestStays(s: System, t: System, req: Request)
    requires RequestOk(req, s) && s.server.log <= t.server.log && Extends(s.issued, t.issued)
    ensures RequestOk(req, t)
  {
    ParentsFirstGrows(req.mutations, s.server.log, t.server.log);
  }

  lemma {:induction false} NothingLostGrows(ms: seq<Mutation>, k: nat, log: Ledger, longer: Ledger, issued: map<Id, Ticket>, more: map<Id, Ticket>)
    requires NothingLost(ms, k, log, issued) && log <= longer && Extends(issued, more)
    requires forall x :: x in more && x !in issued ==> more[x].owner != Some(k)
    ensures NothingLost(ms, k, longer, more)
  {
    forall x | x in more && more[x].owner == Some(k) ensures Logged(longer, |longer|, x) || EarlierIn(ms, |ms|, x) {
      assert x in issued;
      if Logged(log, |log|, x) { LoggedStays(log, longer, x); }
    }
  }

  /** A peer the step is not about keeps its part of the invariant. */
  lemma {:induction false} PeerStays(s: System, t: System, k: nat)
    requires k < |s.peers| == |t.peers| && PeerOk(s, k) && t.peers[k] == s.peers[k]
    requires s.server.log <= t.server.log && Extends(s.issued, t.issued) && s.requests <= t.requests
    requires LegalLog(t.server.log) && LogIssued(t.server.log, t.issued)
    requires TailUnsent(t.peers[k].cache.mutations, t.peers[k].sent, t.server.log, t.requests)
    requires forall x :: x in t.issued && x !in s.issued ==> t.issued[x].owner != Some(k)
    ensures PeerOk(t, k)
  {
    var p := s.peers[k];
    ParentsFirstGrows(p.cache.mutations, s.server.log, t.server.log);
    TracksServerGrows(p, s.server.log, t.server.log, s.issued, t.issued);
    NothingLostGrows(p.cache.mutations, k, s.server.log, t.server.log, s.issued, t.issued);
  }

  lemma {:induction false} MessagesStay(s: System, t: System)
    requires Inv(s) && s.server.log <= t.server.log && Extends(s.issued, t.issued)
    requires s.requests <= t.requests
    ensures forall req :: req in s.requests ==> RequestOk(req, t)
    ensures forall pair :: pair in s.replies ==> pair.0 in t.requests && ReplyOk(pair.0, pair.1, t.server.log)
  {
    forall req | req in s.requests ensures RequestOk(req, t) { RequestStays(s, t, req); }
    forall pair | pair in s.replies ensures pair.0 in t.requests && ReplyOk(pair.0, pair.1, t.server.log) {
      ReplyOkGrows(pair.0, pair.1, s.server.log, t.server.log);
    }
  }

  // -------------------------------------------------------- the queueing step

  lemma {:induction false} QueuedParentsFirst(p: Peer, m: Mutation, k: nat, log: Ledger, issued: map<Id, Ticket>)
    requires ParentsFirst(p.cache.mutations, log) && TracksServer(p, log, issued)
    requires IssuedQueue(p.cache.mutations, k, issued) && Registry(issued)
    requires ParentsIn(GraphOf(p.cache.revisions, m.item.itemId), m.item.parents)
    ensures ParentsFirst(p.cache.mutations + [m], log)
  {
    var ms := p.cache.mutations;
    var more := ms + [m];
    forall j, x | 0 <= j < |more| && x in more[j].item.parents ensures Logged(log, |log|, x) || EarlierIn(more, j, x) {
      if j < |ms| {
        assert Logged(log, |log|, x) || EarlierIn(ms, j, x);
        if EarlierIn(ms, j, x) {
          var i :| 0 <= i < j && i < |ms| && ms[i].mutationId == x;
          assert more[i].mutationId == x;
        }
      } else {
        assert TracksItem(p, log, issued, m.item.itemId);
        QueueGraphMembers(ms, k, issued, m.item.itemId);
        if x in History(log, |log|, m.item.itemId) {
          HistoryIsLogged(log, |log|, m.item.itemId, x);
        } else {
          assert EarlierIn(ms, |ms|, x);
          var i :| 0 <= i < |ms| && ms[i].mutationId == x;
          assert more[i].mutationId == x;
        }
      }
    }
  }

  lemma {:induction false} QueuedNotLost(ms: seq<Mutation>, k: nat, log: Ledger, issued: map<Id, Ticket>, m: Mutation)
    requires NothingLost(ms, k, log, issued) && m.mutationId !in issued
    ensures NothingLost(ms + [m], k, log, issued[m.mutationId := Ticket(m, Some(k))])
  {
    var more := issued[m.mutationId := Ticket(m, Some(k))];
    forall x | x in more && more[x].owner == Some(k) && !Logged(log, |log|, x) ensures EarlierIn(ms + [m], |ms + [m]|, x) {
      if x == m.mutationId {
        assert (ms + [m])[|ms|].mutationId == x;
      } else {
        var i :| 0 <= i < |ms| && ms[i].mutationId == x;
        assert (ms + [m])[i].mutationId == x;
      }
    }
  }

  lemma {:induction false} QueuedPeer(s: System, t: System, k: nat, m: Mutation)
    requires Inv(s) && k < |s.peers| && m.mutationId !in s.issued && m.item.revisionId == m.mutationId
    requires ParentsIn(GraphOf(s.peers[k].cache.revisions, m.item.itemId), m.item.parents)
    requires ValidCache(Enqueued(s.peers[k].cache, m))
    requires t == s.(peers := s.peers[k := s.peers[k].(cache := Enqueued(s.peers[k].cache, m))],
                     issued := s.issued[m.mutationId := Ticket(m, Some(k))])
    ensures PeerOk(t, k)
  {
    var p := s.peers[k];
    var ms := p.cache.mutations;
    assert PeerOk(s, k);
    QueuedNotLost(ms, k, s.server.log, s.issued, m);
    QueuedParentsFirst(p, m, k, s.server.log, s.issued);
    TracksAfterQueueing(p, m, k, s.server.log, s.issued);
    assert (ms + [m])[..p.sent] == ms[..p.sent];
  }

  /** Steps that touch neither the log nor the requests leave other peers alone. */
  lemma {:induction false} OthersStay(s: System, t: System, k: nat)
    requires Inv(s) && t.server == s.server && t.requests == s.requests && Extends(s.issued, t.issued)
    requires k < |s.peers| == |t.peers| && forall j :: 0 <= j < |s.peers| && j != k ==> t.peers[j] == s.peers[j]
    requires forall x :: x in t.issued && x !in s.issued ==> t.issued[x].owner == Some(k)
    ensures forall j :: 0 <= j < |t.peers| && j != k ==> PeerOk(t, j)
  {
    forall j | 0 <= j < |t.peers| && j != k ensures PeerOk(t, j) {
      assert PeerOk(s, j);
      PeerStays(s, t, j);
    }
  }

  lemma {:induction false} QueueStepMutation(s: System, t: System, k: nat, r: Revision, base: nat) returns (m: Mutation)
    requires Inv(s) && QueueStep(s, t, k, r, base)
    ensures m.mutationId !in s.issued && m.item.revisionId == m.mutationId == r.revisionId
    ensures t.issued == s.issued[m.mutationId := Ticket(m, Some(k))]
    ensures Registry(t.issued) && PeerOk(t, k)
  {
    var p := s.peers[k];
    m := Queued(p.cache, r, base);
    var e := Queue(p.cache, r, base).value;
    assert e.mutations[|p.cache.mutations|] == m;
    assert PeerOk(s, k) && TracksItem(p, s.server.log, s.issued, r.itemId);
    TicketsAfterQueue(s.issued, GraphOf(p.cache.revisions, r.itemId), m, k);
    QueueKeepsValid(p.cache, r, base);
    assert e == Enqueued(p.cache, m);
    QueuedPeer(s, t, k, m);
  }

  lemma {:induction false} QueueKeepsInv(s: System, t: System, k: nat, r: Revision, base: nat)
    requires Inv(s) && QueueStep(s, t, k, r, base)
    ensures Inv(t)
  {
    var m := QueueStepMutation(s, t, k, r, base);
    MessagesStay(s, t);
    OthersStay(s, t, k);
  }

  // ------------------------------------------------ sending and losing messages

  lemma {:induction false} LoseKeepsInv(s: System, t: System, k: nat)
    requires Inv(s) && LoseStep(s, t, k)
    ensures Inv(t)
  {
    MessagesStay(s, t);
    OthersStay(s, t, k);
    assert PeerOk(s, k);
    var log, issued := s.server.log, s.issued;
    forall item ensures TracksItem(t.peers[k], log, issued, item) {
      assert TracksItem(s.peers[k], log, issued, item);
    }
  }

  lemma {:induction false} SentTailUnsent(s: System, t: System, k: nat, j: nat)
    requires Inv(s) && SendStep(s, t, k) && j < |s.peers| && j != k
    ensures TailUnsent(s.peers[j].cache.mutations, s.peers[j].sent, t.server.log, t.requests)
  {
    var ms := s.peers[j].cache.mutations;
    var new_ := s.peers[k].cache.mutations;
    assert PeerOk(s, j) && PeerOk(s, k);
    forall i | s.peers[j].sent <= i < |ms| ensures !CarriedBy(t.requests, ms[i].mutationId) {
      assert !CarriedBy(s.requests, ms[i].mutationId);
      forall l | 0 <= l < |new_| ensures new_[l].mutationId != ms[i].mutationId {
        assert s.issued[new_[l].mutationId].owner == Some(k);
        assert s.issued[ms[i].mutationId].owner == Some(j);
      }
    }
  }

  lemma {:induction false} SendKeepsInv(s: System, t: System, k: nat)
    requires Inv(s) && SendStep(s, t, k)
    ensures Inv(t)
  {
    MessagesStay(s, t);
    var p := s.peers[k];
    assert PeerOk(s, k);
    forall item ensures TracksItem(t.peers[k], s.server.log, s.issued, item) {
      assert TracksItem(p, s.server.log, s.issued, item);
    }
    assert p.cache.mutations[..|p.cache.mutations|] == p.cache.mutations;
    assert PeerOk(t, k);
    forall j | 0 <= j < |t.peers| && j != k ensures PeerOk(t, j) {
      assert PeerOk(s, j);
      SentTailUnsent(s, t, k, j);
      PeerStays(s, t, j);
    }
  }

  // --------------------------------------------------------- handling a request

  /** Clients queue sorted parents, so normalization changes nothing. */
  lemma {:induction false} RequestIsNormal(req: Request, s: System)
    requires Inv(s) && req in s.requests
    ensures NormalizeAll(req.mutations) == req.mutations
  {
    var ms := req.mutations;
    assert RequestOk(req, s);
    forall j | 0 <= j < |ms| ensures Normalize(ms[j]) == ms[j] {
      assert WellIssued(s.issued, ms[j].mutationId);
      NormalForm(ms[j]);
    }
  }

  lemma {:induction false} SweptLogIssued(log: Ledger, longer: Ledger, rows: seq<nat>, ids: seq<Id>, now: int, issued: map<Id, Ticket>)
    requires LogIssued(log, issued) && |rows| == |ids| && (forall k :: k in rows ==> k < |log|) && Distinct(ids)
    requires forall x :: x in ids ==> x !in issued
    requires GrownBy(log, longer, Tombstones(log, rows, ids), now)
    ensures LogIssued(longer, issued + TombstoneTickets(log, rows, ids))
  {
    var more := issued + TombstoneTickets(log, rows, ids);
    forall k | 0 <= k < |longer| ensures IdAt(longer, k) in more && more[IdAt(longer, k)].mutation == longer[k].mutation {
      if k < |log| {
        assert longer[k] == log[k];
        assert IdAt(log, k) in issued;
      } else {
        var ts := Tombstones(log, rows, ids);
        var j :| 0 <= j < |ts| && ts[j] == longer[k].mutation;
      }
    }
  }

  lemma {:induction false} BatchLogIssued(log: Ledger, longer: Ledger, ms: seq<Mutation>, k: nat, now: int, issued: map<Id, Ticket>)
    requires LogIssued(log, issued) && IssuedQueue(ms, k, issued) && GrownBy(log, longer, ms, now)
    ensures LogIssued(longer, issued)
  {
    forall i | 0 <= i < |longer| ensures IdAt(longer, i) in issued && issued[IdAt(longer, i)].mutation == longer[i].mutation {
      if i < |log| {
        assert longer[i] == log[i];
        assert IdAt(log, i) in issued;
      } else {
        var j :| 0 <= j < |ms| && ms[j] == longer[i].mutation;
      }
    }
  }

  lemma {:induction false} TombstoneTicketOk(s: System, rows: seq<nat>, ids: seq<Id>, x: Id, more: map<Id, Ticket>)
    requires Inv(s) && |rows| == |ids| && (forall k :: k in rows ==> k < |s.server.log|)
    requires x in ids && x != NO_ID && Extends(s.issued, more)
    requires x in more && more[x] == TombstoneTicket(s.server.log, rows, ids, x)
    ensures WellIssued(more, x) && !Creates(more, x)
  {
    var log := s.server.log;
    var k := rows[IndexOf(ids, x)];
    assert k in rows;
    var r := ItemAt(log, k);
    var g := History(log, |log|, r.itemId);
    assert Legal(log, k);
    HistoryRow(log, |log|, k);
    HistoryInUniverse(log, |log|, s.issued, r.itemId);
    var m := Tombstone(r, x);
    assert m.item.parents == [r.revisionId];
    assert MaxRevision(g, m.item.parents) == r.revision;
    NewTicket(s.issued, more, g, m);
  }

  lemma {:induction false} TicketsAfterSweep(s: System, rows: seq<nat>, ids: seq<Id>)
    requires Inv(s) && |rows| == |ids| && (forall k :: k in rows ==> k < |s.server.log|)
    requires FreshIds(s.server.log, ids) && forall x :: x in ids ==> x !in s.issued
    ensures var more := s.issued + TombstoneTickets(s.server.log, rows, ids);
            Extends(s.issued, more) && Registry(more)
            && forall x :: x in more && x !in s.issued ==> more[x].owner == None
  {
    var more := s.issued + TombstoneTickets(s.server.log, rows, ids);
    forall x | x in more && x !in s.issued ensures WellIssued(more, x) && !Creates(more, x) {
      TombstoneTicketOk(s, rows, ids, x, more);
    }
    RegistryGrows(s.issued, more, NO_ID);
  }

  lemma {:induction false} NewRowsSource(log: Ledger, u: Ledger, t: Ledger, ts: seq<Mutation>, ms: seq<Mutation>, now: int, x: Id)
    requires GrownBy(log, u, ts, now) && GrownBy(u, t, ms, now)
    requires Logged(t, |t|, x) && !Logged(log, |log|, x)
    ensures EarlierIn(ts, |ts|, x) || EarlierIn(ms, |ms|, x)
  {
    var k :| 0 <= k < |t| && IdAt(t, k) == x;
    assert k < |log| ==> IdAt(t, k) == IdAt(u, k) == IdAt(log, k);
    if k < |u| {
      assert t[k] == u[k];
      var j :| 0 <= j < |ts| && ts[j] == u[k].mutation;
    } else {
      var j :| 0 <= j < |ms| && ms[j] == t[k].mutation;
    }
  }

  lemma {:induction false} HandledTail(s: System, t: System, k: nat, req: Request, u: Ledger, ts: seq<Mutation>, now: int)
    requires Inv(s) && k < |s.peers| && req in s.requests && t.requests == s.requests
    requires GrownBy(s.server.log, u, ts, now) && GrownBy(u, t.server.log, req.mutations, now)
    requires forall j :: 0 <= j < |ts| ==> ts[j].mutationId !in s.issued
    ensures TailUnsent(s.peers[k].cache.mutations, s.peers[k].sent, t.server.log, t.requests)
  {
    var p := s.peers[k];
    assert PeerOk(s, k);
    forall j | p.sent <= j < |p.cache.mutations|
      ensures !Logged(t.server.log, |t.server.log|, p.cache.mutations[j].mutationId)
    {
      var x := p.cache.mutations[j].mutationId;
      assert x in s.issued && !CarriedBy(s.requests, x);
      if Logged(t.server.log, |t.server.log|, x) {
        NewRowsSource(s.server.log, u, t.server.log, ts, req.mutations, now, x);
      }
    }
  }

  lemma {:induction false} HandledReply(s: System, t: System, req: Request, reply: Reply, input: nat)
    requires input == CursorOf(req.cursor) <= |t.server.log| && ReplyFor(t.server, input, req.mutations, reply)
    requires forall m :: m in req.mutations ==> Recorded(t.server.log, m)
    ensures ReplyOk(req, reply, t.server.log)
  {
    var log := t.server.log;
    forall j | 0 <= j < |req.mutations| ensures Logged(log, |log|, req.mutations[j].mutationId) {
      assert req.mutations[j] in req.mutations;
      var k: nat :| RecordedAt(log, k, req.mutations[j]);
      assert IdAt(log, k) == req.mutations[j].mutationId;
    }
  }

  lemma {:induction false} HandledGrowth(s: System, t: System, req: Request, now: int, rows: seq<nat>, ids: seq<Id>, reply: Reply)
    returns (u: Server)
    requires Inv(s) && HandleStep(s, t, req, now, rows, ids, reply)
    ensures ServerOk(u) && ServerOk(t.server) && AllValid(req.mutations)
    ensures |rows| == |ids| && forall k :: k in rows ==> k < |s.server.log|
    ensures GrownBy(s.server.log, u.log, Tombstones(s.server.log, rows, ids), now)
    ensures GrownBy(u.log, t.server.log, req.mutations, now)
    ensures forall m :: m in req.mutations ==> Recorded(t.server.log, m)
  {
    RequestIsNormal(req, s);
    ProcessedFits(s.server, req.mutations, now, rows, ids);
    u := ProcessPhases(s.server, req.mutations, now, rows, ids);
  }

  lemma {:induction false} HandledPeer(s: System, t: System, k: nat, req: Request, mid: Ledger, ts: seq<Mutation>, now: int)
    requires Inv(s) && k < |s.peers| && t.peers == s.peers && t.requests == s.requests && req in s.requests
    requires GrownBy(s.server.log, mid, ts, now) && GrownBy(mid, t.server.log, req.mutations, now)
    requires forall j :: 0 <= j < |ts| ==> ts[j].mutationId !in s.issued
    requires LegalLog(t.server.log) && LogIssued(t.server.log, t.issued) && Extends(s.issued, t.issued)
    requires forall x :: x in t.issued && x !in s.issued ==> t.issued[x].owner == None
    ensures PeerOk(t, k)
  {
    assert PeerOk(s, k);
    HandledTail(s, t, k, req, mid, ts, now);
    PeerStays(s, t, k);
  }

  lemma {:induction false} HandledTickets(s: System, t: System, req: Request, now: int, rows: seq<nat>, ids: seq<Id>, reply: Reply)
    requires Inv(s) && HandleStep(s, t, req, now, rows, ids, reply)
    ensures Registry(t.issued) && Extends(s.issued, t.issued) && |rows| == |ids|
    ensures forall x :: x in t.issued && x !in s.issued ==> t.issued[x].owner == None
    ensures forall x :: x in ids ==> x in t.issued && x !in s.issued
  {
    TicketsAfterSweep(s, rows, ids);
  }

  lemma {:induction false} HandledSweep(s: System, t: System, req: Request, now: int, rows: seq<nat>, ids: seq<Id>, reply: Reply, mid: Ledger)
    requires Inv(s) && HandleStep(s, t, req, now, rows, ids, reply) && |rows| == |ids|
    requires forall k :: k in rows ==> k < |s.server.log|
    requires GrownBy(s.server.log, mid, Tombstones(s.server.log, rows, ids), now)
    ensures LogIssued(mid, t.issued)
  {
    SweptLogIssued(s.server.log, mid, rows, ids, now, s.issued);
  }

  /** What handling a request does to history and registry: tombstones of nobody, then
      the batch. */
  lemma {:induction false} HandledTables(s: System, t: System, req: Request, now: int, rows: seq<nat>, ids: seq<Id>, reply: Reply)
    returns (mid: Ledger, ts: seq<Mutation>)
    requires Inv(s) && HandleStep(s, t, req, now, rows, ids, reply)
    ensures GrownBy(s.server.log, mid, ts, now) && GrownBy(mid, t.server.log, req.mutations, now)
    ensures ServerOk(t.server) && LogIssued(mid, t.issued)
    ensures forall m :: m in req.mutations ==> Recorded(t.server.log, m)
    ensures forall j :: 0 <= j < |ts| ==> ts[j].mutationId in ids
  {
    var u := HandledGrowth(s, t, req, now, rows, ids, reply);
    mid, ts := u.log, Tombstones(s.server.log, rows, ids);
    HandledSweep(s, t, req, now, rows, ids, reply, mid);
    forall j | 0 <= j < |ts| ensures ts[j].mutationId in ids { assert ids[j] in ids; }
  }

  lemma {:induction false} HandleKeepsMessages(s: System, t: System, req: Request, now: int, rows: seq<nat>, ids: seq<Id>, reply: Reply)
    requires Inv(s) && HandleStep(s, t, req, now, rows, ids, reply)
    requires s.server.log <= t.server.log && Extends(s.issued, t.issued)
    requires forall m :: m in req.mutations ==> Recorded(t.server.log, m)
    ensures forall r :: r in t.requests ==> RequestOk(r, t)
    ensures forall pair :: pair in t.replies ==> pair.0 in t.requests && ReplyOk(pair.0, pair.1, t.server.log)
  {
    RequestIsNormal(req, s);
    HandledReply(s, t, req, reply, CursorOf(req.cursor));
    MessagesStay(s, t);
  }

  lemma {:induction false} HandleKeepsInv(s: System, t: System, req: Request, now: int, rows: seq<nat>, ids: seq<Id>, reply: Reply)
    requires Inv(s) && HandleStep(s, t, req, now, rows, ids, reply)
    ensures Inv(t)
  {
    var mid, ts := HandledTables(s, t, req, now, rows, ids, reply);
    HandledTickets(s, t, req, now, rows, ids, reply);
    assert RequestOk(req, s);
    BatchLogIssued(mid, t.server.log, req.mutations, req.client, now, t.issued);
    HandleKeepsMessages(s, t, req, now, rows, ids, reply);
    forall k | 0 <= k < |t.peers| ensures PeerOk(t, k) { HandledPeer(s, t, k, req, mid, ts, now); }
  }

  // ------------------------------------------------------- applying a reply

  lemma {:induction false} UnacknowledgedLast(ms: seq<Mutation>, m: Mutation, applied: seq<Id>)
    ensures Unacknowledged(ms + [m], applied) == Unacknowledged(ms, applied) + if m.mutationId in applied then [] else [m]
  {
    assert (ms + [m])[..|ms|] == ms;
  }

  lemma {:induction false} UnacknowledgedPrefix(ms: seq<Mutation>, applied: seq<Id>, n: nat, i: nat)
    requires n <= |ms| && i <= |ms|
    requires forall j :: 0 <= j < |ms| ==> (ms[j].mutationId in applied <==> j < n)
    ensures Unacknowledged(ms[..i], applied) == if i <= n then [] else ms[n..i]
  {
    if i > 0 {
      var j := i - 1;
      UnacknowledgedPrefix(ms, applied, n, j);
      assert ms[..i] == ms[..j] + [ms[j]];
      UnacknowledgedLast(ms[..j], ms[j], applied);
      if i > n { assert ms[n..i] == ms[n..j] + [ms[j]]; }
    }
  }

  /** Acknowledging exactly what was sent leaves exactly what was queued since. */
  lemma {:induction false} AckLeavesTail(ms: seq<Mutation>, k: nat, n: nat, issued: map<Id, Ticket>)
    requires n <= |ms| && IssuedQueue(ms, k, issued)
    ensures Unacknowledged(ms, Ids(ms[..n])) == ms[n..]
  {
    var applied := Ids(ms[..n]);
    forall j | 0 <= j < |ms| ensures ms[j].mutationId in applied <==> j < n {
      if j < n { assert applied[j] == ms[j].mutationId; }
    }
    UnacknowledgedPrefix(ms, applied, n, |ms|);
    assert ms[..|ms|] == ms;
  }

  lemma {:induction false} HistoryRowIsValidChange(log: Ledger, k: nat)
    requires LegalLog(log) && k < |log|
    ensures ValidChange(ItemAt(log, k))
  {
    assert Legal(log, k);
  }

  /** Every reply passes the checks the client makes before touching its cache. */
  lemma {:induction false} ReplyIsValid(req: Request, r: Reply, log: Ledger)
    requires LegalLog(log) && |log| <= MAX_REVISION && ReplyOk(req, r, log)
    ensures ValidReply(r)
  {
    forall x | x in r.applied ensures x != NO_ID {
      var j :| 0 <= j < |r.applied| && r.applied[j] == x;
      assert Logged(log, |log|, req.mutations[j].mutationId);
      var k :| 0 <= k < |log| && IdAt(log, k) == req.mutations[j].mutationId;
      assert Legal(log, k);
    }
    forall c | c in r.changes ensures ValidChange(c) {
      var j :| 0 <= j < |r.changes| && r.changes[j] == c;
      if r.full {
        SnapshotRowsAreValid(log, r.cursor, r.changes, j);
        var k :| 0 <= k < r.cursor && r.changes[j] == ItemAt(log, k);
        HistoryRowIsValidChange(log, k);
      } else {
        HistoryRowIsValidChange(log, CursorOf(req.cursor) + j);
      }
    }
  }

  ghost predicate GraphTracks(graphs: map<Id, Graph>, ms: seq<Mutation>, log: Ledger, c: nat, issued: map<Id, Ticket>, rows: seq<Revision>, item: Id)
    requires c <= |log|
  {
    Tracks(Universe(issued, item), History(log, |log|, item), History(log, c, item),
           QueueGraph(ms, item), GraphOf(graphs, item), Lost(rows, item))
  }

  ghost predicate AllTrack(graphs: map<Id, Graph>, ms: seq<Mutation>, log: Ledger, c: nat, issued: map<Id, Ticket>, rows: seq<Revision>) {
    c <= |log| && forall item :: GraphTracks(graphs, ms, log, c, issued, rows, item)
  }

  ghost predicate Unlogged(ms: seq<Mutation>, log: Ledger) {
    forall j :: 0 <= j < |ms| ==> !Logged(log, |log|, ms[j].mutationId)
  }

  lemma {:induction false} NotQueued(ms: seq<Mutation>, k: nat, issued: map<Id, Ticket>, log: Ledger, x: Id, item: Id)
    requires IssuedQueue(ms, k, issued) && Registry(issued) && Unlogged(ms, log) && Logged(log, |log|, x)
    ensures x !in QueueGraph(ms, item)
  {
    QueueGraphMembers(ms, k, issued, item);
    forall j | 0 <= j < |ms| ensures ms[j].mutationId != x {
      assert !Logged(log, |log|, ms[j].mutationId);
    }
  }

  /** After the acknowledgement the cache tracks the same history, minus the
      acknowledged part of the queue. */
  lemma {:induction false} EarlierInTail(ms: seq<Mutation>, n: nat, x: Id)
    requires n <= |ms|
    ensures EarlierIn(ms[n..], |ms[n..]|, x) ==> EarlierIn(ms, |ms|, x)
    ensures EarlierIn(ms, |ms|, x) && !EarlierIn(ms[n..], |ms[n..]|, x) ==> exists j :: 0 <= j < n && ms[j].mutationId == x
  {
    var tail := ms[n..];
    forall j | 0 <= j < |tail| ensures tail[j] == ms[n + j] {}
    forall j | n <= j < |ms| ensures ms[j] == tail[j - n] {}
  }

  /** The queued graph shrinks only by what the history already has. */
  lemma {:induction false} QueueGraphTail(ms: seq<Mutation>, k: nat, n: nat, log: Ledger, issued: map<Id, Ticket>, item: Id)
    requires n <= |ms| && IssuedQueue(ms, k, issued) && IssuedQueue(ms[n..], k, issued) && Registry(issued)
    requires LegalLog(log) && LogIssued(log, issued)
    requires forall j :: 0 <= j < n ==> Logged(log, |log|, ms[j].mutationId)
    ensures Within(QueueGraph(ms[n..], item), QueueGraph(ms, item))
    ensures QueueGraph(ms, item).Keys <= QueueGraph(ms[n..], item).Keys + History(log, |log|, item).Keys
  {
    QueueGraphMembers(ms, k, issued, item);
    QueueGraphMembers(ms[n..], k, issued, item);
    forall x | x in QueueGraph(ms[n..], item) ensures x in QueueGraph(ms, item) { EarlierInTail(ms, n, x); }
    forall x | x in QueueGraph(ms, item) && x !in QueueGraph(ms[n..], item) ensures x in History(log, |log|, item) {
      EarlierInTail(ms, n, x);
      LoggedInHistory(log, |log|, issued, x);
    }
  }

  lemma {:induction false} TracksAfterAckItem(p: Peer, k: nat, n: nat, log: Ledger, issued: map<Id, Ticket>, item: Id)
    requires IssuedQueue(p.cache.mutations, k, issued) && Registry(issued) && n <= |p.cache.mutations|
    requires IssuedQueue(p.cache.mutations[n..], k, issued)
    requires LegalLog(log) && LogIssued(log, issued) && TracksServer(p, log, issued)
    requires forall j :: 0 <= j < n ==> Logged(log, |log|, p.cache.mutations[j].mutationId)
    ensures GraphTracks(p.cache.revisions, p.cache.mutations[n..], log, CursorOf(p.cache.cursor), issued, p.rows, item)
  {
    var q, q' := QueueGraph(p.cache.mutations, item), QueueGraph(p.cache.mutations[n..], item);
    QueueGraphTail(p.cache.mutations, k, n, log, issued, item);
    assert TracksItem(p, log, issued, item);
  }

  lemma {:induction false} PreservedFacts(g: Graph, ms: seq<Mutation>, k: nat, t: Revision, issued: map<Id, Ticket>)
    requires IssuedQueue(ms, k, issued) && Registry(issued)
    requires Within(g, Universe(issued, t.itemId))
    requires t.revisionId in Universe(issued, t.itemId) && Universe(issued, t.itemId)[t.revisionId] == t
    ensures IsPreserved(g, QueueGraph(ms, t.itemId), t, Preserved(g, ms, t))
    ensures Within(Preserved(g, ms, t), Universe(issued, t.itemId))
  {
    QueuedOverGraph(map[t.revisionId := t] + LiveHeads(g), ms, |ms|, t.itemId);
    QueueGraphMembers(ms, k, issued, t.itemId);
  }

  /** What the next row of the history is to a client that has seen c rows. */
  lemma {:induction false} NextRow(ms: seq<Mutation>, k: nat, log: Ledger, c: nat, issued: map<Id, Ticket>)
    requires LegalLog(log) && LogIssued(log, issued) && Registry(issued) && IssuedQueue(ms, k, issued) && Unlogged(ms, log)
    requires c < |log|
    ensures var r := ItemAt(log, c); var h := History(log, c, r.itemId);
            && r.revisionId == IdAt(log, c)
            && r.revisionId in History(log, |log|, r.itemId) && History(log, |log|, r.itemId)[r.revisionId] == r
            && r.revisionId in Universe(issued, r.itemId) && Universe(issued, r.itemId)[r.revisionId] == r
            && r.revisionId !in h && r.revisionId !in QueueGraph(ms, r.itemId)
            && Heads(h[r.revisionId := r]) == Heads(h) - IdSet(r.parents) + {r.revisionId}
            && (r.purged ==> Heads(h) <= IdSet(r.parents) && Heads(h[r.revisionId := r]) == {r.revisionId})
  {
    var r := ItemAt(log, c);
    assert Legal(log, c);
    assert IdAt(log, c) in issued;
    HistoryRow(log, |log|, c);
    FreshInHistory(log, c, r.itemId, r.revisionId);
    assert Logged(log, |log|, r.revisionId) by { assert IdAt(log, c) == r.revisionId; }
    NotQueued(ms, k, issued, log, r.revisionId, r.itemId);
    HeadsStep(log, c);
    if r.purged { PurgeIsOnlyHead(log, c); }
  }

  /** One incremental change, for its own item. */
  lemma {:induction false} DeltaItem(graphs: map<Id, Graph>, ms: seq<Mutation>, k: nat, log: Ledger, c: nat, issued: map<Id, Ticket>, rows: seq<Revision>)
    requires LegalLog(log) && LogIssued(log, issued) && Registry(issued) && IssuedQueue(ms, k, issued) && Unlogged(ms, log)
    requires c < |log| && GraphTracks(graphs, ms, log, c, issued, rows, ItemAt(log, c).itemId)
    ensures ApplyChange(graphs, ms, ItemAt(log, c)).Ok?
    ensures GraphTracks(ApplyChange(graphs, ms, ItemAt(log, c)).value, ms, log, c + 1, issued, rows, ItemAt(log, c).itemId)
  {
    var r := ItemAt(log, c);
    var item := r.itemId;
    var u, f, h := Universe(issued, item), History(log, |log|, item), History(log, c, item);
    var q, g := QueueGraph(ms, item), GraphOf(graphs, item);
    NextRow(ms, k, log, c, issued);
    if r.purged {
      PreservedFacts(g, ms, k, r, issued);
      TracksAfterTombstone(u, f, h, q, g, Lost(rows, item), r, Preserved(g, ms, r));
    } else {
      TracksAfterRevision(u, f, h, q, g, Lost(rows, item), r);
    }
  }

  lemma {:induction false} DeltaStep(graphs: map<Id, Graph>, ms: seq<Mutation>, k: nat, log: Ledger, c: nat, issued: map<Id, Ticket>, rows: seq<Revision>)
    requires LegalLog(log) && LogIssued(log, issued) && Registry(issued) && IssuedQueue(ms, k, issued) && Unlogged(ms, log)
    requires c < |log| && AllTrack(graphs, ms, log, c, issued, rows)
    ensures ApplyChange(graphs, ms, ItemAt(log, c)).Ok?
    ensures AllTrack(ApplyChange(graphs, ms, ItemAt(log, c)).value, ms, log, c + 1, issued, rows)
  {
    var r, next := ItemAt(log, c), c + 1;
    assert GraphTracks(graphs, ms, log, c, issued, rows, r.itemId);
    DeltaItem(graphs, ms, k, log, c, issued, rows);
    var after := ApplyChange(graphs, ms, r).value;
    forall item ensures GraphTracks(after, ms, log, next, issued, rows, item) {
      if item != r.itemId {
        assert GraphTracks(graphs, ms, log, c, issued, rows, item);
      }
    }
  }

  lemma {:induction false} DeltaTracks(graphs: map<Id, Graph>, ms: seq<Mutation>, k: nat, log: Ledger, c: nat, issued: map<Id, Ticket>,
                                       rows: seq<Revision>, changes: seq<Revision>, n: nat)
    requires LegalLog(log) && LogIssued(log, issued) && Registry(issued) && IssuedQueue(ms, k, issued) && Unlogged(ms, log)
    requires AllTrack(graphs, ms, log, c, issued, rows)
    requires n <= |changes| && c + |changes| <= |log|
    requires forall j :: 0 <= j < |changes| ==> changes[j] == ItemAt(log, c + j)
    ensures ApplyChanges(graphs, ms, changes, n).Ok?
    ensures AllTrack(ApplyChanges(graphs, ms, changes, n).value, ms, log, c + n, issued, rows)
  {
    if n > 0 {
      var last, at := n - 1, c + (n - 1);
      assert changes[last] == ItemAt(log, at);
      DeltaTracks(graphs, ms, k, log, c, issued, rows, changes, last);
      DeltaStep(ApplyChanges(graphs, ms, changes, last).value, ms, k, log, at, issued, rows);
    }
  }

  // ------------------------------------------------------- a full snapshot

  /** Snapshot rows of the item among the first n. */
  function Seen(cs: seq<Revision>, n: nat, item: Id): set<Id>
    requires n <= |cs|
  {
    if n == 0 then {}
    else if cs[n - 1].itemId == item then Seen(cs, n - 1, item) + {cs[n - 1].revisionId}
    else Seen(cs, n - 1, item)
  }

  /** Trashed rows of the item that a tombstone row came after. */
  function DroppedBy(cs: seq<Revision>, n: nat, item: Id, h: Graph): set<Id>
    requires n <= |cs|
  {
    if n == 0 then {}
    else if cs[n - 1].itemId == item && cs[n - 1].purged then TrashOf(h, Seen(cs, n - 1, item))
    else DroppedBy(cs, n - 1, item, h)
  }

  lemma {:induction false} SeenMembers(cs: seq<Revision>, n: nat, item: Id, x: Id)
    requires n <= |cs|
    ensures x in Seen(cs, n, item) <==> exists j :: 0 <= j < n && cs[j].itemId == item && cs[j].revisionId == x
  {
    if n > 0 {
      SeenMembers(cs, n - 1, item, x);
      if cs[n - 1].itemId == item && cs[n - 1].revisionId == x {
        assert x in Seen(cs, n, item);
      }
    }
  }

  ghost predicate SnapshotTracks(graphs: map<Id, Graph>, ms: seq<Mutation>, log: Ledger, c: nat, issued: map<Id, Ticket>,
                                 cs: seq<Revision>, n: nat, item: Id)
    requires c <= |log| && n <= |cs|
  {
    var h := History(log, c, item);
    Rebuilding(Universe(issued, item), h, QueueGraph(ms, item), GraphOf(graphs, item), Seen(cs, n, item), DroppedBy(cs, n, item, h))
  }

  ghost predicate AllSnapshot(graphs: map<Id, Graph>, ms: seq<Mutation>, log: Ledger, c: nat, issued: map<Id, Ticket>,
                              cs: seq<Revision>, n: nat)
  {
    c <= |log| && n <= |cs| && forall item :: SnapshotTracks(graphs, ms, log, c, issued, cs, n, item)
  }

  lemma {:induction false} HistoryHasOneTombstone(log: Ledger, c: nat, item: Id)
    requires LegalLog(log) && c <= |log|
    ensures OneTombstone(History(log, c, item))
  {
    var h := History(log, c, item);
    forall x, y | x in Heads(h) && y in Heads(h) && h[x].purged && h[y].purged ensures x == y {
      OneTombstoneHead(log, c, item, x, y);
    }
  }

  lemma {:induction false} SnapshotItem(graphs: map<Id, Graph>, ms: seq<Mutation>, k: nat, log: Ledger, c: nat, issued: map<Id, Ticket>,
                     cs: seq<Revision>, n: nat)
    requires LegalLog(log) && LogIssued(log, issued) && Registry(issued) && IssuedQueue(ms, k, issued)
    requires c <= |log| && n < |cs| && SnapshotOf(log, c, cs)
    requires SnapshotTracks(graphs, ms, log, c, issued, cs, n, cs[n].itemId)
    ensures ApplyChange(graphs, ms, cs[n]).Ok?
    ensures SnapshotTracks(ApplyChange(graphs, ms, cs[n]).value, ms, log, c, issued, cs, n + 1, cs[n].itemId)
  {
    var r := cs[n];
    var item := r.itemId;
    var u, h, q, g := Universe(issued, item), History(log, c, item), QueueGraph(ms, item), GraphOf(graphs, item);
    HistoryInUniverse(log, c, issued, item);
    HistoryHasOneTombstone(log, c, item);
    SeenMembers(cs, n, item, r.revisionId);
    assert HeadRow(log, c, r);
    assert r.revisionId in Heads(h) && h[r.revisionId] == r;
    var g' := if r.purged then Preserved(g, ms, r) else g[r.revisionId := r];
    if r.purged { PreservedFacts(g, ms, k, r, issued); }
    RebuildingStep(u, h, q, g, Seen(cs, n, item), DroppedBy(cs, n, item, h), r, g');
  }

  lemma {:induction false} SnapshotOtherItem(graphs: map<Id, Graph>, ms: seq<Mutation>, log: Ledger, c: nat, issued: map<Id, Ticket>,
                                             cs: seq<Revision>, n: nat, item: Id)
    requires c <= |log| && n < |cs| && item != cs[n].itemId && ApplyChange(graphs, ms, cs[n]).Ok?
    requires SnapshotTracks(graphs, ms, log, c, issued, cs, n, item)
    ensures SnapshotTracks(ApplyChange(graphs, ms, cs[n]).value, ms, log, c, issued, cs, n + 1, item)
  {
    assert GraphOf(ApplyChange(graphs, ms, cs[n]).value, item) == GraphOf(graphs, item);
  }

  lemma {:induction false} SnapshotStep(graphs: map<Id, Graph>, ms: seq<Mutation>, k: nat, log: Ledger, c: nat, issued: map<Id, Ticket>,
                                        cs: seq<Revision>, n: nat)
    requires LegalLog(log) && LogIssued(log, issued) && Registry(issued) && IssuedQueue(ms, k, issued)
    requires c <= |log| && n < |cs| && SnapshotOf(log, c, cs)
    requires AllSnapshot(graphs, ms, log, c, issued, cs, n)
    ensures ApplyChange(graphs, ms, cs[n]).Ok?
    ensures AllSnapshot(ApplyChange(graphs, ms, cs[n]).value, ms, log, c, issued, cs, n + 1)
  {
    var next, own := n + 1, cs[n].itemId;
    assert SnapshotTracks(graphs, ms, log, c, issued, cs, n, own);
    SnapshotItem(graphs, ms, k, log, c, issued, cs, n);
    var after := ApplyChange(graphs, ms, cs[n]).value;
    forall item ensures SnapshotTracks(after, ms, log, c, issued, cs, next, item) {
      if item != own {
        assert SnapshotTracks(graphs, ms, log, c, issued, cs, n, item);
        SnapshotOtherItem(graphs, ms, log, c, issued, cs, n, item);
      }
    }
  }

  lemma {:induction false} SnapshotStarts(ms: seq<Mutation>, k: nat, log: Ledger, c: nat, issued: map<Id, Ticket>, cs: seq<Revision>, item: Id)
    requires LegalLog(log) && LogIssued(log, issued) && Registry(issued) && IssuedQueue(ms, k, issued) && Unlogged(ms, log)
    requires c <= |log|
    ensures SnapshotTracks(Rebuilt(ms, |ms|), ms, log, c, issued, cs, 0, item)
  {
    QueuedGraph(ms, |ms|, item);
    QueueGraphMembers(ms, k, issued, item);
    HistoryInUniverse(log, c, issued, item);
    forall x | x in History(log, c, item) ensures x !in QueueGraph(ms, item) {
      HistoryGrows(log, c, |log|, item);
      HistoryIsLogged(log, |log|, item, x);
      NotQueued(ms, k, issued, log, x, item);
    }
  }

  lemma {:induction false} SnapshotStartsAll(ms: seq<Mutation>, k: nat, log: Ledger, c: nat, issued: map<Id, Ticket>, cs: seq<Revision>)
    requires LegalLog(log) && LogIssued(log, issued) && Registry(issued) && IssuedQueue(ms, k, issued) && Unlogged(ms, log)
    requires c <= |log|
    ensures AllSnapshot(Rebuilt(ms, |ms|), ms, log, c, issued, cs, 0)
  {
    var start := Rebuilt(ms, |ms|);
    forall item ensures SnapshotTracks(start, ms, log, c, issued, cs, 0, item) {
      SnapshotStarts(ms, k, log, c, issued, cs, item);
    }
  }

  lemma {:induction false} SnapshotRows(start: map<Id, Graph>, ms: seq<Mutation>, k: nat, log: Ledger, c: nat, issued: map<Id, Ticket>,
                                        cs: seq<Revision>, n: nat)
    requires LegalLog(log) && LogIssued(log, issued) && Registry(issued) && IssuedQueue(ms, k, issued)
    requires c <= |log| && n <= |cs| && SnapshotOf(log, c, cs)
    requires AllSnapshot(start, ms, log, c, issued, cs, 0)
    ensures ApplyChanges(start, ms, cs, n).Ok?
    ensures AllSnapshot(ApplyChanges(start, ms, cs, n).value, ms, log, c, issued, cs, n)
  {
    if n > 0 {
      SnapshotRows(start, ms, k, log, c, issued, cs, n - 1);
      var before := ApplyChanges(start, ms, cs, n - 1).value;
      SnapshotStep(before, ms, k, log, c, issued, cs, n - 1);
      assert ApplyChanges(start, ms, cs, n) == ApplyChange(before, ms, cs[n - 1]);
    }
  }

  lemma {:induction false} SeenAll(log: Ledger, c: nat, cs: seq<Revision>, item: Id)
    requires c <= |log| && SnapshotOf(log, c, cs) && LegalLog(log)
    ensures Seen(cs, |cs|, item) == HeadsAt(log, c, item)
  {
    forall x ensures x in Seen(cs, |cs|, item) <==> x in HeadsAt(log, c, item) {
      SeenMembers(cs, |cs|, item, x);
      assert forall j :: 0 <= j < |cs| ==> HeadRow(log, c, cs[j]);
      if x in HeadsAt(log, c, item) {
        HistoryClosed(log, c, item);
        var r := History(log, c, item)[x];
        assert HeadListed(log, c, cs, item, x);
        var j :| 0 <= j < |cs| && cs[j] == r;
        assert cs[j].itemId == item && cs[j].revisionId == x;
      }
    }
  }

  /** Which trashed heads applying the rows in order drops: those before the tombstone. */
  lemma {:induction false} DroppedMeaning(cs: seq<Revision>, n: nat, item: Id, h: Graph, x: Id)
    requires n <= |cs|
    ensures x in DroppedBy(cs, n, item, h) <==>
              x in h && Trashed(h[x]) && exists b :: 0 <= b < n && cs[b].itemId == item && cs[b].purged && x in Seen(cs, b, item)
  {
    if n > 0 {
      DroppedMeaning(cs, n - 1, item, h, x);
      var last := cs[n - 1].itemId == item && cs[n - 1].purged;
      if last {
        forall b | 0 <= b < n && x in Seen(cs, b, item) ensures x in Seen(cs, n - 1, item) { SeenGrows(cs, b, n - 1, item, x); }
      }
    }
  }

  lemma {:induction false} SeenGrows(cs: seq<Revision>, m: nat, n: nat, item: Id, x: Id)
    requires m <= n <= |cs| && x in Seen(cs, m, item)
    ensures x in Seen(cs, n, item)
    decreases n
  {
    if m < n { SeenGrows(cs, m, n - 1, item, x); }
  }

  /** They are the heads the order of the rows loses. */
  lemma {:induction false} DroppedIsLost(log: Ledger, c: nat, cs: seq<Revision>, item: Id)
    requires LegalLog(log) && c <= |log| && SnapshotOf(log, c, cs)
    ensures DroppedBy(cs, |cs|, item, History(log, c, item)) == Lost(cs, item)
  {
    var h := History(log, c, item);
    assert forall j :: 0 <= j < |cs| ==> HeadRow(log, c, cs[j]);
    forall x ensures x in DroppedBy(cs, |cs|, item, h) <==> x in Lost(cs, item) {
      DroppedMeaning(cs, |cs|, item, h, x);
      if x in DroppedBy(cs, |cs|, item, h) {
        var b: nat :| b < |cs| && cs[b].itemId == item && cs[b].purged && x in Seen(cs, b, item);
        SeenMembers(cs, b, item, x);
        var i: nat :| i < b && cs[i].itemId == item && cs[i].revisionId == x;
        assert Displaces(cs, item, i, b);
      }
      if x in Lost(cs, item) {
        var i: nat, j: nat :| i < |cs| && j < |cs| && Displaces(cs, item, i, j) && x == cs[i].revisionId;
        SeenMembers(cs, j, item, x);
      }
    }
  }

  /** A snapshot applied in any row order tracks the server at its cursor. */
  lemma {:induction false} AppliedSnapshotTracks(ms: seq<Mutation>, k: nat, log: Ledger, c: nat, issued: map<Id, Ticket>, cs: seq<Revision>, item: Id)
    requires LegalLog(log) && LogIssued(log, issued) && Registry(issued) && IssuedQueue(ms, k, issued) && Unlogged(ms, log)
    requires c <= |log| && SnapshotOf(log, c, cs)
    requires ApplyChanges(Rebuilt(ms, |ms|), ms, cs, |cs|).Ok?
    requires SnapshotTracks(ApplyChanges(Rebuilt(ms, |ms|), ms, cs, |cs|).value, ms, log, c, issued, cs, |cs|, item)
    ensures GraphTracks(ApplyChanges(Rebuilt(ms, |ms|), ms, cs, |cs|).value, ms, log, c, issued, cs, item)
  {
    var graphs := ApplyChanges(Rebuilt(ms, |ms|), ms, cs, |cs|).value;
    var u, f, h := Universe(issued, item), History(log, |log|, item), History(log, c, item);
    var q, g := QueueGraph(ms, item), GraphOf(graphs, item);
    var dropped := DroppedBy(cs, |cs|, item, h);
    SeenAll(log, c, cs, item);
    HistoryInUniverse(log, |log|, issued, item);
    HistoryGrows(log, c, |log|, item);
    RebuiltTracks(u, f, h, q, g, dropped);
    DroppedIsLost(log, c, cs, item);
  }

  // --------------------------------------------------------- the delivery step

  lemma {:induction false} TailFacts(ms: seq<Mutation>, k: nat, n: nat, log: Ledger, issued: map<Id, Ticket>, requests: set<Request>)
    requires IssuedQueue(ms, k, issued) && ParentsFirst(ms, log) && TailUnsent(ms, n, log, requests)
    requires forall j :: 0 <= j < n ==> Logged(log, |log|, ms[j].mutationId)
    ensures IssuedQueue(ms[n..], k, issued) && ParentsFirst(ms[n..], log)
    ensures TailUnsent(ms[n..], 0, log, requests) && Unlogged(ms[n..], log)
  {
    var tail := ms[n..];
    forall j, p | 0 <= j < |tail| && p in tail[j].item.parents ensures Logged(log, |log|, p) || EarlierIn(tail, j, p) {
      assert tail[j] == ms[n + j];
      assert Logged(log, |log|, p) || EarlierIn(ms, n + j, p);
      if EarlierIn(ms, n + j, p) {
        var i :| 0 <= i < n + j && i < |ms| && ms[i].mutationId == p;
        if i >= n { assert tail[i - n].mutationId == p; }
      }
    }
    forall j | 0 <= j < |tail|
      ensures !Logged(log, |log|, tail[j].mutationId) && !CarriedBy(requests, tail[j].mutationId)
    {
      assert tail[j] == ms[n + j];
    }
  }

  lemma {:induction false} SnapshotDelivered(ms: seq<Mutation>, k: nat, log: Ledger, c: nat, issued: map<Id, Ticket>, cs: seq<Revision>)
    requires LegalLog(log) && LogIssued(log, issued) && Registry(issued) && IssuedQueue(ms, k, issued) && Unlogged(ms, log)
    requires c <= |log| && SnapshotOf(log, c, cs)
    ensures ApplyChanges(Rebuilt(ms, |ms|), ms, cs, |cs|).Ok?
    ensures AllTrack(ApplyChanges(Rebuilt(ms, |ms|), ms, cs, |cs|).value, ms, log, c, issued, cs)
  {
    var start := Rebuilt(ms, |ms|);
    SnapshotStartsAll(ms, k, log, c, issued, cs);
    SnapshotRows(start, ms, k, log, c, issued, cs, |cs|);
    var after := ApplyChanges(start, ms, cs, |cs|).value;
    forall item ensures GraphTracks(after, ms, log, c, issued, cs, item) {
      assert SnapshotTracks(after, ms, log, c, issued, cs, |cs|, item);
      AppliedSnapshotTracks(ms, k, log, c, issued, cs, item);
    }
  }

  lemma {:induction false} DeltaStart(p: Peer, k: nat, log: Ledger, issued: map<Id, Ticket>)
    requires LegalLog(log) && LogIssued(log, issued) && Registry(issued)
    requires IssuedQueue(p.cache.mutations, k, issued) && p.sent <= |p.cache.mutations|
    requires TracksServer(p, log, issued)
    requires forall j :: 0 <= j < p.sent ==> Logged(log, |log|, p.cache.mutations[j].mutationId)
    ensures AllTrack(p.cache.revisions, p.cache.mutations[p.sent..], log, CursorOf(p.cache.cursor), issued, p.rows)
  {
    var c, tail := CursorOf(p.cache.cursor), p.cache.mutations[p.sent..];
    forall item ensures GraphTracks(p.cache.revisions, tail, log, c, issued, p.rows, item) {
      TracksAfterAckItem(p, k, p.sent, log, issued, item);
    }
  }

  lemma {:induction false} DeltaItemsTrack(graphs: map<Id, Graph>, ms: seq<Mutation>, k: nat, log: Ledger, c: nat, issued: map<Id, Ticket>,
                                           rows: seq<Revision>, cs: seq<Revision>, end: nat)
    requires LegalLog(log) && LogIssued(log, issued) && Registry(issued) && IssuedQueue(ms, k, issued) && Unlogged(ms, log)
    requires AllTrack(graphs, ms, log, c, issued, rows)
    requires c <= end <= |log| && cs == Items(log, c, end)
    ensures ApplyChanges(graphs, ms, cs, |cs|).Ok?
    ensures AllTrack(ApplyChanges(graphs, ms, cs, |cs|).value, ms, log, end, issued, rows)
  {
    var n := |cs|;
    assert c + n == end;
    DeltaTracks(graphs, ms, k, log, c, issued, rows, cs, n);
  }

  lemma {:induction false} DeltaDelivered(p: Peer, k: nat, log: Ledger, issued: map<Id, Ticket>, requests: set<Request>, cs: seq<Revision>, end: nat)
    requires LegalLog(log) && LogIssued(log, issued) && Registry(issued)
    requires IssuedQueue(p.cache.mutations, k, issued) && ParentsFirst(p.cache.mutations, log)
    requires TailUnsent(p.cache.mutations, p.sent, log, requests) && TracksServer(p, log, issued)
    requires forall j :: 0 <= j < p.sent ==> Logged(log, |log|, p.cache.mutations[j].mutationId)
    requires CursorOf(p.cache.cursor) <= end <= |log| && cs == Items(log, CursorOf(p.cache.cursor), end)
    ensures var tail := p.cache.mutations[p.sent..];
            && ApplyChanges(p.cache.revisions, tail, cs, |cs|).Ok?
            && AllTrack(ApplyChanges(p.cache.revisions, tail, cs, |cs|).value, tail, log, end, issued, p.rows)
  {
    TailFacts(p.cache.mutations, k, p.sent, log, issued, requests);
    DeltaStart(p, k, log, issued);
    DeltaItemsTrack(p.cache.revisions, p.cache.mutations[p.sent..], k, log, CursorOf(p.cache.cursor), issued, p.rows, cs, end);
  }

  /** The peer after applying a reply. */
  function Delivered(p: Peer, d: CacheData, r: Reply): Peer {
    Peer(d, 0, None, if r.full then r.changes else p.rows)
  }

  lemma {:induction false} TracksWhenAllTrack(p: Peer, d: CacheData, r: Reply, log: Ledger, issued: map<Id, Ticket>, rows: seq<Revision>)
    requires AllTrack(d.revisions, d.mutations, log, r.cursor, issued, rows) && d.cursor == Some(r.cursor)
    requires rows == if r.full then r.changes else p.rows
    ensures TracksServer(Delivered(p, d, r), log, issued)
  {
    var q := Delivered(p, d, r);
    forall item ensures TracksItem(q, log, issued, item) {
      assert GraphTracks(d.revisions, d.mutations, log, r.cursor, issued, rows, item);
    }
  }

  lemma {:induction false} FullGraphs(s: System, k: nat, r: Reply)
    requires Inv(s) && k < |s.peers| && s.peers[k].sent <= |s.peers[k].cache.mutations|
    requires r.full && r.cursor <= |s.server.log| && SnapshotOf(s.server.log, r.cursor, r.changes)
    requires forall j :: 0 <= j < s.peers[k].sent ==> Logged(s.server.log, |s.server.log|, s.peers[k].cache.mutations[j].mutationId)
    ensures var tail := s.peers[k].cache.mutations[s.peers[k].sent..];
            var graphs := ApplyChanges(Rebuilt(tail, |tail|), tail, r.changes, |r.changes|);
            graphs.Ok? && AllTrack(graphs.value, tail, s.server.log, r.cursor, s.issued, r.changes)
  {
    var p := s.peers[k];
    assert PeerOk(s, k);
    TailFacts(p.cache.mutations, k, p.sent, s.server.log, s.issued, s.requests);
    SnapshotDelivered(p.cache.mutations[p.sent..], k, s.server.log, r.cursor, s.issued, r.changes);
  }

  lemma {:induction false} PageGraphs(s: System, k: nat, r: Reply)
    requires Inv(s) && k < |s.peers| && s.peers[k].sent <= |s.peers[k].cache.mutations|
    requires CursorOf(s.peers[k].cache.cursor) <= r.cursor <= |s.server.log|
    requires r.changes == Items(s.server.log, CursorOf(s.peers[k].cache.cursor), r.cursor)
    requires forall j :: 0 <= j < s.peers[k].sent ==> Logged(s.server.log, |s.server.log|, s.peers[k].cache.mutations[j].mutationId)
    ensures var p := s.peers[k]; var tail := p.cache.mutations[p.sent..];
            var graphs := ApplyChanges(p.cache.revisions, tail, r.changes, |r.changes|);
            graphs.Ok? && AllTrack(graphs.value, tail, s.server.log, r.cursor, s.issued, p.rows)
  {
    assert PeerOk(s, k);
    DeltaDelivered(s.peers[k], k, s.server.log, s.issued, s.requests, r.changes, r.cursor);
  }

  /** The graphs the cache ends up with. */
  lemma {:induction false} DeliveredGraphs(s: System, k: nat, r: Reply)
    requires Inv(s) && k < |s.peers| && s.peers[k].outstanding.Some?
    requires ReplyOk(s.peers[k].outstanding.value, r, s.server.log)
    requires s.peers[k].sent <= |s.peers[k].cache.mutations|
    requires s.peers[k].outstanding.value.cursor == s.peers[k].cache.cursor
    requires forall j :: 0 <= j < s.peers[k].sent ==> Logged(s.server.log, |s.server.log|, s.peers[k].cache.mutations[j].mutationId)
    ensures var p := s.peers[k];
            && var tail := p.cache.mutations[p.sent..];
            && var graphs := ApplyChanges(StartingGraphs(p.cache, tail, r.full), tail, r.changes, |r.changes|);
            && graphs.Ok?
            && AllTrack(graphs.value, tail, s.server.log, r.cursor, s.issued, if r.full then r.changes else p.rows)
  {
    if r.full { FullGraphs(s, k, r); } else { PageGraphs(s, k, r); }
  }

  /** Every answer to the outstanding request can be applied, acknowledges exactly
      what was sent, and leaves the cache tracking the server at the new cursor. */
  lemma {:induction false} DeliverySucceeds(s: System, k: nat, r: Reply)
    requires Inv(s) && k < |s.peers| && s.peers[k].outstanding.Some?
    requires (s.peers[k].outstanding.value, r) in s.replies
    ensures var p := s.peers[k];
            && p.sent <= |p.cache.mutations|
            && (forall j :: 0 <= j < p.sent ==> Logged(s.server.log, |s.server.log|, p.cache.mutations[j].mutationId))
            && ApplyReply(p.cache, r).Ok?
            && ApplyReply(p.cache, r).value.mutations == p.cache.mutations[p.sent..]
            && ApplyReply(p.cache, r).value.cursor == Some(r.cursor)
            && CursorOf(p.cache.cursor) <= r.cursor <= |s.server.log|
            && TracksServer(Delivered(p, ApplyReply(p.cache, r).value, r), s.server.log, s.issued)
  {
    var p := s.peers[k];
    var req := p.outstanding.value;
    var log, ms := s.server.log, p.cache.mutations;
    assert PeerOk(s, k) && ReplyOk(req, r, log);
    forall j | 0 <= j < p.sent ensures Logged(log, |log|, ms[j].mutationId) {
      assert req.mutations[j] == ms[j];
    }
    ReplyIsValid(req, r, log);
    AckLeavesTail(ms, k, p.sent, s.issued);
    DeliveredGraphs(s, k, r);
    TracksWhenAllTrack(p, ApplyReply(p.cache, r).value, r, log, s.issued, if r.full then r.changes else p.rows);
  }

  lemma {:induction false} DeliveredIsValid(s: System, k: nat, r: Reply)
    requires Inv(s) && k < |s.peers| && ApplyReply(s.peers[k].cache, r).Ok?
    ensures ValidCache(ApplyReply(s.peers[k].cache, r).value)
  {
    var p := s.peers[k];
    assert PeerOk(s, k);
    forall m | m in p.cache.mutations ensures m.item.schemaVersion >= 1 {
      var j :| 0 <= j < |p.cache.mutations| && p.cache.mutations[j] == m;
      assert WellIssued(s.issued, m.mutationId);
    }
    ApplyReplyKeepsValid(p.cache, r);
  }

  lemma {:induction false} DeliverKeepsInv(s: System, t: System, k: nat, r: Reply)
    requires Inv(s) && DeliverStep(s, t, k, r)
    ensures Inv(t)
  {
    var p := s.peers[k];
    DeliverySucceeds(s, k, r);
    DeliveredIsValid(s, k, r);
    MessagesStay(s, t);
    OthersStay(s, t, k);
    assert PeerOk(s, k);
    TailFacts(p.cache.mutations, k, p.sent, s.server.log, s.issued, s.requests);
  }

  // --------------------------------------------------------------- all runs

  /** What a handled request does to history and registry: it records what it carried,
      and anything else it records is the sweep's. */
  ghost predicate Handled(s: System, t: System, req: Request) {
    && s.server.log <= t.server.log && Extends(s.issued, t.issued)
    && (forall y :: EarlierIn(req.mutations, |req.mutations|, y) ==> Logged(t.server.log, |t.server.log|, y))
    && (forall y :: Logged(t.server.log, |t.server.log|, y) && !Logged(s.server.log, |s.server.log|, y) ==>
          EarlierIn(req.mutations, |req.mutations|, y) || (y in t.issued && t.issued[y].owner == None))
  }

  lemma {:induction false} HandleHandles(s: System, t: System, req: Request, now: int, rows: seq<nat>, ids: seq<Id>, reply: Reply)
    requires Inv(s) && HandleStep(s, t, req, now, rows, ids, reply)
    ensures Handled(s, t, req)
  {
    var mid, ts := HandledTables(s, t, req, now, rows, ids, reply);
    HandledTickets(s, t, req, now, rows, ids, reply);
    GrowthHandles(s, t, req, mid, ts, now);
  }

  lemma {:induction false} GrowthHandles(s: System, t: System, req: Request, u: Ledger, ts: seq<Mutation>, now: int)
    requires GrownBy(s.server.log, u, ts, now) && GrownBy(u, t.server.log, req.mutations, now)
    requires Extends(s.issued, t.issued) && forall m :: m in req.mutations ==> Recorded(t.server.log, m)
    requires forall j :: 0 <= j < |ts| ==> ts[j].mutationId in t.issued && t.issued[ts[j].mutationId].owner == None
    ensures Handled(s, t, req)
  {
    var log := t.server.log;
    forall y | EarlierIn(req.mutations, |req.mutations|, y) ensures Logged(log, |log|, y) { CarriedIsLogged(req, log, y); }
    forall y | Logged(log, |log|, y) && !Logged(s.server.log, |s.server.log|, y)
      ensures EarlierIn(req.mutations, |req.mutations|, y) || (y in t.issued && t.issued[y].owner == None)
    {
      NewRowsSource(s.server.log, u, log, ts, req.mutations, now, y);
    }
  }

  lemma {:induction false} CarriedIsLogged(req: Request, log: Ledger, y: Id)
    requires EarlierIn(req.mutations, |req.mutations|, y) && forall m :: m in req.mutations ==> Recorded(log, m)
    ensures Logged(log, |log|, y)
  {
    var n :| 0 <= n < |req.mutations| && req.mutations[n].mutationId == y;
    assert req.mutations[n] in req.mutations;
    var l: nat :| RecordedAt(log, l, req.mutations[n]);
    assert IdAt(log, l) == y;
  }

  ghost predicate Grown(s: System, t: System) {
    s.server.log <= t.server.log && Extends(s.issued, t.issued) && |s.peers| == |t.peers|
  }

  lemma {:induction false} NextKeepsInv(s: System, t: System)
    requires Inv(s) && Next(s, t)
    ensures Inv(t) && Grown(s, t)
  {
    if k, r, base :| QueueStep(s, t, k, r, base) {
      QueueKeepsInv(s, t, k, r, base);
    } else if k :| SendStep(s, t, k) {
      SendKeepsInv(s, t, k);
    } else if k :| LoseStep(s, t, k) {
      LoseKeepsInv(s, t, k);
    } else if req, now, rows, ids, reply :| HandleStep(s, t, req, now, rows, ids, reply) {
      HandleKeepsInv(s, t, req, now, rows, ids, reply);
      HandleHandles(s, t, req, now, rows, ids, reply);
    } else {
      var k, reply :| DeliverStep(s, t, k, reply);
      DeliverKeepsInv(s, t, k, reply);
    }
  }

  // ------------------------------------------------------------------- runs

  /** Along a run the invariant is kept, and history and registry only grow. */
  lemma {:induction false} RunKeepsInv(s: System, t: System, n: nat)
    requires Inv(s) && Leads(s, t, n)
    ensures Inv(t) && Grown(s, t)
    decreases n
  {
    if n > 0 {
      var u, m: nat :| m < n && Continues(s, u, t, m, n);
      RunKeepsInv(s, u, m);
      NextKeepsInv(u, t);
    }
  }

  /** The invariant holds in every state of every run. */
  lemma {:induction false} ReachableHasInv(t: System)
    requires Reachable(t)
    ensures Inv(t)
  {
    var s, n: nat :| Init(s) && Leads(s, t, n);
    RunKeepsInv(s, t, n);
  }

  lemma {:induction false} ReachableNext(s: System, t: System)
    requires Reachable(s) && Next(s, t)
    ensures Reachable(t)
  {
    var first, n: nat :| Init(first) && Leads(first, s, n);
    assert Continues(first, s, t, n, n + 1);
    assert Leads(first, t, n + 1);
  }

  /** Whatever comes after a reachable state is reachable. */
  lemma {:induction false} ReachableLeads(s: System, t: System, n: nat)
    requires Reachable(s) && Leads(s, t, n)
    ensures Reachable(t)
    decreases n
  {
    if n > 0 {
      var u, m: nat :| m < n && Continues(s, u, t, m, n);
      ReachableLeads(s, u, m);
      ReachableNext(u, t);
    }
  }
}
