/** When a purge goes through, and what becomes of one that cannot: the server takes a
    purge only from a client that knows everything the server stores of the item. */
module StuckPurge {
  import opened Revisions
  import opened RevisionLog
  import opened SyncProtocol
  import opened Exchange
  import opened CacheModel
  import opened ItemService
  import opened Replica
  import opened SyncSystem
  import opened SyncInvariant
  import opened SyncTheorems

  // -------------------------------------------------------------- ancestors

  /** h is x or one of its ancestors. */
  ghost predicate Descends(g: Graph, x: Id, h: Id)
    decreases if x in g then g[x].revision else 0
  {
    x == h || (x in g && exists p :: p in g[x].parents && p in g && g[p].revision < g[x].revision && Descends(g, p, h))
  }

  /** One of the revisions descends from h. */
  ghost predicate Inherits(g: Graph, ids: seq<Id>, h: Id) {
    exists p :: p in ids && Descends(g, p, h)
  }

  ghost predicate Closed(g: Graph) {
    Numbered(g) && forall x :: x in g ==> ParentsIn(g, g[x].parents)
  }

  lemma {:induction false} DescendsToParent(g: Graph, x: Id, y: Id, h: Id)
    requires Closed(g) && x in g && Descends(g, x, y) && y in g && h in g[y].parents
    ensures Descends(g, x, h)
    decreases g[x].revision
  {
    if x == y {
      assert h in g && g[h].revision < g[y].revision && Descends(g, h, h);
    } else {
      var p :| p in g[x].parents && p in g && g[p].revision < g[x].revision && Descends(g, p, y);
      DescendsToParent(g, p, y, h);
    }
  }

  /** Every revision has a head above it. */
  lemma {:induction false} HeadAbove(g: Graph, h: Id, bound: nat) returns (top: Id)
    requires Closed(g) && h in g && forall x :: x in g ==> g[x].revision <= bound
    ensures top in Heads(g) && Descends(g, top, h)
    decreases bound - g[h].revision
  {
    if Referenced(g, h) {
      var y :| y in g && h in g[y].parents;
      top := HeadAbove(g, y, bound);
      DescendsToParent(g, top, y, h);
    } else {
      top := h;
    }
  }

  lemma {:induction false} AncestorIsReferenced(g: Graph, x: Id, h: Id)
    requires Descends(g, x, h) && x != h
    ensures Referenced(g, h)
    decreases if x in g then g[x].revision else 0
  {
    var p :| p in g[x].parents && p in g && g[p].revision < g[x].revision && Descends(g, p, h);
    if p != h { AncestorIsReferenced(g, p, h); }
  }

  lemma {:induction false} CoveringInherits(g: Graph, ids: seq<Id>, h: Id)
    requires Closed(g) && CoversHeads(g, ids) && h in g
    ensures Inherits(g, ids, h)
  {
    var highest := Highest(g, g.Keys);
    var top := HeadAbove(g, h, g[highest].revision);
    assert top in ids;
  }

  lemma {:induction false} InheritedHeadIsNamed(g: Graph, ids: seq<Id>, h: Id)
    requires h in Heads(g) && Inherits(g, ids, h)
    ensures h in ids
  {
    var p :| p in ids && Descends(g, p, h);
    if p != h { AncestorIsReferenced(g, p, h); }
  }

  /** Naming every head means descending from everything. */
  lemma {:induction false} CoveringIsInheriting(g: Graph, ids: seq<Id>)
    requires Closed(g)
    ensures CoversHeads(g, ids) <==> forall h :: h in g ==> Inherits(g, ids, h)
  {
    if CoversHeads(g, ids) {
      forall h | h in g ensures Inherits(g, ids, h) { CoveringInherits(g, ids, h); }
    } else {
      var h :| h in Heads(g) && h !in ids;
      assert Inherits(g, ids, h) ==> h in ids by { if Inherits(g, ids, h) { InheritedHeadIsNamed(g, ids, h); } }
    }
  }

  /** Ancestors are the same in a larger graph. */
  lemma {:induction false} DescendsWithin(a: Graph, b: Graph, x: Id, h: Id)
    requires Within(a, b) && Closed(a) && x in a
    ensures Descends(a, x, h) <==> Descends(b, x, h)
    decreases a[x].revision
  {
    forall p | p in a[x].parents && a[p].revision < a[x].revision ensures Descends(a, p, h) <==> Descends(b, p, h) {
      DescendsWithin(a, b, p, h);
    }
  }

  /** Exactly when a new purge is accepted: its parents are stored, carry the base
      number, and descend from every revision the server stores of the item. */
  lemma {:induction false} PurgeKnowsEverything(s: Server, m: Mutation, now: int)
    requires ServerOk(s) && ValidMutation(m) && m.item.purged && m.baseRevision > 0
    requires !Logged(s.log, |s.log|, m.mutationId) && |s.log| < MAX_REVISION
    ensures var g := Current(s, m.item.itemId);
            Accept(s, m, now).Ok? <==>
              && Storable(m) && ParentsIn(g, m.item.parents) && MaxRevision(g, m.item.parents) == m.baseRevision
              && forall h :: h in g ==> Inherits(g, m.item.parents, h)
  {
    PurgeAcceptance(s, m, now);
    var g := Current(s, m.item.itemId);
    HistoryClosed(s.log, |s.log|, m.item.itemId);
    if ParentsIn(g, m.item.parents) {
      CoveringIsInheriting(g, m.item.parents);
      assert CoversHeads(g, m.item.parents) <==> Heads(g) <= IdSet(m.item.parents);
    }
  }

  // ------------------------------------------------------------------- runs

  lemma {:induction false} UniverseClosed(issued: map<Id, Ticket>, item: Id)
    requires Registry(issued)
    ensures Closed(Universe(issued, item))
  {
    var u := Universe(issued, item);
    forall x | x in u ensures ParentsIn(u, u[x].parents) && forall p :: p in u[x].parents ==> u[p].revision < u[x].revision {
      assert WellIssued(issued, x);
    }
  }

  /** Client k's mutation x is a purge the server has not recorded, and h is a stored
      revision of its item it does not descend from. */
  ghost predicate Misses(s: System, k: nat, x: Id, h: Id) {
    && x in s.issued && s.issued[x].owner == Some(k) && !Logged(s.server.log, |s.server.log|, x)
    && var r := s.issued[x].mutation.item;
    && r.purged && h in Current(s.server, r.itemId)
    && !Inherits(Universe(s.issued, r.itemId), r.parents, h)
  }

  /** A recorded purge descends from everything recorded before it. */
  lemma {:induction false} RecordedPurgeInherits(s: System, n: nat, h: Id)
    requires Inv(s) && n < |s.server.log| && ItemAt(s.server.log, n).purged
    requires h in History(s.server.log, n, ItemAt(s.server.log, n).itemId)
    ensures Inherits(Universe(s.issued, ItemAt(s.server.log, n).itemId), ItemAt(s.server.log, n).parents, h)
  {
    var log, r := s.server.log, ItemAt(s.server.log, n);
    var g, u := History(log, n, r.itemId), Universe(s.issued, r.itemId);
    assert Legal(log, n);
    HistoryClosed(log, n, r.itemId);
    CoveringIsInheriting(g, r.parents);
    var p :| p in r.parents && Descends(g, p, h);
    HistoryInUniverse(log, n, s.issued, r.itemId);
    DescendsWithin(g, u, p, h);
  }

  lemma {:induction false} InheritsStays(issued: map<Id, Ticket>, more: map<Id, Ticket>, x: Id, h: Id)
    requires Registry(issued) && Extends(issued, more) && x in issued
    ensures var r := issued[x].mutation.item;
            Inherits(Universe(issued, r.itemId), r.parents, h) <==> Inherits(Universe(more, r.itemId), r.parents, h)
  {
    var r := issued[x].mutation.item;
    var u := Universe(issued, r.itemId);
    UniverseClosed(issued, r.itemId);
    assert WellIssued(issued, x);
    forall p | p in r.parents ensures Descends(u, p, h) <==> Descends(Universe(more, r.itemId), p, h) {
      DescendsWithin(u, Universe(more, r.itemId), p, h);
    }
  }

  lemma {:induction false} EarlyRowsStay(early: Ledger, log: Ledger, n: nat)
    requires early <= log && n < |log|
    ensures n < |early| ==> Logged(early, |early|, IdAt(log, n))
  {
    assert n < |early| ==> IdAt(early, n) == IdAt(log, n);
  }

  lemma {:induction false} NeverRecorded(s: System, t: System, k: nat, x: Id, h: Id)
    requires Inv(s) && Inv(t) && Grown(s, t) && Misses(s, k, x, h)
    ensures !Logged(t.server.log, |t.server.log|, x)
  {
    var early, log := s.server.log, t.server.log;
    var r := s.issued[x].mutation.item;
    if Logged(log, |log|, x) {
      var n :| 0 <= n < |log| && IdAt(log, n) == x;
      assert ItemAt(log, n) == r;
      EarlyRowsStay(early, log, n);
      HistoryPrefix(early, log, |early|, r.itemId);
      HistoryGrows(log, |early|, n, r.itemId);
      RecordedPurgeInherits(t, n, h);
      InheritsStays(s.issued, t.issued, x, h);
    }
  }

  lemma {:induction false} StillMisses(s: System, t: System, k: nat, x: Id, h: Id)
    requires Inv(s) && Inv(t) && Grown(s, t) && Misses(s, k, x, h)
    ensures Misses(t, k, x, h)
  {
    NeverRecorded(s, t, k, x, h);
    var item := s.issued[x].mutation.item.itemId;
    InheritsStays(s.issued, t.issued, x, h);
    HistoryPrefix(s.server.log, t.server.log, |s.server.log|, item);
    HistoryGrows(t.server.log, |s.server.log|, |t.server.log|, item);
  }

  lemma {:induction false} MissingPurgeIsStuck(s: System, t: System, n: nat, k: nat, x: Id, h: Id)
    requires Reachable(s) && Leads(s, t, n) && k < |s.peers| && Misses(s, k, x, h)
    ensures Misses(t, k, x, h) && Queues(t, k, x)
  {
    ReachableHasInv(s);
    RunKeepsInv(s, t, n);
    StillMisses(s, t, k, x, h);
    assert PeerOk(t, k);
  }

  /** No request that carries it is ever accepted, at any time and in any circumstances. */
  lemma {:induction false} RequestIsRefused(s: System, t: System, k: nat, x: Id, h: Id,
                                            req: Request, now: int, rows: seq<nat>, ids: seq<Id>, reply: Reply)
    requires Inv(s) && Misses(s, k, x, h) && Carries(req, x)
    ensures !HandleStep(s, t, req, now, rows, ids, reply)
  {
    if HandleStep(s, t, req, now, rows, ids, reply) {
      HandleHandles(s, t, req, now, rows, ids, reply);
      HandleKeepsInv(s, t, req, now, rows, ids, reply);
      NeverRecorded(s, t, k, x, h);
    }
  }

  // ------------------------------------------------- what is queued behind it

  /** Neither recorded nor carried by a request without x. */
  ghost predicate Behind(s: System, x: Id, y: Id) {
    && !Logged(s.server.log, |s.server.log|, y)
    && forall req :: req in s.requests && Carries(req, y) ==> Carries(req, x)
  }

  lemma {:induction false} UnsentIsBehind(s: System, x: Id, y: Id)
    requires !Logged(s.server.log, |s.server.log|, y) && !CarriedBy(s.requests, y)
    ensures Behind(s, x, y)
  {
    forall req | req in s.requests ensures !Carries(req, y) {
      assert forall n :: 0 <= n < |req.mutations| ==> req.mutations[n].mutationId != y;
    }
  }

  lemma {:induction false} SendKeepsBehind(s: System, t: System, c: nat, k: nat, x: Id, y: Id)
    requires c < |s.peers| && PeerOk(s, c) && Behind(s, x, y) && SendStep(s, t, c) && Queues(s, k, x)
    requires y in s.issued ==> s.issued[y].owner == Some(k)
    ensures Behind(t, x, y)
  {
    var p := s.peers[c];
    var req := Request(c, p.cache.cursor, p.cache.mutations);
    if Carries(req, y) {
      var n :| 0 <= n < |p.cache.mutations| && p.cache.mutations[n].mutationId == y;
      assert s.issued[y] == Ticket(p.cache.mutations[n], Some(c));
      assert c == k;
    }
  }

  lemma {:induction false} StepKeepsBehind(s: System, t: System, k: nat, x: Id, h: Id, y: Id)
    requires Reachable(s) && Next(s, t) && Misses(s, k, x, h) && Queues(s, k, x)
    requires Behind(s, x, y) && (y in s.issued || y in t.issued ==> y in t.issued && t.issued[y].owner == Some(k))
    ensures Behind(t, x, y)
  {
    ReachableHasInv(s);
    if c :| SendStep(s, t, c) {
      SendKeepsBehind(s, t, c, k, x, y);
    } else if req, now, rows, ids, reply :| HandleStep(s, t, req, now, rows, ids, reply) {
      HandleHandles(s, t, req, now, rows, ids, reply);
      assert !Carries(req, x) by {
        if Carries(req, x) { RequestIsRefused(s, t, k, x, h, req, now, rows, ids, reply); }
      }
    }
  }

  /** Nothing the client had not sent when its purge got stuck, and nothing it queues
      afterwards, ever reaches the server. */
  lemma {:induction false} NothingBehindArrives(s: System, t: System, n: nat, k: nat, x: Id, h: Id, y: Id)
    requires Reachable(s) && Leads(s, t, n) && k < |s.peers| && Misses(s, k, x, h)
    requires !Logged(s.server.log, |s.server.log|, y) && !CarriedBy(s.requests, y)
    requires y in t.issued ==> t.issued[y].owner == Some(k)
    ensures Behind(t, x, y)
    decreases n
  {
    if n == 0 {
      UnsentIsBehind(t, x, y);
    } else {
      var u, m: nat :| m < n && Continues(s, u, t, m, n);
      ReachableLeads(s, u, m);
      ReachableHasInv(u);
      NextKeepsInv(u, t);
      NothingBehindArrives(s, u, m, k, x, h, y);
      MissingPurgeIsStuck(s, u, m, k, x, h);
      StepKeepsBehind(u, t, k, x, h, y);
    }
  }

  /** The case the terminal interface produces: a purge of stored revisions that leaves
      out a head of the server. */
  lemma {:induction false} MissedHeadIsMissing(s: System, k: nat, x: Id) returns (h: Id)
    requires Inv(s) && x in s.issued && s.issued[x].owner == Some(k) && !Logged(s.server.log, |s.server.log|, x)
    requires s.issued[x].mutation.item.purged
    requires var r := s.issued[x].mutation.item; var g := Current(s.server, r.itemId);
             ParentsIn(g, r.parents) && !CoversHeads(g, r.parents)
    ensures Misses(s, k, x, h)
  {
    var r := s.issued[x].mutation.item;
    var g, u := Current(s.server, r.itemId), Universe(s.issued, r.itemId);
    HistoryClosed(s.server.log, |s.server.log|, r.itemId);
    HistoryInUniverse(s.server.log, |s.server.log|, s.issued, r.itemId);
    CoveringIsInheriting(g, r.parents);
    h :| h in g && !Inherits(g, r.parents, h);
    forall p | p in r.parents ensures !Descends(u, p, h) {
      DescendsWithin(g, u, p, h);
    }
  }

  /** From the moment a client has queued a purge that misses a stored revision, in every
      later state of the run: the purge is not recorded and still queued, no request that
      carries it can be accepted, and what the client queued after it is not recorded and
      still queued either. */
  lemma {:induction false} StuckForGood(s: System, t: System, n: nat, k: nat, x: Id, h: Id)
    requires Reachable(s) && Leads(s, t, n) && k < |s.peers| && Misses(s, k, x, h)
    ensures !Logged(t.server.log, |t.server.log|, x) && Queues(t, k, x)
    ensures forall req, u, now, rows, ids, reply :: Carries(req, x) ==> !HandleStep(t, u, req, now, rows, ids, reply)
    ensures forall y :: y !in s.issued && y in t.issued && t.issued[y].owner == Some(k) ==>
              !Logged(t.server.log, |t.server.log|, y) && Queues(t, k, y)
  {
    ReachableHasInv(s);
    RunKeepsInv(s, t, n);
    MissingPurgeIsStuck(s, t, n, k, x, h);
    forall req, u, now, rows, ids, reply | Carries(req, x) ensures !HandleStep(t, u, req, now, rows, ids, reply) {
      RequestIsRefused(t, u, k, x, h, req, now, rows, ids, reply);
    }
    assert PeerOk(t, k);
    forall y | y !in s.issued && y in t.issued && t.issued[y].owner == Some(k)
      ensures !Logged(t.server.log, |t.server.log|, y) && Queues(t, k, y)
    {
      NothingBehindArrives(s, t, n, k, x, h, y);
    }
  }
}
