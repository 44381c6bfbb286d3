/** A client that synchronizes until nothing is left catches up with the server, from
    every reachable state and without help from anybody else. */
module Progress {
  import opened Revisions
  import opened RevisionLog
  import opened SyncProtocol
  import opened Exchange
  import opened CacheModel
  import opened ItemService
  import opened Replica
  import opened SyncSystem
  import opened SyncInvariant
  import opened SyncTheorems
  import opened RequestBody
  import opened AnswersExist

  // ---------------------------------------------------------- own exchanges

  /** A step of client k's synchronization: it sends its queue, the server handles a
      request of k, or k applies an answer. */
  ghost predicate OwnStep(s: System, t: System, k: nat) {
    || SendStep(s, t, k)
    || (exists req: Request, now, rows, ids, reply :: req.client == k && HandleStep(s, t, req, now, rows, ids, reply))
    || (exists reply :: DeliverStep(s, t, k, reply))
  }

  /** From s to t by steps of client k alone, through the states more. */
  ghost predicate OwnPath(s: System, more: seq<System>, t: System, k: nat)
    decreases |more|
  {
    if more == [] then s == t else OwnStep(s, more[0], k) && OwnPath(more[0], more[1..], t, k)
  }

  function QueueRequest(s: System, k: nat): Request
    requires k < |s.peers|
  {
    Request(k, s.peers[k].cache.cursor, s.peers[k].cache.mutations)
  }

  /** Client k's queue would be taken now, with these tombstone ids for the sweep: it is
      admissible, there is room, and nothing in it is blocked once the sweep is done. */
  ghost predicate Sendable(s: System, k: nat, now: int, rows: seq<nat>, ids: seq<Id>)
    requires k < |s.peers|
  {
    var log, ms := s.server.log, s.peers[k].cache.mutations;
    && Admissible(QueueRequest(s, k)) && |log| + |rows| + |ms| <= MAX_REVISION
    && Enumerates(rows, ExpiredRows(log, now)) && (forall j :: j in rows ==> j < |log|)
    && |rows| == |ids| && FreshIds(log, ids) && (forall x :: x in ids ==> x !in s.issued)
    && var swept := AcceptAll(Prune(s.server, now), Tombstones(log, rows, ids), now);
    swept.Ok? && !Blocked(swept.value, ms, now)
  }

  ghost predicate CaughtUp(s: System, k: nat) {
    k < |s.peers| && s.peers[k].cache.mutations == [] && CursorOf(s.peers[k].cache.cursor) == |s.server.log|
  }

  lemma {:induction false} Sends(s: System, k: nat) returns (t: System)
    requires Reachable(s) && k < |s.peers|
    ensures SendStep(s, t, k) && Reachable(t) && QueueRequest(s, k) in t.requests
    ensures t.peers[k] == s.peers[k].(sent := |s.peers[k].cache.mutations|, outstanding := Some(QueueRequest(s, k)))
  {
    var p, req := s.peers[k], QueueRequest(s, k);
    t := s.(peers := s.peers[k := p.(sent := |p.cache.mutations|, outstanding := Some(req))], requests := s.requests + {req});
    assert SendStep(s, t, k);
    ReachableNext(s, t);
  }

  /** What follows from any handled request. */
  lemma {:induction false} HandledFacts(s: System, t: System, req: Request, now: int, rows: seq<nat>, ids: seq<Id>, reply: Reply)
    requires Inv(s) && HandleStep(s, t, req, now, rows, ids, reply)
    ensures reply.cursor == |t.server.log| || reply.cursor == CursorOf(req.cursor) + PAGE_SIZE
    ensures CursorOf(req.cursor) <= |t.server.log| && ReplyFor(t.server, CursorOf(req.cursor), req.mutations, reply)
    ensures forall m :: m in req.mutations ==> Recorded(t.server.log, m)
    ensures ExpiredRows(t.server.log, now) == {}
  {
    var u := HandledGrowth(s, t, req, now, rows, ids, reply);
    RequestIsNormal(req, s);
    NoExpiredTrashRemains(s.server, CursorOf(req.cursor), req.mutations, now, rows, ids, t.server, reply);
  }

  lemma {:induction false} NothingSwept(log: Ledger, u: Ledger, rows: seq<nat>, ids: seq<Id>, now: int)
    requires |rows| == |ids| && (forall k :: k in rows ==> k < |log|) && rows == []
    requires GrownBy(log, u, Tombstones(log, rows, ids), now)
    ensures u == log
  {
    assert Tombstones(log, rows, ids) == [];
  }

  lemma {:induction false} NoTickets(issued: map<Id, Ticket>, log: Ledger, rows: seq<nat>, ids: seq<Id>)
    requires |rows| == |ids| && (forall k :: k in rows ==> k < |log|) && rows == []
    ensures issued + TombstoneTickets(log, rows, ids) == issued
  {
    assert ids == [];
  }

  lemma {:induction false} NothingIssued(s: System, t: System, req: Request, now: int, rows: seq<nat>, ids: seq<Id>, reply: Reply)
    requires HandleStep(s, t, req, now, rows, ids, reply) && rows == []
    ensures t.issued == s.issued
  {
    NoTickets(s.issued, s.server.log, rows, ids);
  }

  /** With nothing to sweep only the batch is added. */
  lemma {:induction false} GrownWithoutSweep(s: System, t: System, req: Request, now: int, rows: seq<nat>, ids: seq<Id>, reply: Reply)
    requires Inv(s) && HandleStep(s, t, req, now, rows, ids, reply) && rows == []
    ensures GrownBy(s.server.log, t.server.log, req.mutations, now)
  {
    var u := HandledGrowth(s, t, req, now, rows, ids, reply);
    NothingSwept(s.server.log, u.log, rows, ids, now);
  }

  lemma {:induction false} Handles(s: System, k: nat, now: int, rows: seq<nat>, ids: seq<Id>) returns (t: System, reply: Reply)
    requires Reachable(s) && k < |s.peers| && QueueRequest(s, k) in s.requests && Sendable(s, k, now, rows, ids)
    ensures HandleStep(s, t, QueueRequest(s, k), now, rows, ids, reply) && Reachable(t)
  {
    var u := RequestAcceptance(s, QueueRequest(s, k), now, rows, ids);
    t, reply :| HandleStep(s, t, QueueRequest(s, k), now, rows, ids, reply);
    assert Next(s, t);
    ReachableNext(s, t);
  }

  lemma {:induction false} Delivers(s: System, k: nat, reply: Reply) returns (t: System)
    requires Reachable(s) && k < |s.peers| && s.peers[k].outstanding.Some? && s.peers[k].sent == |s.peers[k].cache.mutations|
    requires (s.peers[k].outstanding.value, reply) in s.replies
    ensures DeliverStep(s, t, k, reply) && Reachable(t)
    ensures t.server == s.server && |t.peers| == |s.peers|
    ensures t.peers[k].cache.mutations == [] && t.peers[k].cache.cursor == Some(reply.cursor)
    ensures t.peers[k].rows == if reply.full then reply.changes else s.peers[k].rows
  {
    ReachableHasInv(s);
    DeliverySucceeds(s, k, reply);
    var p := s.peers[k];
    t := s.(peers := s.peers[k := Peer(ApplyReply(p.cache, reply).value, 0, None, if reply.full then reply.changes else p.rows)]);
    assert DeliverStep(s, t, k, reply);
    ReachableNext(s, t);
  }

  lemma {:induction false} PathOfThree(s: System, a: System, b: System, c: System, k: nat)
    requires OwnStep(s, a, k) && OwnStep(a, b, k) && OwnStep(b, c, k)
    ensures OwnPath(s, [a, b, c], c, k)
  {
    assert [a, b, c][1..] == [b, c] && [b, c][1..] == [c] && [c][1..] == [];
    assert OwnPath(c, [], c, k) && OwnPath(b, [c], c, k) && OwnPath(a, [b, c], c, k);
  }

  lemma {:induction false} TailOfJoin<T>(a: seq<T>, b: seq<T>)
    requires a != []
    ensures a + b != [] && (a + b)[0] == a[0] && (a + b)[1..] == a[1..] + b
  {
  }

  lemma {:induction false} PathsJoin(s: System, a: seq<System>, t: System, b: seq<System>, u: System, k: nat)
    requires OwnPath(s, a, t, k) && OwnPath(t, b, u, k)
    ensures OwnPath(s, a + b, u, k)
    decreases |a|
  {
    if a == [] {
      assert a + b == b;
    } else {
      PathsJoin(a[0], a[1..], t, b, u, k);
      TailOfJoin(a, b);
    }
  }

  /** The rows client k holds in t are those of an answer to its request in s, or as before. */
  ghost predicate Answered(s: System, t: System, k: nat)
    requires k < |s.peers| && k < |t.peers| && CursorOf(s.peers[k].cache.cursor) <= |t.server.log|
  {
    var input := CursorOf(s.peers[k].cache.cursor);
    if Retained(t.server, input) then t.peers[k].rows == s.peers[k].rows
    else SnapshotOf(t.server.log, |t.server.log|, t.peers[k].rows) && InOrder(t.peers[k].rows)
  }

  /** One exchange takes the whole queue and a page of changes, or all of them. */
  lemma {:induction false} OneExchange(s: System, k: nat, now: int, rows: seq<nat>, ids: seq<Id>) returns (more: seq<System>, t: System)
    requires Reachable(s) && k < |s.peers| && Sendable(s, k, now, rows, ids)
    ensures OwnPath(s, more, t, k) && more != [] && Reachable(t) && |t.peers| == |s.peers|
    ensures t.peers[k].cache.mutations == [] && forall m :: m in s.peers[k].cache.mutations ==> Recorded(t.server.log, m)
    ensures CursorOf(t.peers[k].cache.cursor) == |t.server.log|
            || CursorOf(t.peers[k].cache.cursor) == CursorOf(s.peers[k].cache.cursor) + PAGE_SIZE
    ensures CursorOf(s.peers[k].cache.cursor) <= |t.server.log| && Answered(s, t, k)
    ensures ExpiredRows(t.server.log, now) == {}
    ensures rows == [] ==> t.issued == s.issued && GrownBy(s.server.log, t.server.log, s.peers[k].cache.mutations, now)
  {
    var req := QueueRequest(s, k);
    var a := Sends(s, k);
    var b, reply := Handles(a, k, now, rows, ids);
    ReachableHasInv(a);
    HandledFacts(a, b, req, now, rows, ids, reply);
    if rows == [] {
      NothingIssued(a, b, req, now, rows, ids, reply);
      GrownWithoutSweep(a, b, req, now, rows, ids, reply);
    }
    t := Delivers(b, k, reply);
    more := [a, b, t];
    assert req.client == k;
    PathOfThree(s, a, b, t, k);
  }

  /** Nothing queued and nothing expired: a request that only asks is always taken. */
  lemma {:induction false} AskingIsSendable(s: System, k: nat, now: int)
    requires Reachable(s) && k < |s.peers| && s.peers[k].cache.mutations == [] && ExpiredRows(s.server.log, now) == {}
    ensures Sendable(s, k, now, [], [])
  {
    ReachableHasInv(s);
    assert PeerOk(s, k);
    EmptyQueueFits(s.peers[k].cache.cursor);
  }

  /** With nothing queued, exchanges alone reach the server's cursor. */
  lemma {:induction false} PullsEverything(s: System, k: nat, now: int) returns (more: seq<System>, t: System)
    requires Reachable(s) && k < |s.peers| && s.peers[k].cache.mutations == [] && ExpiredRows(s.server.log, now) == {}
    ensures OwnPath(s, more, t, k) && Reachable(t) && CaughtUp(t, k)
    ensures t.server.log == s.server.log && t.issued == s.issued
    decreases |s.server.log| - CursorOf(s.peers[k].cache.cursor)
  {
    ReachableHasInv(s);
    assert PeerOk(s, k);
    if CaughtUp(s, k) {
      more, t := [], s;
    } else {
      AskingIsSendable(s, k, now);
      var page, next := OneExchange(s, k, now, [], []);
      ReachableHasInv(next);
      assert PeerOk(next, k);
      var rest;
      rest, t := PullsEverything(next, k, now);
      more := page + rest;
      PathsJoin(s, page, next, rest, t, k);
    }
  }

  /** From every reachable state in which client k's queue would be taken, its own sends,
      the handling of its own requests and its own deliveries reach a state in which
      everything it had queued is recorded, nothing is queued, its cursor is the
      server's, and it shows of every item exactly the server's heads but the trashed
      ones its last snapshot lost. */
  lemma {:induction false} ClientCatchesUp(s: System, k: nat, now: int, rows: seq<nat>, ids: seq<Id>) returns (more: seq<System>, t: System)
    requires Reachable(s) && k < |s.peers| && Sendable(s, k, now, rows, ids)
    ensures OwnPath(s, more, t, k) && Reachable(t) && CaughtUp(t, k)
    ensures forall m :: m in s.peers[k].cache.mutations ==> Recorded(t.server.log, m)
    ensures forall item :: Shown(t.peers[k], item) == Heads(Current(t.server, item)) - Lost(t.peers[k].rows, item)
    ensures rows == [] ==> t.issued == s.issued && GrownBy(s.server.log, t.server.log, s.peers[k].cache.mutations, now)
  {
    var first, next := OneExchange(s, k, now, rows, ids);
    var rest;
    rest, t := PullsEverything(next, k, now);
    more := first + rest;
    PathsJoin(s, first, next, rest, t, k);
    forall item ensures Shown(t.peers[k], item) == Heads(Current(t.server, item)) - Lost(t.peers[k].rows, item) {
      Convergence(t, k, item);
    }
  }

  /** An admissible queue without purges and without live edits of a lone tombstone would
      always be taken, whatever the sweep has to do first. */
  lemma {:induction false} EditsAreSendable(s: System, k: nat, now: int) returns (rows: seq<nat>, ids: seq<Id>)
    requires Reachable(s) && k < |s.peers| && Admissible(QueueRequest(s, k))
    requires forall m :: m in s.peers[k].cache.mutations ==> Unobstructed(m, s.issued)
    requires |s.server.log| + |ExpiredRows(s.server.log, now)| + |s.peers[k].cache.mutations| <= MAX_REVISION
    ensures Sendable(s, k, now, rows, ids)
  {
    ReachableHasInv(s);
    rows := Enumeration(ExpiredRows(s.server.log, now));
    ids := FreshIdsExist(s, |rows|);
    var a := Sends(s, k);
    var u := RequestAcceptance(a, QueueRequest(s, k), now, rows, ids);
  }
}
