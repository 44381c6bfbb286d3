/** One account's server and any number of client caches, exchanging messages that
    may be lost, delayed or handled more than once.

    The registry of issued mutations is bookkeeping for the statements: it records
    every mutation ever created and which client created it. */
module SyncSystem {
  import opened Revisions
  import opened RevisionLog
  import opened SyncProtocol
  import opened Exchange
  import opened CacheModel
  import opened ItemService
  import opened RequestBody
  import opened Replica

  datatype Ticket = Ticket(mutation: Mutation, owner: Option<nat>)

  datatype Request = Request(client: nat, cursor: Option<nat>, mutations: seq<Mutation>)

  // sent counts the queued mutations, from the front, that any request carried;
  // rows are those of the last snapshot the client applied.
  datatype Peer = Peer(cache: CacheData, sent: nat, outstanding: Option<Request>, rows: seq<Revision>)

  datatype System = System(
    server: Server,
    peers: seq<Peer>,
    requests: set<Request>,
    replies: set<(Request, Reply)>,
    issued: map<Id, Ticket>)

  /** The empty cursor and cursor 0 mean the same to the server. */
  function CursorOf(c: Option<nat>): nat {
    match c case None => 0 case Some(n) => n
  }

  /** Row i of a snapshot is trashed, and row j, which comes later, its item's tombstone. */
  predicate Displaces(rows: seq<Revision>, item: Id, i: nat, j: nat) {
    i < j < |rows| && rows[i].itemId == item && rows[j].itemId == item && Trashed(rows[i]) && rows[j].purged
  }

  /** The trashed heads of the item that the order of the rows loses. */
  function Lost(rows: seq<Revision>, item: Id): set<Id> {
    set i: nat, j: nat | 0 <= i < |rows| && 0 <= j < |rows| && Displaces(rows, item, i, j) :: rows[i].revisionId
  }

  // ------------------------------------------------------------------ steps

  function EmptyCache(account: Id): CacheData {
    CacheData(account, map[], [], None, [])
  }

  predicate NewPeer(p: Peer) {
    p.cache.accountId != NO_ID && p == Peer(EmptyCache(p.cache.accountId), 0, None, [])
  }

  ghost predicate Init(s: System) {
    && s.server == Server([], {}) && s.requests == {} && s.replies == {} && s.issued == map[]
    && forall k :: 0 <= k < |s.peers| ==> NewPeer(s.peers[k])
  }

  /** A client queues a revision under a fresh id; a new item gets a fresh item id. */
  ghost predicate QueueStep(s: System, t: System, k: nat, r: Revision, base: nat) {
    && k < |s.peers|
    && r.revisionId != NO_ID && r.revisionId !in s.issued
    && (base == 0 ==> forall x :: x in s.issued ==> s.issued[x].mutation.item.itemId != r.itemId)
    && var p := s.peers[k];
    && Queue(p.cache, r, base).Ok?
    && var cache := Queue(p.cache, r, base).value;
    && var m := cache.mutations[|p.cache.mutations|];
    && t == s.(peers := s.peers[k := p.(cache := cache)], issued := s.issued[r.revisionId := Ticket(m, Some(k))])
  }

  /** SyncCache, first part: snapshot the queue and send it. */
  ghost predicate SendStep(s: System, t: System, k: nat) {
    && k < |s.peers|
    && var p := s.peers[k];
    && var req := Request(k, p.cache.cursor, p.cache.mutations);
    && t == s.(peers := s.peers[k := p.(sent := |p.cache.mutations|, outstanding := Some(req))],
               requests := s.requests + {req})
  }

  /** The exchange fails or times out; a late answer to it will be ignored. */
  ghost predicate LoseStep(s: System, t: System, k: nat) {
    k < |s.peers| && t == s.(peers := s.peers[k := s.peers[k].(outstanding := None)])
  }

  function TombstoneTickets(log: Ledger, rows: seq<nat>, ids: seq<Id>): map<Id, Ticket>
    requires |rows| == |ids| && forall k :: k in rows ==> k < |log|
  {
    map x | x in ids :: TombstoneTicket(log, rows, ids, x)
  }

  function TombstoneTicket(log: Ledger, rows: seq<nat>, ids: seq<Id>, x: Id): Ticket
    requires |rows| == |ids| && x in ids && forall k :: k in rows ==> k < |log|
  {
    var k := rows[IndexOf(ids, x)];
    assert k in rows;
    Ticket(Tombstone(ItemAt(log, k), x), None)
  }

  function IndexOf(ids: seq<Id>, x: Id): (j: nat)
    requires x in ids
    ensures j < |ids| && ids[j] == x
  {
    if ids[0] == x then 0 else 1 + IndexOf(ids[1..], x)
  }

  /** The server handles any request ever sent, at any time, any number of times.
      A refused request changes nothing and is not a step. */
  ghost predicate HandleStep(s: System, t: System, req: Request, now: int, rows: seq<nat>, ids: seq<Id>, reply: Reply) {
    && req in s.requests
    && WithinLimits(req.cursor, req.mutations) && AllValid(NormalizeAll(req.mutations))
    && (forall x {:trigger x in ids} :: x in ids ==> x !in s.issued)
    && Exchanged(s.server, CursorOf(req.cursor), NormalizeAll(req.mutations), now, rows, ids, t.server, reply)
    && (forall k :: k in rows ==> k < |s.server.log|)
    && t == s.(server := t.server,
               replies := s.replies + {(req, reply)},
               issued := s.issued + TombstoneTickets(s.server.log, rows, ids))
  }

  /** SyncCache, last part: the answer to the outstanding request is applied. */
  ghost predicate DeliverStep(s: System, t: System, k: nat, reply: Reply) {
    && k < |s.peers|
    && var p := s.peers[k];
    && p.outstanding.Some? && (p.outstanding.value, reply) in s.replies
    && ApplyReply(p.cache, reply).Ok?
    && t == s.(peers := s.peers[k := Peer(ApplyReply(p.cache, reply).value, 0, None,
                                          if reply.full then reply.changes else p.rows)])
  }

  ghost predicate Next(s: System, t: System) {
    || (exists k, r, base :: QueueStep(s, t, k, r, base))
    || (exists k :: SendStep(s, t, k))
    || (exists k :: LoseStep(s, t, k))
    || (exists req, now, rows, ids, reply :: HandleStep(s, t, req, now, rows, ids, reply))
    || (exists k, reply :: DeliverStep(s, t, k, reply))
  }

  /** t comes n steps after s. */
  ghost predicate Leads(s: System, t: System, n: nat)
    decreases n, 1
  {
    if n == 0 then s == t else exists u, m: nat :: m < n && Continues(s, u, t, m, n)
  }

  /** u comes m steps after s, and t is the next state, the n-th. */
  ghost predicate Continues(s: System, u: System, t: System, m: nat, n: nat)
    requires m < n
    decreases n, 0
  {
    m + 1 == n && Leads(s, u, m) && Next(u, t)
  }

  /** t is a state of some run. */
  ghost predicate Reachable(t: System) {
    exists s, n: nat :: Init(s) && Leads(s, t, n)
  }

  // -------------------------------------------------------------- invariant

  /** Every revision of an item that was ever created. */
  function Universe(issued: map<Id, Ticket>, item: Id): Graph {
    map x | x in issued && issued[x].mutation.item.itemId == item :: issued[x].mutation.item
  }

  ghost predicate WellIssued(issued: map<Id, Ticket>, x: Id)
    requires x in issued
  {
    var m := issued[x].mutation;
    && m.mutationId == x && ValidQueued(m) && m.item.schemaVersion >= 1 && Sorted(m.item.parents)
    && ParentsIn(Universe(issued, m.item.itemId), m.item.parents)
    && MaxRevision(Universe(issued, m.item.itemId), m.item.parents) == m.baseRevision
  }

  ghost predicate Creates(issued: map<Id, Ticket>, x: Id) {
    x in issued && issued[x].mutation.baseRevision == 0
  }

  ghost predicate Registry(issued: map<Id, Ticket>) {
    && (forall x {:trigger WellIssued(issued, x)} :: x in issued ==> WellIssued(issued, x))
    && (forall x, y :: (Creates(issued, x) && Creates(issued, y)
                        && issued[x].mutation.item.itemId == issued[y].mutation.item.itemId) ==> x == y)
  }

  ghost predicate LogIssued(log: Ledger, issued: map<Id, Ticket>) {
    forall k {:trigger IdAt(log, k)} :: 0 <= k < |log| ==>
      IdAt(log, k) in issued && issued[IdAt(log, k)].mutation == log[k].mutation
  }

  /** Mutations of client k, each after the parents the server does not have yet. */
  ghost predicate IssuedQueue(ms: seq<Mutation>, k: nat, issued: map<Id, Ticket>) {
    && (forall j :: 0 <= j < |ms| ==>
          ms[j].mutationId in issued && issued[ms[j].mutationId] == Ticket(ms[j], Some(k)))
    && forall i, j :: 0 <= i < j < |ms| ==> ms[i].mutationId != ms[j].mutationId
  }

  ghost predicate EarlierIn(ms: seq<Mutation>, j: nat, p: Id) {
    exists i :: 0 <= i < j && i < |ms| && ms[i].mutationId == p
  }

  ghost predicate Carries(req: Request, x: Id) {
    EarlierIn(req.mutations, |req.mutations|, x)
  }

  /** Queued at client k. */
  ghost predicate Queues(s: System, k: nat, x: Id) {
    k < |s.peers| && EarlierIn(s.peers[k].cache.mutations, |s.peers[k].cache.mutations|, x)
  }

  ghost predicate ParentsFirst(ms: seq<Mutation>, log: Ledger) {
    forall j, p :: 0 <= j < |ms| && p in ms[j].item.parents ==> Logged(log, |log|, p) || EarlierIn(ms, j, p)
  }

  ghost predicate CarriedBy(requests: set<Request>, x: Id) {
    exists req, j :: req in requests && 0 <= j < |req.mutations| && req.mutations[j].mutationId == x
  }

  ghost predicate TailUnsent(ms: seq<Mutation>, sent: nat, log: Ledger, requests: set<Request>) {
    && sent <= |ms|
    && forall j :: sent <= j < |ms| ==>
         !Logged(log, |log|, ms[j].mutationId) && !CarriedBy(requests, ms[j].mutationId)
  }

  ghost predicate RequestMatches(p: Peer, k: nat, requests: set<Request>) {
    p.outstanding.Some? ==>
      && p.outstanding.value in requests
      && p.outstanding.value.client == k
      && p.outstanding.value.cursor == p.cache.cursor
      && p.sent <= |p.cache.mutations|
      && p.outstanding.value.mutations == p.cache.mutations[..p.sent]
  }

  ghost predicate TracksItem(p: Peer, log: Ledger, issued: map<Id, Ticket>, item: Id)
    requires CursorOf(p.cache.cursor) <= |log|
  {
    Tracks(Universe(issued, item), History(log, |log|, item), History(log, CursorOf(p.cache.cursor), item),
           QueueGraph(p.cache.mutations, item), GraphOf(p.cache.revisions, item), Lost(p.rows, item))
  }

  ghost predicate TracksServer(p: Peer, log: Ledger, issued: map<Id, Ticket>) {
    && CursorOf(p.cache.cursor) <= |log|
    && forall item :: TracksItem(p, log, issued, item)
  }

  /** No loss: whatever client k created is queued or accepted. */
  ghost predicate NothingLost(ms: seq<Mutation>, k: nat, log: Ledger, issued: map<Id, Ticket>) {
    forall x :: x in issued && issued[x].owner == Some(k) ==>
      Logged(log, |log|, x) || EarlierIn(ms, |ms|, x)
  }

  ghost predicate PeerOk(s: System, k: nat)
    requires k < |s.peers|
  {
    var p := s.peers[k];
    && ValidCache(p.cache)
    && IssuedQueue(p.cache.mutations, k, s.issued)
    && ParentsFirst(p.cache.mutations, s.server.log)
    && TailUnsent(p.cache.mutations, p.sent, s.server.log, s.requests)
    && RequestMatches(p, k, s.requests)
    && TracksServer(p, s.server.log, s.issued)
    && NothingLost(p.cache.mutations, k, s.server.log, s.issued)
  }

  ghost predicate RequestOk(req: Request, s: System) {
    && IssuedQueue(req.mutations, req.client, s.issued)
    && ParentsFirst(req.mutations, s.server.log)
    && CursorOf(req.cursor) <= |s.server.log|
  }

  /** What any reply still says truthfully about the history, however late. */
  ghost predicate ReplyOk(req: Request, r: Reply, log: Ledger) {
    && r.applied == Ids(req.mutations)
    && (forall j :: 0 <= j < |req.mutations| ==> Logged(log, |log|, req.mutations[j].mutationId))
    && CursorOf(req.cursor) <= r.cursor <= |log|
    && if r.full then SnapshotOf(log, r.cursor, r.changes) && InOrder(r.changes)
       else r.changes == Items(log, CursorOf(req.cursor), r.cursor)
  }

  ghost predicate Inv(s: System) {
    && ServerOk(s.server)
    && Registry(s.issued)
    && LogIssued(s.server.log, s.issued)
    && (forall k :: 0 <= k < |s.peers| ==> PeerOk(s, k))
    && (forall req :: req in s.requests ==> RequestOk(req, s))
    && (forall pair :: pair in s.replies ==> pair.0 in s.requests && ReplyOk(pair.0, pair.1, s.server.log))
  }
}
