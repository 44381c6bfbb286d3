/** A queue the server never lets in: the client always sends all of it, so it never
    gets smaller again. */
module Jam {
  import opened Revisions
  import opened RevisionLog
  import opened SyncProtocol
  import opened Exchange
  import opened CacheModel
  import opened SyncSystem
  import opened SyncInvariant
  import opened SyncTheorems
  import opened RequestBody
  import opened Progress

  /** Client k's queue is not admissible, and neither is the request it waits for. */
  ghost predicate Jammed(s: System, k: nat) {
    && k < |s.peers| && !Admissible(QueueRequest(s, k))
    && (s.peers[k].outstanding.Some? ==> !Admissible(s.peers[k].outstanding.value))
  }

  /** An admissible queue is admissible up to any point. */
  lemma {:induction false} AdmissiblePrefix(req: Request, longer: Request)
    requires req.cursor == longer.cursor && req.mutations <= longer.mutations && Admissible(longer)
    ensures Admissible(req)
  {
    LimitsOnlyTighten(req.cursor, req.mutations, longer.mutations);
    assert forall m :: m in req.mutations ==> m in longer.mutations;
  }

  /** Only admissible requests are ever answered. */
  lemma {:induction false} HandledIsAdmissible(s: System, t: System, req: Request, now: int, rows: seq<nat>, ids: seq<Id>, reply: Reply)
    requires Inv(s) && HandleStep(s, t, req, now, rows, ids, reply)
    ensures Admissible(req)
  {
    RequestIsNormal(req, s);
    ProcessedFits(s.server, req.mutations, now, rows, ids);
    var u := ProcessPhases(s.server, req.mutations, now, rows, ids);
    forall m | m in req.mutations ensures m.item.revision <= MAX_REVISION && Storable(m) {
      assert ValidMutation(m);
      AcceptedIsStorable(u, req.mutations, now, m);
    }
  }

  ghost predicate AnsweredAreAdmissible(s: System) {
    forall pair :: pair in s.replies ==> Admissible(pair.0)
  }

  lemma {:induction false} StepAnswersAdmissible(s: System, t: System)
    requires Inv(s) && AnsweredAreAdmissible(s) && Next(s, t)
    ensures AnsweredAreAdmissible(t)
  {
    if req, now, rows, ids, reply :| HandleStep(s, t, req, now, rows, ids, reply) {
      HandledIsAdmissible(s, t, req, now, rows, ids, reply);
      assert t.replies == s.replies + {(req, reply)};
    } else {
      assert t.replies == s.replies;
    }
  }

  lemma {:induction false} AnswersStayAdmissible(s: System, t: System, n: nat)
    requires Inv(s) && AnsweredAreAdmissible(s) && Leads(s, t, n)
    ensures AnsweredAreAdmissible(t)
    decreases n
  {
    if n > 0 {
      var u, m: nat :| m < n && Continues(s, u, t, m, n);
      AnswersStayAdmissible(s, u, m);
      RunKeepsInv(s, u, m);
      StepAnswersAdmissible(u, t);
    }
  }

  lemma {:induction false} ReachableAnswers(t: System)
    requires Reachable(t)
    ensures AnsweredAreAdmissible(t)
  {
    var s, n: nat :| Init(s) && Leads(s, t, n);
    ReachableFromInit(s);
    AnswersStayAdmissible(s, t, n);
  }

  lemma {:induction false} ReachableFromInit(s: System)
    requires Init(s)
    ensures Reachable(s) && Inv(s)
  {
    assert Leads(s, s, 0);
    ReachableHasInv(s);
  }

  /** The queue and the cursor a jammed client keeps. */
  ghost predicate Keeps(s: System, t: System, k: nat) {
    && k < |s.peers| && k < |t.peers|
    && s.peers[k].cache.mutations <= t.peers[k].cache.mutations
    && s.peers[k].cache.cursor == t.peers[k].cache.cursor
  }

  lemma {:induction false} QueueKeepsJam(s: System, t: System, c: nat, r: Revision, base: nat, k: nat)
    requires QueueStep(s, t, c, r, base) && Jammed(s, k)
    ensures Jammed(t, k) && Keeps(s, t, k)
  {
    if c == k && Admissible(QueueRequest(t, k)) { AdmissiblePrefix(QueueRequest(s, k), QueueRequest(t, k)); }
  }

  lemma {:induction false} DeliverKeepsJam(s: System, t: System, c: nat, reply: Reply, k: nat)
    requires DeliverStep(s, t, c, reply) && Jammed(s, k) && AnsweredAreAdmissible(s)
    ensures Jammed(t, k) && Keeps(s, t, k)
  {
    var pair := (s.peers[c].outstanding.value, reply);
    assert pair in s.replies && Admissible(pair.0);
    assert t.peers[k] == s.peers[k];
  }

  lemma {:induction false} SendKeepsJam(s: System, t: System, c: nat, k: nat)
    requires (SendStep(s, t, c) || LoseStep(s, t, c)) && Jammed(s, k)
    ensures Jammed(t, k) && Keeps(s, t, k)
  {
    assert c != k ==> t.peers[k] == s.peers[k];
  }

  lemma {:induction false} StepKeepsJam(s: System, t: System, k: nat)
    requires AnsweredAreAdmissible(s) && Next(s, t) && Jammed(s, k)
    ensures Jammed(t, k) && Keeps(s, t, k)
  {
    if c, r, base :| QueueStep(s, t, c, r, base) {
      QueueKeepsJam(s, t, c, r, base, k);
    } else if c :| SendStep(s, t, c) || LoseStep(s, t, c) {
      SendKeepsJam(s, t, c, k);
    } else if c, reply :| DeliverStep(s, t, c, reply) {
      DeliverKeepsJam(s, t, c, reply, k);
    } else {
      var req, now, rows, ids, reply :| HandleStep(s, t, req, now, rows, ids, reply);
      assert t.peers == s.peers;
    }
  }

  /** Not recorded, and in no request the server could still take. */
  ghost predicate HeldBack(s: System, y: Id) {
    && !Logged(s.server.log, |s.server.log|, y)
    && forall req :: req in s.requests && Carries(req, y) ==> !Admissible(req)
  }

  lemma {:induction false} SendHoldsBack(s: System, t: System, c: nat, k: nat, y: Id)
    requires c < |s.peers| && IssuedQueue(s.peers[c].cache.mutations, c, s.issued)
    requires SendStep(s, t, c) && Jammed(s, k) && HeldBack(s, y)
    requires y in s.issued ==> s.issued[y].owner == Some(k)
    ensures HeldBack(t, y)
  {
    var req := QueueRequest(s, c);
    if Carries(req, y) {
      var n :| 0 <= n < |req.mutations| && req.mutations[n].mutationId == y;
      assert s.issued[y] == Ticket(req.mutations[n], Some(c));
    }
  }

  lemma {:induction false} HandleHoldsBack(s: System, t: System, req: Request, now: int, rows: seq<nat>, ids: seq<Id>, reply: Reply, k: nat, y: Id)
    requires Inv(s) && HandleStep(s, t, req, now, rows, ids, reply) && HeldBack(s, y)
    requires y in t.issued ==> t.issued[y].owner == Some(k)
    ensures HeldBack(t, y)
  {
    HandledIsAdmissible(s, t, req, now, rows, ids, reply);
    HandleHandles(s, t, req, now, rows, ids, reply);
  }

  lemma {:induction false} StepHoldsBack(s: System, t: System, k: nat, y: Id)
    requires Inv(s) && Next(s, t) && Jammed(s, k) && HeldBack(s, y) && Extends(s.issued, t.issued)
    requires y in t.issued ==> t.issued[y].owner == Some(k)
    ensures HeldBack(t, y)
  {
    if c :| SendStep(s, t, c) {
      assert PeerOk(s, c);
      SendHoldsBack(s, t, c, k, y);
    } else if req, now, rows, ids, reply :| HandleStep(s, t, req, now, rows, ids, reply) {
      HandleHoldsBack(s, t, req, now, rows, ids, reply, k, y);
    }
  }

  lemma {:induction false} JamHoldsBack(s: System, t: System, n: nat, k: nat, y: Id)
    requires Reachable(s) && Leads(s, t, n) && Jammed(s, k) && HeldBack(s, y)
    requires y in t.issued ==> t.issued[y].owner == Some(k)
    ensures HeldBack(t, y)
    decreases n
  {
    if n > 0 {
      var u, m: nat :| m < n && Continues(s, u, t, m, n);
      ReachableLeads(s, u, m);
      ReachableHasInv(u);
      NextKeepsInv(u, t);
      JamHoldsBack(s, u, m, k, y);
      JamStays(s, u, m, k);
      StepHoldsBack(u, t, k, y);
    }
  }

  lemma {:induction false} JamStays(s: System, t: System, n: nat, k: nat)
    requires Reachable(s) && Leads(s, t, n) && Jammed(s, k)
    ensures Jammed(t, k) && Keeps(s, t, k)
    decreases n
  {
    if n > 0 {
      var u, m: nat :| m < n && Continues(s, u, t, m, n);
      JamStays(s, u, m, k);
      ReachableLeads(s, u, m);
      ReachableAnswers(u);
      StepKeepsJam(u, t, k);
    }
  }

  /** From the moment a client's queue is not admissible and it waits for no admissible
      request, in every later state of the run: the queue has only grown, the cursor has
      not moved, and nothing is recorded that no admissible request carried by then, in
      particular nothing the client queues afterwards. */
  lemma {:induction false} JammedForGood(s: System, t: System, n: nat, k: nat)
    requires Reachable(s) && Leads(s, t, n) && Jammed(s, k)
    ensures Jammed(t, k) && Keeps(s, t, k) && t.peers[k].cache.mutations != []
    ensures forall y :: HeldBack(s, y) && (y in t.issued ==> t.issued[y].owner == Some(k)) ==>
              !Logged(t.server.log, |t.server.log|, y)
    ensures forall y :: y !in s.issued && y in t.issued && t.issued[y].owner == Some(k) ==>
              !Logged(t.server.log, |t.server.log|, y) && Queues(t, k, y)
  {
    JamStays(s, t, n, k);
    ReachableLeads(s, t, n);
    ReachableHasInv(s);
    ReachableHasInv(t);
    assert PeerOk(t, k);
    EmptyQueueFits(t.peers[k].cache.cursor);
    forall y | HeldBack(s, y) && (y in t.issued ==> t.issued[y].owner == Some(k)) ensures !Logged(t.server.log, |t.server.log|, y) {
      JamHoldsBack(s, t, n, k, y);
    }
    forall y | y !in s.issued ensures HeldBack(s, y) { NewIsHeldBack(s, y); }
  }

  lemma {:induction false} NewIsHeldBack(s: System, y: Id)
    requires Inv(s) && y !in s.issued
    ensures HeldBack(s, y)
  {
    forall req | req in s.requests ensures !Carries(req, y) {
      assert RequestOk(req, s);
    }
  }

  /** An import of more than a hundred items, a hundred small edits or one large item is
      all it takes. */
  lemma {:induction false} WhatJams(s: System, k: nat)
    requires k < |s.peers| && s.peers[k].outstanding == None
    ensures var ms := s.peers[k].cache.mutations;
            |ms| > 100
            || (|ms| == 100 && forall m :: m in ms ==> |m.item.envelope| >= 1000)
            || (exists m :: m in ms && |m.item.envelope| >= 98302)
            ==> Jammed(s, k)
  {
    var req := QueueRequest(s, k);
    if Admissible(req) {
      if |req.mutations| == 100 && forall m :: m in req.mutations ==> |m.item.envelope| >= 1000 {
        HundredSmallEditsAreTooMuch(req.cursor, req.mutations);
      }
      forall m | m in req.mutations ensures |m.item.envelope| <= 98301 { AdmittedEnvelope(req.cursor, req.mutations, m); }
    }
  }
}
