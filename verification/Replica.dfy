/** How the cached graph of one item relates to the server's history of it.

    u is every revision of the item that exists anywhere, f the server's history,
    h the part of f up to the client's cursor, q what the client still has queued,
    g the cached graph, and lost the trashed heads the last snapshot did not bring. */
module Replica {
  import opened Revisions
  import opened CacheModel

  /** A head the client has already moved past: something cached that the server
      will only deliver after the cursor replaces it. */
  ghost predicate Ahead(g: Graph, h: Graph, x: Id) {
    exists y :: y in g && y !in h && (x in g[y].parents || g[y].purged)
  }

  ghost predicate Tracks(u: Graph, f: Graph, h: Graph, q: Graph, g: Graph, lost: set<Id>) {
    && Within(g, u) && Within(f, u) && Within(h, f) && Within(q, u)
    && g.Keys <= f.Keys + q.Keys
    && q.Keys !! h.Keys
    && lost <= h.Keys && lost !! g.Keys && (forall x :: x in lost ==> Trashed(h[x]))
    && (forall x :: x in Heads(h) && x !in lost ==> x in g || Ahead(g, h, x))
    && (forall x :: x in g && x in h && x !in Heads(h) ==> Referenced(g, x))
  }

  // ------------------------------------------------------------ local steps

  lemma {:induction false} HeadsAfterQueue(u: Graph, f: Graph, h: Graph, q: Graph, g: Graph, lost: set<Id>, r: Revision, x: Id)
    requires Tracks(u, f, h, q, g, lost) && r.revisionId !in u
    requires x in Heads(h) && x !in lost
    ensures x in GraphWithQueued(g, r) || Ahead(GraphWithQueued(g, r), h, x)
  {
    var g' := GraphWithQueued(g, r);
    assert r.revisionId in g' && g'[r.revisionId] == r && r.revisionId !in h;
    if !r.purged && x !in g {
      var y :| y in g && y !in h && (x in g[y].parents || g[y].purged);
      assert y in g' && g'[y] == g[y];
    }
  }

  lemma {:induction false} SupersededAfterQueue(u: Graph, f: Graph, h: Graph, q: Graph, g: Graph, lost: set<Id>, r: Revision, x: Id)
    requires Tracks(u, f, h, q, g, lost) && r.revisionId !in u
    requires x in GraphWithQueued(g, r) && x in h && x !in Heads(h)
    ensures Referenced(GraphWithQueued(g, r), x)
  {
    assert !r.purged && x != r.revisionId && r.revisionId !in g;
    SupersededAfterRevision(h, g, r, x);
  }

  lemma {:induction false} TracksAfterQueue(u: Graph, f: Graph, h: Graph, q: Graph, g: Graph, lost: set<Id>, r: Revision)
    requires Tracks(u, f, h, q, g, lost) && r.revisionId !in u
    ensures Tracks(u[r.revisionId := r], f, h, q[r.revisionId := r], GraphWithQueued(g, r), lost)
  {
    var g' := GraphWithQueued(g, r);
    assert r.revisionId !in f && r.revisionId !in h;
    forall x | x in Heads(h) && x !in lost ensures x in g' || Ahead(g', h, x) {
      HeadsAfterQueue(u, f, h, q, g, lost, r, x);
    }
    forall x | x in g' && x in h && x !in Heads(h) ensures Referenced(g', x) {
      SupersededAfterQueue(u, f, h, q, g, lost, r, x);
    }
  }

  // ------------------------------------------------------------ one change

  ghost predicate IsPreserved(g: Graph, q: Graph, t: Revision, g': Graph) {
    forall x :: x in g' <==> x == t.revisionId || x in LiveHeads(g) || x in q
  }

  lemma {:induction false} HeadsAfterRevision(u: Graph, f: Graph, h: Graph, q: Graph, g: Graph, lost: set<Id>, r: Revision, x: Id)
    requires Tracks(u, f, h, q, g, lost) && r.revisionId !in h && !r.purged
    requires x in Heads(h) && x !in r.parents && x !in lost
    requires r.revisionId in g ==> g[r.revisionId] == r
    ensures x in g[r.revisionId := r] || Ahead(g[r.revisionId := r], h[r.revisionId := r], x)
  {
    var h', g' := h[r.revisionId := r], g[r.revisionId := r];
    if x !in g {
      var y :| y in g && y !in h && (x in g[y].parents || g[y].purged);
      assert y != r.revisionId;
      assert y in g' && g'[y] == g[y] && y !in h';
    }
  }

  lemma {:induction false} SupersededAfterRevision(h: Graph, g: Graph, r: Revision, x: Id)
    requires r.revisionId in g ==> g[r.revisionId] == r
    requires x in g && x in h && (x in Heads(h) ==> x in r.parents)
    requires x !in Heads(h) ==> Referenced(g, x)
    ensures Referenced(g[r.revisionId := r], x)
  {
    var g' := g[r.revisionId := r];
    if x in r.parents {
      assert x in g'[r.revisionId].parents;
    } else {
      var y :| y in g && x in g[y].parents;
      assert y in g' && g'[y] == g[y];
    }
  }

  lemma {:induction false} WithinAfterAdding(g: Graph, u: Graph, r: Revision)
    requires Within(g, u) && r.revisionId in u && u[r.revisionId] == r
    ensures Within(g[r.revisionId := r], u) && (r.revisionId in g ==> g[r.revisionId] == r)
  {
  }

  /** The next change of the server, an ordinary revision. */
  lemma {:induction false} TracksAfterRevision(u: Graph, f: Graph, h: Graph, q: Graph, g: Graph, lost: set<Id>, r: Revision)
    requires Tracks(u, f, h, q, g, lost)
    requires r.revisionId in f && f[r.revisionId] == r && r.revisionId !in h && r.revisionId !in q && !r.purged
    requires Heads(h[r.revisionId := r]) == Heads(h) - IdSet(r.parents) + {r.revisionId}
    ensures Tracks(u, f, h[r.revisionId := r], q, g[r.revisionId := r], lost)
  {
    var h', g' := h[r.revisionId := r], g[r.revisionId := r];
    assert r.revisionId in u && u[r.revisionId] == r;
    WithinAfterAdding(g, u, r);
    WithinAfterAdding(h, f, r);
    forall x | x in Heads(h') && x !in lost ensures x in g' || Ahead(g', h', x) {
      if x != r.revisionId { HeadsAfterRevision(u, f, h, q, g, lost, r, x); }
    }
    forall x | x in g' && x in h' && x !in Heads(h') ensures Referenced(g', x) {
      assert x != r.revisionId && x in g && x in h;
      SupersededAfterRevision(h, g, r, x);
    }
  }

  lemma {:induction false} TombstoneSupersedes(u: Graph, f: Graph, h: Graph, q: Graph, g: Graph, lost: set<Id>, t: Revision, g': Graph, x: Id)
    requires Tracks(u, f, h, q, g, lost)
    requires t.revisionId !in h && Heads(h) <= IdSet(t.parents)
    requires IsPreserved(g, q, t, g') && t.revisionId in g' && g'[t.revisionId] == t
    requires x in g' && x in h
    ensures x in g && x !in lost && Referenced(g', x)
  {
    assert x !in q && x in LiveHeads(g);
    assert x in Heads(h);
    assert x in g'[t.revisionId].parents;
  }

  /** The next change of the server, a tombstone covering every head so far. */
  lemma {:induction false} TracksAfterTombstone(u: Graph, f: Graph, h: Graph, q: Graph, g: Graph, lost: set<Id>, t: Revision, g': Graph)
    requires Tracks(u, f, h, q, g, lost)
    requires t.revisionId in f && f[t.revisionId] == t && t.revisionId !in h && t.revisionId !in q && t.purged
    requires Heads(h[t.revisionId := t]) == {t.revisionId} && Heads(h) <= IdSet(t.parents)
    requires Within(g', u) && IsPreserved(g, q, t, g')
    ensures Tracks(u, f, h[t.revisionId := t], q, g', lost)
  {
    var h' := h[t.revisionId := t];
    assert t.revisionId in g' && g'[t.revisionId] == t;
    forall x | x in g' && x in h ensures x !in lost && Referenced(g', x) {
      TombstoneSupersedes(u, f, h, q, g, lost, t, g', x);
    }
  }

  // ------------------------------------------------------------ a snapshot

  /** A head that a queued revision of the same item already replaces. */
  ghost predicate Shadowed(q: Graph, x: Id) {
    exists y :: y in q && x in q[y].parents
  }

  /** The graph rebuilt from the queue and the snapshot rows seen so far; dropped
      are the trashed heads that came before a tombstone of the same item. */
  ghost predicate Rebuilding(u: Graph, h: Graph, q: Graph, g: Graph, seen: set<Id>, dropped: set<Id>) {
    && Within(g, u) && Within(h, u) && Within(q, u) && q.Keys !! h.Keys
    && q.Keys <= g.Keys <= q.Keys + seen
    && dropped <= seen <= Heads(h)
    && (forall x :: x in seen ==> x in g || x in dropped || Shadowed(q, x))
    && (forall x :: x in dropped ==> Trashed(h[x]) && x !in g)
    && (forall x :: x in seen && h[x].purged ==> x in g)
    && (dropped != {} ==> exists t :: t in seen && h[t].purged)
  }

  ghost predicate OneTombstone(h: Graph) {
    forall x, y :: x in Heads(h) && y in Heads(h) && h[x].purged && h[y].purged ==> x == y
  }

  function TrashOf(h: Graph, xs: set<Id>): set<Id> {
    set x | x in xs && x in h && Trashed(h[x])
  }

  lemma {:induction false} LiveRowsStay(u: Graph, h: Graph, q: Graph, g: Graph, seen: set<Id>, dropped: set<Id>, c: Revision, g': Graph, x: Id)
    requires Rebuilding(u, h, q, g, seen, dropped)
    requires IsPreserved(g, q, c, g')
    requires x in seen && !Trashed(h[x]) && !h[x].purged
    ensures x in g' || Shadowed(q, x)
  {
    if x in g && !Shadowed(q, x) {
      forall y | y in g ensures x !in g[y].parents {
        if y in q { assert g[y] == q[y]; } else { assert y in h && g[y] == h[y]; }
      }
      assert g[x] == h[x];
      assert x in LiveHeads(g);
    }
  }

  lemma {:induction false} RebuildingWithRevision(u: Graph, h: Graph, q: Graph, g: Graph, seen: set<Id>, dropped: set<Id>, c: Revision)
    requires Rebuilding(u, h, q, g, seen, dropped)
    requires c.revisionId in Heads(h) && h[c.revisionId] == c && c.revisionId !in seen && !c.purged
    ensures Rebuilding(u, h, q, g[c.revisionId := c], seen + {c.revisionId}, dropped)
  {
    var g' := g[c.revisionId := c];
    assert Within(g', u);
    forall x | x in dropped ensures x !in g' {}
    if dropped != {} {
      var t :| t in seen && h[t].purged;
      assert t in seen + {c.revisionId};
    }
  }

  lemma {:induction false} RebuildingWithTombstone(u: Graph, h: Graph, q: Graph, g: Graph, seen: set<Id>, dropped: set<Id>, c: Revision, g': Graph)
    requires Rebuilding(u, h, q, g, seen, dropped) && OneTombstone(h)
    requires c.revisionId in Heads(h) && h[c.revisionId] == c && c.revisionId !in seen && c.purged
    requires Within(g', u) && IsPreserved(g, q, c, g')
    ensures Rebuilding(u, h, q, g', seen + {c.revisionId}, TrashOf(h, seen))
  {
    var seen' := seen + {c.revisionId};
    forall x | x in seen ensures !h[x].purged {}
    forall x | x in seen' ensures x in g' || x in TrashOf(h, seen) || Shadowed(q, x) {
      if x in seen && !Trashed(h[x]) { LiveRowsStay(u, h, q, g, seen, dropped, c, g', x); }
    }
    forall x | x in TrashOf(h, seen) ensures x !in g' {
      assert x in g ==> g[x] == h[x];
    }
    assert c.revisionId in seen' && h[c.revisionId].purged;
  }

  lemma {:induction false} RebuildingStep(u: Graph, h: Graph, q: Graph, g: Graph, seen: set<Id>, dropped: set<Id>, c: Revision, g': Graph)
    requires Rebuilding(u, h, q, g, seen, dropped) && OneTombstone(h)
    requires c.revisionId in Heads(h) && h[c.revisionId] == c && c.revisionId !in seen
    requires Within(g', u)
    requires if c.purged then IsPreserved(g, q, c, g') else g' == g[c.revisionId := c]
    ensures Rebuilding(u, h, q, g', seen + {c.revisionId}, if c.purged then TrashOf(h, seen) else dropped)
  {
    if c.purged {
      RebuildingWithTombstone(u, h, q, g, seen, dropped, c, g');
    } else {
      RebuildingWithRevision(u, h, q, g, seen, dropped, c);
    }
  }

  /** A fully applied snapshot tracks the server at its cursor, without the trashed
      heads it dropped. */
  lemma {:induction false} RebuiltTracks(u: Graph, f: Graph, h: Graph, q: Graph, g: Graph, dropped: set<Id>)
    requires Rebuilding(u, h, q, g, Heads(h), dropped)
    requires Within(f, u) && Within(h, f)
    ensures Tracks(u, f, h, q, g, dropped)
  {
    forall x | x in Heads(h) && x !in dropped ensures x in g || Ahead(g, h, x) {
      if x !in g {
        var y :| y in q && x in q[y].parents;
        assert y in g && g[y] == u[y] == q[y];
      }
    }
  }

  // ----------------------------------------------------------- convergence

  /** With nothing queued and the cursor at the server's, the cached heads are exactly
      the server's heads but the lost ones. */
  lemma {:induction false} Converged(u: Graph, f: Graph, g: Graph, lost: set<Id>)
    requires Tracks(u, f, f, map[], g, lost)
    ensures Heads(g) == Heads(f) - lost
    ensures forall x :: x in g ==> x in f && g[x] == f[x]
  {
    forall x | x in Heads(f) && x !in lost ensures x in Heads(g) {
      forall y | y in g ensures x !in g[y].parents {
        assert y in f && g[y] == u[y] == f[y];
      }
      assert x in g || Ahead(g, f, x);
    }
  }
}
