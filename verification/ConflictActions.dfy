/** The edits the terminal interface builds from cached heads: conflict resolution,
    deletion, restoration and permanent deletion. */
module ConflictActions {
  import opened Revisions
  import opened RevisionLog
  import opened SyncProtocol
  import opened CacheModel
  import opened SyncTheorems

  // A decrypted version; content stands for the sealed item it carries.
  datatype Record = Record(revision: nat, revisionId: Id, parents: seq<Id>, deleted: bool, purged: bool,
                           content: seq<Byte>, conflictVersions: seq<Record>)

  function RevisionIds(versions: seq<Record>): (ids: seq<Id>)
    ensures |ids| == |versions| && forall j :: 0 <= j < |ids| ==> ids[j] == versions[j].revisionId
  {
    seq(|versions|, j requires 0 <= j < |versions| => versions[j].revisionId)
  }

  ghost predicate ShowsVersion(v: Record, g: Graph) {
    && v.revisionId in g && g[v.revisionId].revision == v.revision
    && g[v.revisionId].deleted == v.deleted && g[v.revisionId].purged == v.purged
  }

  /** The versions on screen are exactly the heads of the cached graph. */
  ghost predicate ShowsHeads(versions: seq<Record>, g: Graph) {
    && versions != [] && Distinct(RevisionIds(versions))
    && IdSet(RevisionIds(versions)) == Heads(g)
    && forall j {:trigger ShowsVersion(versions[j], g)} :: 0 <= j < |versions| ==> ShowsVersion(versions[j], g)
  }

  /** A copy of the selected version with every shown version as its parent. */
  method ResolveConflict(versions: seq<Record>, selected: int) returns (r: Record)
    requires versions != []
    ensures r.parents == RevisionIds(versions) && r.revisionId == NO_ID && r.conflictVersions == []
    ensures forall j :: 0 <= j < |versions| ==> versions[j].revision < r.revision
    ensures exists j :: 0 <= j < |versions| && versions[j].revision + 1 == r.revision
    ensures var chosen := versions[if 0 <= selected < |versions| then selected else 0];
            r.deleted == chosen.deleted && r.purged == chosen.purged && r.content == chosen.content
  {
    var at := if selected < 0 || selected >= |versions| then 0 else selected;
    var parents := [];
    var highest: nat := 0;
    for j := 0 to |versions|
      invariant |parents| == j && forall i :: 0 <= i < j ==> parents[i] == versions[i].revisionId
      invariant forall i :: 0 <= i < j ==> versions[i].revision <= highest
      invariant if j == 0 then highest == 0 else exists i :: 0 <= i < j && versions[i].revision == highest
    {
      parents := parents + [versions[j].revisionId];
      if highest < versions[j].revision { highest := versions[j].revision; }
      assert highest == versions[j].revision || j > 0;
    }
    assert parents == RevisionIds(versions);
    r := versions[at].(conflictVersions := [], revisionId := NO_ID, parents := parents, revision := highest + 1);
  }

  function DeleteItem(r: Record): Record {
    r.(revision := r.revision + 1, parents := [r.revisionId], revisionId := NO_ID, conflictVersions := [],
       deleted := true, purged := false)
  }

  function RestoreItem(r: Record): Record {
    r.(revision := r.revision + 1, parents := [r.revisionId], revisionId := NO_ID, conflictVersions := [],
       deleted := false, purged := false)
  }

  function PurgeItem(r: Record): Record {
    r.(revision := r.revision + 1, parents := [r.revisionId], revisionId := NO_ID, conflictVersions := [],
       deleted := true, purged := true)
  }

  /** What Save hands to QueueMutation: sealed content, except for a tombstone. */
  function Sealed(r: Record, item: Id, newId: Id): Revision {
    Revision(item, 1, r.revision, newId, r.parents, r.deleted, r.purged, if r.purged then [] else r.content)
  }

  function SealedSorted(r: Record, item: Id, newId: Id): Revision {
    Sealed(r, item, newId).(parents := SortIds(r.parents))
  }

  ghost function Save(d: CacheData, r: Record, item: Id, newId: Id): Result<CacheData, CacheError>
    requires r.revision > 0
  {
    Queue(d, Sealed(r, item, newId), r.revision - 1)
  }

  // -------------------------------------------------------------- theorems

  ghost predicate FreshRevision(g: Graph, newId: Id) {
    newId != NO_ID && newId !in g && !Referenced(g, newId)
  }

  /** Saving a record whose parents are distinct cached revisions and whose number is
      right always works locally. */
  lemma {:induction false} SaveSucceeds(d: CacheData, r: Record, item: Id, newId: Id)
    requires item != NO_ID && newId != NO_ID && newId !in GraphOf(d.revisions, item)
    requires r.revision > 1 && r.parents != [] && Distinct(r.parents) && ParentsIn(GraphOf(d.revisions, item), r.parents)
    requires MaxRevision(GraphOf(d.revisions, item), r.parents) == r.revision - 1
    requires (r.purged ==> r.deleted) && r.content != []
    ensures Save(d, r, item, newId).Ok?
    ensures var e := Save(d, r, item, newId).value; var p := SealedSorted(r, item, newId);
            && e.mutations == d.mutations + [Mutation(newId, r.revision - 1, p)]
            && GraphOf(e.revisions, item) == GraphWithQueued(GraphOf(d.revisions, item), p)
  {
    PreparedGiven(GraphOf(d.revisions, item), Sealed(r, item, newId), r.revision - 1);
  }

  /** x is the record as a revision: its number, flags and content, and no content for a
      tombstone. */
  ghost predicate IsSaved(x: Revision, r: Record, item: Id, newId: Id) {
    && x.itemId == item && x.revisionId == newId && x.revision == r.revision
    && x.deleted == r.deleted && x.purged == r.purged && x.envelope == (if r.purged then [] else r.content)
  }

  lemma {:induction false} GivenParentsAreSorted(g: Graph, r: Revision, base: nat)
    requires base > 0 && r.parents != [] && Prepared(g, r, base).Some?
    ensures Prepared(g, r, base).value == r.(parents := SortIds(r.parents))
  {
  }

  /** What a successful save queues and caches. */
  lemma {:induction false} SavedRevision(d: CacheData, r: Record, item: Id, newId: Id)
    requires r.revision > 1 && r.parents != [] && Save(d, r, item, newId).Ok?
    ensures var e := Save(d, r, item, newId).value; var n := |d.mutations|;
            && |e.mutations| == n + 1 && e.mutations[..n] == d.mutations
            && e.mutations[n].mutationId == newId && e.mutations[n].baseRevision == r.revision - 1
            && IsSaved(e.mutations[n].item, r, item, newId) && multiset(e.mutations[n].item.parents) == multiset(r.parents)
            && newId in GraphOf(e.revisions, item) && GraphOf(e.revisions, item)[newId] == e.mutations[n].item
  {
    var x, g := Sealed(r, item, newId), GraphOf(d.revisions, item);
    GivenParentsAreSorted(g, x, r.revision - 1);
    var p := x.(parents := SortIds(x.parents));
    var e := Save(d, r, item, newId).value;
    assert e.mutations == d.mutations + [Mutation(newId, r.revision - 1, p)];
    assert GraphOf(e.revisions, item) == GraphWithQueued(g, p);
    SortSorts(r.parents);
  }

  /** Merging every head into one revision leaves that revision as the only head. */
  lemma {:induction false} MergeLeavesOneHead(g: Graph, p: Revision)
    requires FreshRevision(g, p.revisionId) && p.revisionId !in p.parents && Heads(g) <= IdSet(p.parents)
    ensures Heads(GraphWithQueued(g, p)) == {p.revisionId}
  {
    if p.purged {
      var h := GraphWithQueued(g, p);
      assert forall y :: y in h ==> h[y] == p;
    } else {
      HeadsAfterAdding(g, p);
    }
  }

  ghost predicate Resolves(r: Record, versions: seq<Record>, g: Graph) {
    && r.parents == RevisionIds(versions) && r.revision > 1 && ParentsIn(g, r.parents)
    && MaxRevision(g, r.parents) == r.revision - 1
    && (r.purged ==> r.deleted) && r.content != []
    && exists j :: 0 <= j < |versions| && r.deleted == versions[j].deleted && r.purged == versions[j].purged
  }

  /** What resolveConflict returns for the shown heads is a resolution of them. */
  method Resolve(versions: seq<Record>, selected: int, ghost g: Graph) returns (r: Record)
    requires ShowsHeads(versions, g)
    requires forall x :: x in g ==> ValidContent(g[x]) && g[x].revision >= 1
    requires forall j :: 0 <= j < |versions| ==> versions[j].content != []
    ensures Resolves(r, versions, g)
  {
    r := ResolveConflict(versions, selected);
    var ids := RevisionIds(versions);
    forall x | x in ids ensures x in g { assert x in IdSet(ids); }
    forall j | 0 <= j < |ids| ensures ids[j] in g && g[ids[j]].revision == versions[j].revision {
      assert ShowsVersion(versions[j], g);
    }
    assert MaxRevision(g, ids) == r.revision - 1 by {
      var p :| p in ids && g[p].revision == MaxRevision(g, ids);
      var i :| 0 <= i < |ids| && ids[i] == p;
      var j :| 0 <= j < |versions| && versions[j].revision + 1 == r.revision;
      assert ids[j] in ids && g[ids[j]].revision <= MaxRevision(g, ids);
    }
    var at := if 0 <= selected < |versions| then selected else 0;
    assert r.deleted == versions[at].deleted && r.purged == versions[at].purged;
    assert ShowsVersion(versions[at], g) && ShowsVersion(versions[0], g);
    assert ValidContent(g[versions[at].revisionId]);
    assert g[versions[0].revisionId].revision >= 1;
  }

  lemma {:induction false} SortedHeads(g: Graph, ids: seq<Id>)
    requires ids != [] && Distinct(ids) && ParentsIn(g, ids)
    ensures SortIds(ids) != [] && Distinct(SortIds(ids)) && IdSet(SortIds(ids)) == IdSet(ids)
    ensures ParentsIn(g, SortIds(ids)) && MaxRevision(g, SortIds(ids)) == MaxRevision(g, ids)
  {
    SortKeepsParents(ids);
    MaxRevisionOfPermutation(g, ids, SortIds(ids));
  }

  /** Conflict resolution closes the conflict locally: it is queued, and the new
      revision is the item's only head. */
  lemma {:induction false} ResolutionClosesConflict(d: CacheData, item: Id, versions: seq<Record>, r: Record, newId: Id)
    requires ValidCache(d) && item != NO_ID
    requires ShowsHeads(versions, GraphOf(d.revisions, item)) && FreshRevision(GraphOf(d.revisions, item), newId)
    requires Resolves(r, versions, GraphOf(d.revisions, item))
    ensures Save(d, r, item, newId).Ok?
    ensures Heads(GraphOf(Save(d, r, item, newId).value.revisions, item)) == {newId}
    ensures var h := GraphOf(Save(d, r, item, newId).value.revisions, item);
            newId in h && IsSaved(h[newId], r, item, newId) && multiset(h[newId].parents) == multiset(RevisionIds(versions))
  {
    var g := GraphOf(d.revisions, item);
    SortedHeads(g, r.parents);
    SaveSucceeds(d, r, item, newId);
    SavedRevision(d, r, item, newId);
    MergeLeavesOneHead(g, SealedSorted(r, item, newId));
  }

  /** And on the server: when it has the same heads, it accepts the resolution and
      has that same single head. */
  lemma {:induction false} ResolutionIsAccepted(s: Server, item: Id, versions: seq<Record>, r: Record, newId: Id, now: int)
    requires ServerOk(s) && |s.log| < MAX_REVISION && item != NO_ID
    requires ShowsHeads(versions, Current(s, item)) && newId != NO_ID && !Logged(s.log, |s.log|, newId)
    requires Resolves(r, versions, Current(s, item))
    requires r.revision <= MAX_REVISION && |r.content| <= MAX_ENVELOPE
    ensures var m := Mutation(newId, r.revision - 1, SealedSorted(r, item, newId));
            && ValidMutation(m) && Accept(s, m, now) == Ok(Append(s, m, now))
            && Heads(Current(Append(s, m, now), item)) == {newId}
  {
    var m := Mutation(newId, r.revision - 1, SealedSorted(r, item, newId));
    ResolutionIsLegal(s, item, versions, r, newId);
    SortedHeads(Current(s, item), r.parents);
    MergeIsAccepted(s, m, now);
  }

  /** An acceptable mutation naming every head becomes the only head. */
  lemma {:induction false} MergeIsAccepted(s: Server, m: Mutation, now: int)
    requires ServerOk(s) && |s.log| < MAX_REVISION && ValidMutation(m) && !Logged(s.log, |s.log|, m.mutationId)
    requires Acceptable(Current(s, m.item.itemId), m) && Storable(m) && Heads(Current(s, m.item.itemId)) <= IdSet(m.item.parents)
    ensures Accept(s, m, now) == Ok(Append(s, m, now))
    ensures Heads(Current(Append(s, m, now), m.item.itemId)) == {m.mutationId}
  {
    assert Find(s.log, m.mutationId).None?;
    AcceptKeepsServer(s, m, now);
    var t := Append(s, m, now);
    HeadsStep(t.log, |s.log|);
    HistoryPrefix(s.log, t.log, |s.log|, m.item.itemId);
  }

  lemma {:induction false} ResolutionIsLegal(s: Server, item: Id, versions: seq<Record>, r: Record, newId: Id)
    requires ServerOk(s) && item != NO_ID && ShowsHeads(versions, Current(s, item)) && newId != NO_ID
    requires Resolves(r, versions, Current(s, item))
    requires r.revision <= MAX_REVISION && |r.content| <= MAX_ENVELOPE
    ensures var m := Mutation(newId, r.revision - 1, SealedSorted(r, item, newId));
            ValidMutation(m) && Acceptable(Current(s, item), m)
  {
    SortedHeads(Current(s, item), r.parents);
    StoredIdsAreReal(s, item);
    LoneVersionIsCopied(versions, r, Current(s, item));
  }

  lemma {:induction false} StoredIdsAreReal(s: Server, item: Id)
    requires ServerOk(s)
    ensures NO_ID !in Current(s, item)
  {
    forall x | x in Current(s, item) ensures x != NO_ID {
      var k := HistoryIndex(s.log, |s.log|, item, x);
      assert Legal(s.log, k);
    }
  }

  /** With a single version the resolution copies its flags, so a lone tombstone is
      never resolved into a live revision. */
  lemma {:induction false} LoneVersionIsCopied(versions: seq<Record>, r: Record, g: Graph)
    requires ShowsHeads(versions, g) && Resolves(r, versions, g)
    ensures !Resurrects(g, Revision(0, 1, r.revision, 0, SortIds(r.parents), r.deleted, r.purged, []))
  {
    SortKeepsParents(r.parents);
    if |r.parents| == 1 {
      var j :| 0 <= j < |versions| && r.deleted == versions[j].deleted && r.purged == versions[j].purged;
      assert j == 0 && r.parents == [versions[0].revisionId];
      assert SortIds(r.parents)[0] in r.parents;
      assert ShowsVersion(versions[0], g);
    }
  }

  // -------------------------------------------------- trash of a shown record

  ghost predicate ShowsHead(r: Record, g: Graph) {
    && r.revisionId in Heads(g) && g[r.revisionId].revision == r.revision >= 1
    && g[r.revisionId].deleted == r.deleted && g[r.revisionId].purged == r.purged && r.content != []
  }

  /** Deleting, restoring and purging a shown head always works locally. */
  lemma {:induction false} TrashActionsQueue(d: CacheData, r: Record, item: Id, newId: Id, next: Record)
    requires item != NO_ID && FreshRevision(GraphOf(d.revisions, item), newId) && ShowsHead(r, GraphOf(d.revisions, item))
    requires next == DeleteItem(r) || next == RestoreItem(r) || next == PurgeItem(r)
    ensures Save(d, next, item, newId).Ok?
    ensures var g := GraphOf(d.revisions, item); var h := GraphOf(Save(d, next, item, newId).value.revisions, item);
            Heads(h) == if next.purged then {newId} else Heads(g) - {r.revisionId} + {newId}
  {
    var g := GraphOf(d.revisions, item);
    assert next.parents == [r.revisionId];
    assert MaxRevision(g, next.parents) == r.revision;
    SaveSucceeds(d, next, item, newId);
    SortKeepsParents(next.parents);
    var p := SealedSorted(next, item, newId);
    SortedIsFixed(next.parents);
    if next.purged {
      assert forall y :: y in GraphWithQueued(g, p) ==> y == newId && GraphWithQueued(g, p)[y] == p;
    } else {
      HeadsAfterAdding(g, p);
      assert IdSet(p.parents) == {r.revisionId};
    }
  }

  /** What the three actions queue, and cache as a head: the next revision over the shown
      one, with its content for a deletion and a restoration, without for a purge. */
  lemma {:induction false} TrashActionsContent(d: CacheData, r: Record, item: Id, newId: Id, next: Record)
    requires item != NO_ID && FreshRevision(GraphOf(d.revisions, item), newId) && ShowsHead(r, GraphOf(d.revisions, item))
    requires next == DeleteItem(r) || next == RestoreItem(r) || next == PurgeItem(r)
    ensures Save(d, next, item, newId).Ok?
    ensures var e := Save(d, next, item, newId).value; var h := GraphOf(e.revisions, item);
            && |e.mutations| == |d.mutations| + 1 && e.mutations[..|d.mutations|] == d.mutations
            && newId in Heads(h) && e.mutations[|d.mutations|] == Mutation(newId, r.revision, h[newId])
            && h[newId].itemId == item && h[newId].revision == r.revision + 1 && h[newId].parents == [r.revisionId]
            && (next == DeleteItem(r) ==> h[newId].deleted && !h[newId].purged && h[newId].envelope == r.content)
            && (next == RestoreItem(r) ==> !h[newId].deleted && !h[newId].purged && h[newId].envelope == r.content)
            && (next == PurgeItem(r) ==> h[newId].deleted && h[newId].purged && h[newId].envelope == [])
  {
    TrashActionsQueue(d, r, item, newId, next);
    assert next.parents == [r.revisionId] && next.revision == r.revision + 1;
    SortedIsFixed(next.parents);
    SaveSucceeds(d, next, item, newId) by { assert MaxRevision(GraphOf(d.revisions, item), next.parents) == r.revision; }
    assert newId in Heads(GraphOf(Save(d, next, item, newId).value.revisions, item));
  }

  /** The record a head is shown as. */
  ghost predicate Shows(r: Record, g: Graph) {
    ShowsHead(r, g) && r.content == g[r.revisionId].envelope
  }

  /** Deleting a live head and restoring what is then shown takes nothing away: a live head
      with the original content stands in its place, and the other heads are as before. */
  lemma {:induction false} RestoreUndoesDelete(d: CacheData, r: Record, item: Id, first: Id, trashed: Record, second: Id)
    requires item != NO_ID && Shows(r, GraphOf(d.revisions, item)) && !r.deleted
    requires FreshRevision(GraphOf(d.revisions, item), first) && FreshRevision(GraphOf(d.revisions, item), second) && second != first
    requires Save(d, DeleteItem(r), item, first).Ok?
    requires trashed.revisionId == first && Shows(trashed, GraphOf(Save(d, DeleteItem(r), item, first).value.revisions, item))
    ensures var e := Save(d, DeleteItem(r), item, first).value;
            && Save(e, RestoreItem(trashed), item, second).Ok?
            && var g, h := GraphOf(d.revisions, item), GraphOf(Save(e, RestoreItem(trashed), item, second).value.revisions, item);
            && Heads(h) == Heads(g) - {r.revisionId} + {second}
            && !h[second].deleted && !h[second].purged && h[second].envelope == g[r.revisionId].envelope
  {
    var e := Save(d, DeleteItem(r), item, first).value;
    TrashActionsContent(d, r, item, first, DeleteItem(r));
    TrashActionsQueue(d, r, item, first, DeleteItem(r));
    SavedGraph(d, r, item, first);
    assert FreshRevision(GraphOf(e.revisions, item), second);
    TrashActionsContent(e, trashed, item, second, RestoreItem(trashed));
    TrashActionsQueue(e, trashed, item, second, RestoreItem(trashed));
  }

  lemma {:induction false} SavedGraph(d: CacheData, r: Record, item: Id, newId: Id)
    requires item != NO_ID && FreshRevision(GraphOf(d.revisions, item), newId) && ShowsHead(r, GraphOf(d.revisions, item))
    ensures Save(d, DeleteItem(r), item, newId).Ok?
    ensures var g, h := GraphOf(d.revisions, item), GraphOf(Save(d, DeleteItem(r), item, newId).value.revisions, item);
            newId in h && h == g[newId := h[newId]] && h[newId].parents == [r.revisionId]
  {
    TrashActionsContent(d, r, item, newId, DeleteItem(r));
    SaveSucceeds(d, DeleteItem(r), item, newId) by {
      assert MaxRevision(GraphOf(d.revisions, item), DeleteItem(r).parents) == r.revision;
    }
  }

  /** On the server the three differ: a deletion of a stored revision is always
      accepted, a restoration unless its parent is a tombstone head, and a permanent
      deletion exactly when the parent is the only head. A purge of one side of a
      conflict is therefore queued locally but refused by the server. */
  lemma {:induction false} TrashActionsOnServer(s: Server, r: Record, item: Id, newId: Id, next: Record, now: int)
    requires ServerOk(s) && |s.log| < MAX_REVISION && item != NO_ID && newId != NO_ID && !Logged(s.log, |s.log|, newId)
    requires r.revisionId in Current(s, item) && Current(s, item)[r.revisionId].revision == r.revision
    requires 1 <= r.revision < MAX_REVISION && 1 <= |r.content| <= MAX_ENVELOPE
    requires next == DeleteItem(r) || next == RestoreItem(r) || next == PurgeItem(r)
    ensures var m := Mutation(newId, r.revision, Sealed(next, item, newId)); var g := Current(s, item);
            && ValidMutation(m)
            && (next == DeleteItem(r) ==> Accept(s, m, now).Ok?)
            && (next == RestoreItem(r) ==>
                  (Accept(s, m, now).Ok? <==> !(r.revisionId in Heads(g) && g[r.revisionId].purged)))
            && (next == PurgeItem(r) ==> (Accept(s, m, now).Ok? <==> Heads(g) <= {r.revisionId}))
  {
    var g := Current(s, item);
    var m := Mutation(newId, r.revision, Sealed(next, item, newId));
    assert m.item.parents == [r.revisionId];
    StoredIdsAreReal(s, item);
    assert MaxRevision(g, m.item.parents) == r.revision;
    assert Find(s.log, newId).None?;
    assert CoversHeads(g, m.item.parents) <==> Heads(g) <= {r.revisionId};
  }

  /** A purge of one side of a conflict is queued, and no later state of the server
      ever takes it: the whole queue is stuck behind it. */
  lemma {:induction false} OneSidedPurgeIsStuck(d: CacheData, s: Server, t: Server, r: Record, item: Id, other: Id, newId: Id,
                                                ms: seq<Mutation>, now: int)
    requires ServerOk(s) && ServerOk(t) && s.log <= t.log && item != NO_ID
    requires GraphOf(d.revisions, item) == Current(s, item) && ShowsHead(r, Current(s, item))
    requires other in Heads(Current(s, item)) && other != r.revisionId
    requires FreshRevision(Current(s, item), newId) && !Logged(s.log, |s.log|, newId)
    requires r.revision < MAX_REVISION && |r.content| <= MAX_ENVELOPE
    ensures Save(d, PurgeItem(r), item, newId).Ok?
    ensures var queue := Save(d, PurgeItem(r), item, newId).value.mutations;
            queue != [] && (queue[|queue| - 1] in ms && AllValid(ms) ==> AcceptAll(t, ms, now).Err?)
  {
    var next := PurgeItem(r);
    var m := Mutation(newId, r.revision, Sealed(next, item, newId));
    assert next.parents == [r.revisionId];
    TrashActionsQueue(d, r, item, newId, next);
    SortedIsFixed(next.parents);
    SaveSucceeds(d, next, item, newId) by { assert MaxRevision(Current(s, item), next.parents) == r.revision; }
    if m in ms && AllValid(ms) {
      assert other !in m.item.parents;
      RefusedPurgeBlocksQueue(s, t, m, ms, now);
    }
  }

  /** How a trashed head and a tombstone head come to coexist: a deletion made before
      its author heard of the purge is accepted beside the tombstone. */
  lemma {:induction false} LateDeletionMeetsTombstone(s: Server, r: Record, item: Id, tombstone: Id, newId: Id, now: int)
    requires ServerOk(s) && |s.log| < MAX_REVISION && item != NO_ID && newId != NO_ID && !Logged(s.log, |s.log|, newId)
    requires r.revisionId in Current(s, item) && Current(s, item)[r.revisionId].revision == r.revision
    requires 1 <= r.revision < MAX_REVISION && 1 <= |r.content| <= MAX_ENVELOPE
    requires Heads(Current(s, item)) == {tombstone} && tombstone != r.revisionId && Current(s, item)[tombstone].purged
    ensures var m := Mutation(newId, r.revision, Sealed(DeleteItem(r), item, newId));
            && Accept(s, m, now) == Ok(Append(s, m, now))
            && Heads(Current(Append(s, m, now), item)) == {tombstone, newId}
            && Trashed(Current(Append(s, m, now), item)[newId]) && Current(Append(s, m, now), item)[tombstone].purged
  {
    var m := Mutation(newId, r.revision, Sealed(DeleteItem(r), item, newId));
    TrashActionsOnServer(s, r, item, newId, DeleteItem(r), now);
    AcceptKeepsServer(s, m, now);
    var t := Append(s, m, now);
    HeadsStep(t.log, |s.log|);
    HistoryPrefix(s.log, t.log, |s.log|, item);
    assert IdSet(m.item.parents) == {r.revisionId};
    HistoryGrows(t.log, |s.log|, |t.log|, item);
    assert tombstone in {tombstone};
  }
}
