/** The cache file of one client. Each method is one operation under the file lock:
    it works on a local copy and writes it back only when everything succeeded. */
module VaultCache {
  import opened Revisions
  import opened RevisionLog
  import opened SyncProtocol
  import opened CacheModel

  // ------------------------------------------------------ reading a cache

  /** None is empty and none repeated. */
  ghost predicate GoodIds(ids: seq<Id>) {
    NO_ID !in ids && forall i, j :: 0 <= i < j < |ids| ==> ids[i] != ids[j]
  }

  method CheckGraph(item: Id, g: Graph) returns (ok: bool)
    ensures ok <==> ValidGraph(item, g)
  {
    if item == NO_ID { return false; }
    var rest := g.Keys;
    while rest != {}
      invariant rest <= g.Keys
      invariant forall x :: x in g.Keys - rest ==> ValidCached(item, x, g[x])
      decreases |rest|
    {
      var x :| x in rest;
      var r := g[x];
      var parentsOk := CheckParents(r.parents);
      if x == NO_ID || r.revisionId != x || r.itemId != item || r.schemaVersion < 1 || r.revision < 1 ||
         !ValidContent(r) || !parentsOk
      {
        return false;
      }
      rest := rest - {x};
    }
    return true;
  }

  /** validateCacheData, clause by clause. */
  method ValidateCacheData(d: CacheData) returns (ok: bool)
    ensures ok <==> ValidCache(d)
    ensures ok <==>
              && d.accountId != NO_ID && NO_ID !in d.restored
              && (forall item :: item in d.revisions ==> item != NO_ID)
              && (forall item, x :: item in d.revisions && x in d.revisions[item] ==>
                    var r := d.revisions[item][x];
                    && x != NO_ID && r.revisionId == x && r.itemId == item && r.schemaVersion >= 1 && r.revision >= 1
                    && (if r.purged then r.deleted && |r.envelope| == 0 else |r.envelope| > 0) && GoodIds(r.parents))
              && forall m :: m in d.mutations ==>
                    && m.mutationId != NO_ID && m.item.revisionId == m.mutationId && m.item.itemId != NO_ID
                    && m.item.revision == m.baseRevision + 1 && (m.baseRevision == 0 <==> m.item.parents == [])
                    && (if m.item.purged then m.item.deleted && |m.item.envelope| == 0 else |m.item.envelope| > 0) && GoodIds(m.item.parents)
  {
    if d.accountId == NO_ID { return false; }
    var rest := d.revisions.Keys;
    while rest != {}
      invariant rest <= d.revisions.Keys
      invariant forall item :: item in d.revisions.Keys - rest ==> ValidGraph(item, d.revisions[item])
      decreases |rest|
    {
      var item :| item in rest;
      var graphOk := CheckGraph(item, d.revisions[item]);
      if !graphOk { return false; }
      rest := rest - {item};
    }
    for j := 0 to |d.mutations|
      invariant forall i :: 0 <= i < j ==> ValidQueued(d.mutations[i])
    {
      var m := d.mutations[j];
      assert m in d.mutations;
      var parentsOk := CheckParents(m.item.parents);
      if m.mutationId == NO_ID || m.item.revisionId != m.mutationId || m.item.revision != m.baseRevision + 1 ||
         m.item.itemId == NO_ID || !ValidContent(m.item) ||
         (m.baseRevision == 0 && m.item.parents != []) || (m.baseRevision > 0 && m.item.parents == []) || !parentsOk
      {
        return false;
      }
    }
    ok := NO_ID !in d.restored;
  }

  // ---------------------------------------------------- choosing parents

  /** The heads carrying the base number; a single one becomes the parent. */
  method HeadsWithNumber(g: Graph, n: nat) returns (ids: seq<Id>)
    ensures |ids| == |HeadsNumbered(g, n)|
    ensures |ids| == 1 ==> ids[0] == TheOnly(HeadsNumbered(g, n))
  {
    var heads := RevisionHeads(g);
    ids := [];
    for j := 0 to |heads|
      invariant forall x :: x in ids <==> x in heads[..j] && x in g && g[x].revision == n
      invariant Distinct(ids)
    {
      assert heads[..j + 1] == heads[..j] + [heads[j]];
      assert heads[j] in heads && heads[j] in Heads(g);
      if g[heads[j]].revision == n { ids := ids + [heads[j]]; }
    }
    assert heads[..|heads|] == heads;
    assert IdSet(ids) == HeadsNumbered(g, n);
    DistinctSize(ids);
    if |ids| == 1 { assert TheOnly(HeadsNumbered(g, n)) in ids; }
  }

  /** The duplicate, existence and highest-number checks over the parents. */
  method CheckLocalParents(g: Graph, ps: seq<Id>, base: nat) returns (ok: bool)
    ensures ok <==> Distinct(ps) && ParentsIn(g, ps) && MaxRevision(g, ps) == base
  {
    var highest: nat := 0;
    var seen: set<Id> := {};
    for j := 0 to |ps|
      invariant seen == IdSet(ps[..j]) && Distinct(ps[..j]) && ParentsIn(g, ps[..j])
      invariant forall p :: p in ps[..j] ==> g[p].revision <= highest
      invariant highest == 0 || exists p :: p in ps[..j] && g[p].revision == highest
    {
      assert ps[..j + 1] == ps[..j] + [ps[j]];
      if ps[j] !in g || ps[j] in seen {
        assert ps[j] in ps;
        return false;
      }
      seen := seen + {ps[j]};
      if highest < g[ps[j]].revision { highest := g[ps[j]].revision; }
    }
    assert ps[..|ps|] == ps;
    assert highest == MaxRevision(g, ps);
    ok := highest == base;
  }

  /** QueueMutation's decision: the revision with its final parents, or a conflict. */
  method Prepare(g: Graph, r: Revision, base: nat) returns (p: Option<Revision>)
    ensures p == Prepared(g, r, base)
  {
    if base == 0 {
      return if g == map[] && r.parents == [] then Some(r) else None;
    }
    var ps := r.parents;
    if ps == [] {
      ps := HeadsWithNumber(g, base);
      if |ps| != 1 { return None; }
      assert ps == [TheOnly(HeadsNumbered(g, base))];
    }
    ghost var given := ps;
    ps := SortIds(ps);
    SortKeepsParents(given);
    if r.parents == [] { SortedIsFixed(given); }
    assert ps == ChosenParents(g, r, base) && ps != [];
    var ok := CheckLocalParents(g, ps, base);
    p := if ok then Some(r.(parents := ps)) else None;
  }

  class Cache {
    const accountId: Id
    var revisions: map<Id, Graph>
    var mutations: seq<Mutation>
    var cursor: Option<nat>
    var restored: seq<Id>

    function Data(): CacheData
      reads this
    {
      CacheData(accountId, revisions, mutations, cursor, restored)
    }

    ghost predicate Valid()
      reads this
    {
      ValidCache(Data())
    }

    constructor Authorize(account: Id)
      requires account != NO_ID
      ensures Valid() && Data() == CacheData(account, map[], [], None, [])
    {
      accountId := account;
      revisions, mutations, cursor, restored := map[], [], None, [];
    }

    /** Queues one revision; freshId is used when the caller names none. */
    method QueueMutation(item: Revision, base: nat, freshId: Id) returns (r: Result<Mutation, CacheError>)
      requires Valid() && freshId != NO_ID
      modifies this
      ensures Valid()
      ensures match Queue(old(Data()), if item.revisionId == NO_ID then item.(revisionId := freshId) else item, base)
              case Ok(d) => Data() == d && mutations != [] && r == Ok(mutations[|mutations| - 1])
              case Err(e) => r == Err(e) && Data() == old(Data())
    {
      if item.itemId == NO_ID || item.schemaVersion < 1 || item.revision == 0 ||
         item.revision != base + 1 || !ValidContent(item)
      {
        return Err(InvalidEnvelope);
      }
      var named := if item.revisionId == NO_ID then item.(revisionId := freshId) else item;
      var g := GraphOf(revisions, item.itemId);
      var prepared := Prepare(g, named, base);
      match prepared {
        case None => return Err(LocalConflict);
        case Some(p) =>
          if p.revisionId in g { return Err(RevisionIdExists); }
          QueueKeepsValid(Data(), named, base);
          var m := Mutation(p.revisionId, base, p);
          revisions := revisions[p.itemId := if p.purged then map[p.revisionId := p] else g[p.revisionId := p]];
          mutations := mutations + [m];
          r := Ok(m);
      }
    }

    /** Queues an import atomically, all of it or nothing, and returns what was queued. */
    method QueueMutations(items: seq<Revision>, ids: seq<Id>, fingerprint: Id) returns (r: Result<seq<Mutation>, CacheError>)
      requires Valid() && |items| == |ids| && NO_ID !in ids
      modifies this
      ensures Valid()
      ensures r.Err? ==> Data() == old(Data())
      ensures (exists j :: 0 <= j < |items| && !ValidImport(items[j])) ==> r == Err(InvalidEnvelope)
      ensures r.Ok? ==> forall x :: x in items ==>
                && x.itemId != NO_ID && x.schemaVersion >= 1 && x.revision == 1 && x.parents == []
                && (if x.purged then x.deleted && |x.envelope| == 0 else |x.envelope| > 0)
      ensures (forall j :: 0 <= j < |items| ==> ValidImport(items[j])) ==>
                match Import(old(Data()), Named(items, ids), |items|)
                case Ok(d) =>
                  && r.Ok? && d.mutations == old(mutations) + r.value
                  && Data() == d.(restored := Marked(d.restored, fingerprint))
                case Err(e) => r == Err(e)
    {
      for j := 0 to |items|
        invariant forall i :: 0 <= i < j ==> ValidImport(items[i])
      {
        var x := items[j];
        if x.itemId == NO_ID || x.schemaVersion < 1 || x.revision != 1 || x.parents != [] || !ValidContent(x) {
          return Err(InvalidEnvelope);
        }
      }
      var prepared := Named(items, ids);
      assert forall j :: 0 <= j < |prepared| ==> prepared[j].revisionId != NO_ID && ValidImport(prepared[j]) by {
        assert forall j :: 0 <= j < |ids| ==> ids[j] in ids;
      }
      var imported := ImportAll(Data(), prepared);
      if imported.Err? { return Err(imported.error); }
      var data := imported.value;
      ImportKeepsValid(Data(), prepared, |prepared|);
      ImportCachesEverything(Data(), prepared, |prepared|);
      var queued := data.mutations[|mutations|..];
      revisions, mutations, cursor, restored := data.revisions, data.mutations, data.cursor, Marked(data.restored, fingerprint);
      r := Ok(queued);
    }

    /** The request of an exchange: cursor and queue as they are now. */
    method SyncSnapshot() returns (at: Option<nat>, queue: seq<Mutation>)
      ensures at == cursor && queue == mutations
    {
      at, queue := cursor, mutations;
    }

    /** Applies the server's answer atomically; a refused answer changes nothing. */
    method ApplySyncResult(result: Reply) returns (r: Result<bool, CacheError>)
      requires Valid()
      modifies this
      ensures Valid() <==> r.Err? || StaysValid(old(Data()), result)
      ensures match ApplyReply(old(Data()), result)
              case Ok(d) => r.Ok? && Data() == d
              case Err(e) => r == Err(e) && Data() == old(Data())
    {
      if result.cursor > MAX_REVISION { return Err(BadCursor); }
      if NO_ID in result.applied { return Err(BadMutationId); }
      var wellFormed := CheckChanges(result.changes);
      if !wellFormed { return Err(InvalidEnvelope); }
      var pending := RemoveAcknowledged(mutations, result.applied);
      var graphs := revisions;
      if result.full {
        graphs := RebuildFromQueue(pending);
      }
      var applied := ApplyAll(graphs, pending, result.changes);
      if applied.Err? { return Err(applied.error); }
      ApplyReplyValidity(Data(), result);
      revisions, mutations, cursor := applied.value, pending, Some(result.cursor);
      r := Ok(true);
    }

    /** Fills an empty cache of the same account with a backed-up state. */
    method RestorePortableState(b: Backup) returns (r: Result<bool, CacheError>)
      requires Valid()
      modifies this
      ensures Valid()
      ensures match RestoreState(old(Data()), b)
              case Ok(d) => r.Ok? && Data() == d
              case Err(e) => r == Err(e) && Data() == old(Data())
    {
      if b.accountId == NO_ID { return Err(InvalidBackup); }
      if accountId != b.accountId { return Err(AccountMismatch); }
      if revisions != map[] || mutations != [] || cursor != None { return Err(NotEmpty); }
      var replacement := CacheData(accountId, b.revisions, b.mutations, b.cursor, Marked(restored, b.fingerprint));
      var ok := ValidateCacheData(replacement);
      if !ok { return Err(InvalidBackup); }
      revisions, mutations, cursor, restored := replacement.revisions, replacement.mutations, replacement.cursor, replacement.restored;
      r := Ok(true);
    }

    /** The heads of every cached item, by item and revision; an item without a head
        would be skipped. */
    method AllItemHeads() returns (groups: seq<ItemHead>)
      ensures Grouped(revisions, revisions.Keys, groups)
    {
      var items := Ordered(revisions.Keys);
      groups := [];
      for i := 0 to |items|
        invariant Grouped(revisions, IdSet(items[..i]), groups)
      {
        NextInOrder(items, i);
        assert items[i] in items;
        var heads := RevisionHeads(revisions[items[i]]);
        GroupedNext(revisions, IdSet(items[..i]), groups, items[i], heads);
        if heads != [] {
          groups := groups + [ItemHead(items[i], heads)];
        }
      }
      assert items[..|items|] == items && IdSet(items) == revisions.Keys;
    }
  }

  datatype ItemHead = ItemHead(itemId: Id, heads: seq<Id>)

  predicate Listed(groups: seq<ItemHead>, item: Id) {
    exists j :: 0 <= j < |groups| && groups[j].itemId == item
  }

  /** One group for every one of the items that has a head, in the order of the items,
      with the heads in order and each once. */
  ghost predicate Grouped(revisions: map<Id, Graph>, items: set<Id>, groups: seq<ItemHead>) {
    && (forall item :: Listed(groups, item) <==> item in items && item in revisions && Heads(revisions[item]) != {})
    && (forall j :: 0 <= j < |groups| ==>
          && groups[j].itemId in items && groups[j].itemId in revisions
          && Sorted(groups[j].heads) && Distinct(groups[j].heads)
          && IdSet(groups[j].heads) == Heads(revisions[groups[j].itemId]))
    && (forall i, j :: 0 <= i < j < |groups| ==> groups[i].itemId < groups[j].itemId)
  }

  lemma {:induction false} ListedNext(groups: seq<ItemHead>, g: ItemHead)
    ensures forall item :: Listed(groups + [g], item) <==> Listed(groups, item) || item == g.itemId
  {
    var more := groups + [g];
    forall item | Listed(groups, item) || item == g.itemId ensures Listed(more, item) {
      if item == g.itemId {
        assert more[|groups|].itemId == item;
      } else {
        var j :| 0 <= j < |groups| && groups[j].itemId == item;
        assert more[j].itemId == item;
      }
    }
  }

  lemma {:induction false} GroupedMore(revisions: map<Id, Graph>, items: set<Id>, groups: seq<ItemHead>, g: ItemHead)
    requires Grouped(revisions, items, groups) && g.itemId in revisions && forall x :: x in items ==> x < g.itemId
    requires Sorted(g.heads) && Distinct(g.heads) && g.heads != [] && IdSet(g.heads) == Heads(revisions[g.itemId])
    ensures Grouped(revisions, items + {g.itemId}, groups + [g])
  {
    ListedNext(groups, g);
    assert g.heads[0] in Heads(revisions[g.itemId]);
    var more := groups + [g];
    forall j | 0 <= j < |more| ensures more[j] == if j < |groups| then groups[j] else g {}
  }

  lemma {:induction false} GroupedNext(revisions: map<Id, Graph>, items: set<Id>, groups: seq<ItemHead>, item: Id, heads: seq<Id>)
    requires Grouped(revisions, items, groups) && item in revisions && forall x :: x in items ==> x < item
    requires (forall x :: x in heads <==> x in Heads(revisions[item])) && Sorted(heads) && Distinct(heads)
    ensures Grouped(revisions, items + {item}, if heads == [] then groups else groups + [ItemHead(item, heads)])
  {
    assert IdSet(heads) == Heads(revisions[item]);
    if heads != [] { GroupedMore(revisions, items, groups, ItemHead(item, heads)); }
  }

  // ------------------------------------------------- loops of ApplySyncResult

  lemma {:induction false} ImportStops(d: CacheData, items: seq<Revision>, m: nat, n: nat)
    requires m <= n <= |items| && Import(d, items, m).Err?
    ensures Import(d, items, n) == Import(d, items, m)
    decreases n
  {
    if m < n { ImportStops(d, items, m, n - 1); }
  }

  lemma {:induction false} ChangesStop(graphs: map<Id, Graph>, ms: seq<Mutation>, cs: seq<Revision>, m: nat, n: nat)
    requires m <= n <= |cs| && ApplyChanges(graphs, ms, cs, m).Err?
    ensures ApplyChanges(graphs, ms, cs, n) == ApplyChanges(graphs, ms, cs, m)
    decreases n
  {
    if m < n { ChangesStop(graphs, ms, cs, m, n - 1); }
  }

  method RemoveAcknowledged(ms: seq<Mutation>, applied: seq<Id>) returns (pending: seq<Mutation>)
    ensures pending == Unacknowledged(ms, applied)
    ensures forall m :: m in pending <==> m in ms && m.mutationId !in applied
  {
    pending := [];
    for j := 0 to |ms|
      invariant pending == Unacknowledged(ms[..j], applied)
    {
      assert ms[..j + 1][..j] == ms[..j];
      if ms[j].mutationId !in applied { pending := pending + [ms[j]]; }
    }
    assert ms[..|ms|] == ms;
    UnacknowledgedMembers(ms, applied);
  }

  method RebuildFromQueue(ms: seq<Mutation>) returns (graphs: map<Id, Graph>)
    ensures graphs == Rebuilt(ms, |ms|)
  {
    graphs := map[];
    for j := 0 to |ms|
      invariant graphs == Rebuilt(ms, j)
    {
      var r := ms[j].item;
      graphs := graphs[r.itemId := GraphOf(graphs, r.itemId)[r.revisionId := r]];
    }
  }

  method CheckChanges(changes: seq<Revision>) returns (ok: bool)
    ensures ok <==> forall c :: c in changes ==> ValidChange(c)
  {
    for j := 0 to |changes|
      invariant forall i :: 0 <= i < j ==> ValidChange(changes[i])
    {
      var c := changes[j];
      assert c in changes;
      var parentsOk := CheckParents(c.parents);
      if c.itemId == NO_ID || c.schemaVersion < 1 || c.revision < 1 || c.revisionId == NO_ID ||
         !ValidContent(c) || !parentsOk
      {
        return false;
      }
    }
    return true;
  }

  method ApplyOne(graphs: map<Id, Graph>, pending: seq<Mutation>, c: Revision) returns (r: Result<map<Id, Graph>, CacheError>)
    ensures r == ApplyChange(graphs, pending, c)
  {
    var g := GraphOf(graphs, c.itemId);
    if c.revisionId in g && !SameRevision(g[c.revisionId], c) {
      return Err(InvalidEnvelope);
    }
    if c.purged {
      var preserved := PreserveForTombstone(g, pending, c);
      r := Ok(graphs[c.itemId := preserved]);
    } else {
      r := Ok(graphs[c.itemId := g[c.revisionId := c]]);
    }
  }

  method ApplyAll(start: map<Id, Graph>, pending: seq<Mutation>, changes: seq<Revision>) returns (r: Result<map<Id, Graph>, CacheError>)
    ensures r == ApplyChanges(start, pending, changes, |changes|)
  {
    r := Ok(start);
    for j := 0 to |changes|
      invariant r.Ok? && r == ApplyChanges(start, pending, changes, j)
    {
      r := ApplyOne(r.value, pending, changes[j]);
      if r.Err? {
        ChangesStop(start, pending, changes, j + 1, |changes|);
        return;
      }
    }
  }

  method ImportAll(d: CacheData, items: seq<Revision>) returns (r: Result<CacheData, CacheError>)
    ensures r == Import(d, items, |items|)
    ensures r.Ok? ==> r.value.accountId == d.accountId
  {
    var data := d;
    for j := 0 to |items|
      invariant Import(d, items, j) == Ok(data) && data.accountId == d.accountId
    {
      var x := items[j];
      var g := GraphOf(data.revisions, x.itemId);
      if x.revisionId in g {
        if !SameRevision(g[x.revisionId], x) {
          ImportStops(d, items, j + 1, |items|);
          return Err(RevisionIdExists);
        }
      } else if g != map[] {
        ImportStops(d, items, j + 1, |items|);
        return Err(LocalConflict);
      } else {
        data := data.(revisions := data.revisions[x.itemId := map[x.revisionId := x]],
                      mutations := data.mutations + [Mutation(x.revisionId, 0, x)]);
      }
    }
    r := Ok(data);
  }

  method CollectLiveHeads(g: Graph) returns (live: Graph)
    ensures live == LiveHeads(g)
  {
    var heads := RevisionHeads(g);
    live := map[];
    for j := 0 to |heads|
      invariant forall x :: x in live <==> x in heads[..j] && x in g && !g[x].deleted
      invariant forall x :: x in live ==> live[x] == g[x]
    {
      assert heads[..j + 1] == heads[..j] + [heads[j]];
      assert heads[j] in heads && heads[j] in Heads(g);
      if !g[heads[j]].deleted { live := live[heads[j] := g[heads[j]]]; }
    }
    assert heads[..|heads|] == heads;
    assert forall x :: x in live <==> x in LiveHeads(g);
  }

  /** The tombstone, over it the live heads, over them what is queued. */
  method PreserveForTombstone(g: Graph, ms: seq<Mutation>, t: Revision) returns (preserved: Graph)
    ensures preserved == Preserved(g, ms, t)
  {
    var live := CollectLiveHeads(g);
    preserved := map[t.revisionId := t] + live;
    ghost var base := preserved;
    for j := 0 to |ms|
      invariant preserved == WithQueued(base, ms, j, t.itemId)
    {
      if ms[j].item.itemId == t.itemId { preserved := preserved[ms[j].item.revisionId := ms[j].item]; }
    }
  }
}
