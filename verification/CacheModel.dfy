/** The encrypted cache of one client as a value: what each cache operation does to
    the cached graph, the mutation queue and the cursor. */
module CacheModel {
  import opened Revisions
  import opened RevisionLog
  import opened SyncProtocol

  datatype CacheData = CacheData(
    accountId: Id,
    revisions: map<Id, Graph>,
    mutations: seq<Mutation>,
    cursor: Option<nat>,
    restored: seq<Id>)

  datatype CacheError =
    | InvalidEnvelope | LocalConflict | RevisionIdExists | BadCursor | BadMutationId
    | NotEmpty | AccountMismatch | InvalidBackup

  function GraphOf(revisions: map<Id, Graph>, item: Id): Graph {
    if item in revisions then revisions[item] else map[]
  }

  // --------------------------------------------------------------- validity

  predicate ValidCached(item: Id, x: Id, r: Revision) {
    && x != NO_ID && r.revisionId == x && r.itemId == item && item != NO_ID
    && r.schemaVersion >= 1 && r.revision >= 1
    && ValidContent(r) && ValidParents(r.parents)
  }

  predicate ValidGraph(item: Id, g: Graph) {
    item != NO_ID && forall x :: x in g ==> ValidCached(item, x, g[x])
  }

  predicate ValidQueued(m: Mutation) {
    && m.mutationId != NO_ID && m.item.revisionId == m.mutationId
    && m.item.revision == m.baseRevision + 1 && m.item.itemId != NO_ID
    && ValidContent(m.item)
    && (m.baseRevision == 0 <==> m.item.parents == [])
    && ValidParents(m.item.parents)
  }

  predicate ValidRevisions(revisions: map<Id, Graph>) {
    forall item :: item in revisions ==> ValidGraph(item, revisions[item])
  }

  predicate ValidQueue(ms: seq<Mutation>) {
    forall m :: m in ms ==> ValidQueued(m)
  }

  /** validateCacheData. */
  predicate ValidCache(d: CacheData) {
    d.accountId != NO_ID && ValidRevisions(d.revisions) && ValidQueue(d.mutations) && NO_ID !in d.restored
  }

  // ---------------------------------------------------------------- queueing

  predicate ValidNew(r: Revision, base: nat) {
    && r.itemId != NO_ID && r.schemaVersion >= 1
    && r.revision != 0 && r.revision == base + 1 && ValidContent(r)
  }

  function HeadsNumbered(g: Graph, n: nat): set<Id> {
    set x | x in Heads(g) && g[x].revision == n
  }

  ghost function TheOnly(s: set<Id>): (x: Id)
    requires |s| == 1
    ensures x in s
  {
    var x :| x in s; x
  }

  /** The parents of a new revision: those given, sorted, or the one head that
      carries the base number. */
  ghost function ChosenParents(g: Graph, r: Revision, base: nat): seq<Id> {
    if r.parents != [] then SortIds(r.parents)
    else if |HeadsNumbered(g, base)| == 1 then [TheOnly(HeadsNumbered(g, base))]
    else []
  }

  predicate GoodParents(g: Graph, ps: seq<Id>, base: nat) {
    ps != [] && Distinct(ps) && ParentsIn(g, ps) && MaxRevision(g, ps) == base
  }

  /** The revision that would be queued, or None when it conflicts locally. */
  ghost function Prepared(g: Graph, r: Revision, base: nat): Option<Revision> {
    if base == 0 then
      if g == map[] && r.parents == [] then Some(r) else None
    else
      var ps := ChosenParents(g, r, base);
      if GoodParents(g, ps, base) then Some(r.(parents := ps)) else None
  }

  /** A locally queued purge drops every other cached revision of its item. */
  function GraphWithQueued(g: Graph, r: Revision): Graph {
    if r.purged then map[r.revisionId := r] else g[r.revisionId := r]
  }

  ghost function Queue(d: CacheData, r: Revision, base: nat): Result<CacheData, CacheError> {
    if !ValidNew(r, base) then Err(InvalidEnvelope) else
      var g := GraphOf(d.revisions, r.itemId);
      match Prepared(g, r, base)
      case None => Err(LocalConflict)
      case Some(p) =>
        if p.revisionId in g then Err(RevisionIdExists) else
          Ok(d.(revisions := d.revisions[p.itemId := GraphWithQueued(g, p)],
                mutations := d.mutations + [Mutation(p.revisionId, base, p)]))
  }

  /** What preparing adds: sorted, distinct, cached parents with the base number. */
  lemma {:induction false} PreparedFacts(g: Graph, r: Revision, base: nat)
    requires Prepared(g, r, base).Some?
    ensures var p := Prepared(g, r, base).value;
            && p == r.(parents := p.parents) && Sorted(p.parents) && Distinct(p.parents)
            && (base == 0 <==> p.parents == [])
            && ParentsIn(g, p.parents) && MaxRevision(g, p.parents) == base
  {
    SortKeepsParents(r.parents);
  }

  /** Good parents given by the caller are kept, in sorted order. */
  lemma {:induction false} PreparedGiven(g: Graph, r: Revision, base: nat)
    requires base > 0 && r.parents != [] && Distinct(r.parents) && ParentsIn(g, r.parents) && MaxRevision(g, r.parents) == base
    ensures Prepared(g, r, base) == Some(r.(parents := SortIds(r.parents)))
  {
    SortKeepsParents(r.parents);
    MaxRevisionOfPermutation(g, r.parents, SortIds(r.parents));
  }

  /** Head h alone carries the number. */
  ghost predicate OnlyHead(g: Graph, h: Id, number: nat) {
    && h in Heads(g) && g[h].revision == number
    && forall x :: x in Heads(g) && g[x].revision == number ==> x == h
  }

  lemma {:induction false} LoneHead(g: Graph, number: nat)
    ensures |HeadsNumbered(g, number)| == 1 <==> exists h: Id :: OnlyHead(g, h, number)
    ensures forall h: Id :: OnlyHead(g, h, number) ==> HeadsNumbered(g, number) == {h}
  {
    var s := HeadsNumbered(g, number);
    if |s| == 1 {
      var h := TheOnly(s);
      assert |s - {h}| == 0;
      assert s == {h};
      forall x | x in Heads(g) && g[x].revision == number ensures x == h { assert x in s; }
      assert OnlyHead(g, h, number);
    }
    forall h: Id | OnlyHead(g, h, number) ensures s == {h} {
      assert h in s;
    }
  }

  /** Distinct cached parents, the highest of which has the number. */
  ghost predicate ParentsCarry(g: Graph, ps: seq<Id>, number: nat) {
    && (forall i, j :: 0 <= i < j < |ps| ==> ps[i] != ps[j]) && (forall p :: p in ps ==> p in g && g[p].revision <= number)
    && exists p :: p in ps && p in g && g[p].revision == number
  }

  /** A creation of an item of which nothing is cached; or parents, given or the one head
      with the base number when none are given. */
  ghost predicate HasItsParents(g: Graph, r: Revision, base: nat) {
    if base == 0 then g == map[] && r.parents == []
    else if r.parents == [] then exists h: Id :: OnlyHead(g, h, base)
    else ParentsCarry(g, r.parents, base)
  }

  lemma {:induction false} PreparedOutcome(g: Graph, r: Revision, base: nat)
    ensures Prepared(g, r, base).Some? <==> HasItsParents(g, r, base)
    ensures Prepared(g, r, base).Some? ==>
              var p := Prepared(g, r, base).value;
              && p == r.(parents := p.parents) && Sorted(p.parents)
              && (if r.parents != [] || base == 0 then multiset(p.parents) == multiset(r.parents)
                  else |p.parents| == 1 && OnlyHead(g, p.parents[0], base))
  {
    LoneHead(g, base);
    if base > 0 {
      if r.parents == [] {
        if h: Id :| OnlyHead(g, h, base) { assert ChosenParents(g, r, base) == [h]; }
      } else {
        GivenOutcome(g, r, base);
      }
    }
  }

  lemma {:induction false} GivenOutcome(g: Graph, r: Revision, base: nat)
    requires base > 0 && r.parents != []
    ensures Prepared(g, r, base).Some? <==> ParentsCarry(g, r.parents, base)
    ensures Prepared(g, r, base).Some? ==> Prepared(g, r, base).value == r.(parents := SortIds(r.parents))
    ensures Sorted(SortIds(r.parents)) && multiset(SortIds(r.parents)) == multiset(r.parents)
  {
    var ps := SortIds(r.parents);
    SortSorts(r.parents);
    SortKeepsParents(r.parents);
    if ParentsIn(g, ps) {
      var top := MaxRevision(g, ps);
      assert forall p :: p in ps ==> g[p].revision <= top;
      assert ps != [] ==> exists p :: p in ps && g[p].revision == top;
    }
  }

  /** When queueing works, for every cache: a sound revision with its parents and an unused
      id. */
  lemma {:induction false} QueueOutcome(d: CacheData, r: Revision, base: nat)
    ensures var g := GraphOf(d.revisions, r.itemId);
            Queue(d, r, base).Ok? <==>
              && r.itemId != NO_ID && r.schemaVersion >= 1 && r.revision == base + 1
              && (if r.purged then r.deleted && |r.envelope| == 0 else |r.envelope| > 0)
              && HasItsParents(g, r, base) && r.revisionId !in g
  {
    var g := GraphOf(d.revisions, r.itemId);
    PreparedOutcome(g, r, base);
    match Prepared(g, r, base)
    case None =>
    case Some(p) => assert p.revisionId == r.revisionId;
  }

  /** And what it does: the revision, with those parents, is queued last and cached, alone
      if it is a purge; nothing else changes. */
  lemma {:induction false} QueueEffect(d: CacheData, r: Revision, base: nat)
    requires Queue(d, r, base).Ok?
    ensures var e := Queue(d, r, base).value; var g := GraphOf(d.revisions, r.itemId); var h := GraphOf(e.revisions, r.itemId);
            && e.accountId == d.accountId && e.cursor == d.cursor && e.restored == d.restored
            && |e.mutations| == |d.mutations| + 1 && e.mutations[..|d.mutations|] == d.mutations
            && r.revisionId in h && e.mutations[|d.mutations|] == Mutation(r.revisionId, base, h[r.revisionId])
            && h[r.revisionId].(parents := []) == r.(parents := []) && Sorted(h[r.revisionId].parents)
            && (if r.parents != [] || base == 0 then multiset(h[r.revisionId].parents) == multiset(r.parents)
                else |h[r.revisionId].parents| == 1 && OnlyHead(g, h[r.revisionId].parents[0], base))
            && h == (if r.purged then map[] else g)[r.revisionId := h[r.revisionId]]
            && forall item :: item != r.itemId ==> GraphOf(e.revisions, item) == GraphOf(d.revisions, item)
  {
    PreparedOutcome(GraphOf(d.revisions, r.itemId), r, base);
  }

  lemma {:induction false} QueuedGraphIsValid(g: Graph, p: Revision)
    requires ValidGraph(p.itemId, g) && ValidCached(p.itemId, p.revisionId, p)
    ensures ValidGraph(p.itemId, GraphWithQueued(g, p))
  {
    forall x | x in GraphWithQueued(g, p) ensures ValidCached(p.itemId, x, GraphWithQueued(g, p)[x]) {
      assert x == p.revisionId || (x in g && GraphWithQueued(g, p)[x] == g[x]);
    }
  }

  lemma {:induction false} PreparedIsValid(g: Graph, r: Revision, base: nat)
    requires ValidGraph(r.itemId, g) && ValidNew(r, base) && r.revisionId != NO_ID && Prepared(g, r, base).Some?
    ensures var p := Prepared(g, r, base).value;
            && ValidCached(r.itemId, p.revisionId, p) && ValidQueued(Mutation(p.revisionId, base, p))
            && ValidGraph(r.itemId, GraphWithQueued(g, p))
  {
    PreparedFacts(g, r, base);
    QueuedGraphIsValid(g, Prepared(g, r, base).value);
  }

  lemma {:induction false} QueueKeepsValid(d: CacheData, r: Revision, base: nat)
    requires ValidCache(d) && r.revisionId != NO_ID && Queue(d, r, base).Ok?
    ensures ValidCache(Queue(d, r, base).value)
  {
    PreparedIsValid(GraphOf(d.revisions, r.itemId), r, base);
  }

  // ------------------------------------------------------- applying a reply

  predicate ValidChange(c: Revision) {
    && c.itemId != NO_ID && c.schemaVersion >= 1 && c.revision >= 1 && c.revisionId != NO_ID
    && ValidContent(c) && ValidParents(c.parents)
  }

  predicate ValidReply(r: Reply) {
    r.cursor <= MAX_REVISION && NO_ID !in r.applied && forall c :: c in r.changes ==> ValidChange(c)
  }

  function Unacknowledged(ms: seq<Mutation>, applied: seq<Id>): seq<Mutation> {
    if ms == [] then [] else
      var before := Unacknowledged(ms[..|ms| - 1], applied);
      if ms[|ms| - 1].mutationId in applied then before else before + [ms[|ms| - 1]]
  }

  lemma {:induction false} UnacknowledgedMembers(ms: seq<Mutation>, applied: seq<Id>)
    ensures forall m :: m in Unacknowledged(ms, applied) <==> m in ms && m.mutationId !in applied
  {
    if ms != [] {
      UnacknowledgedMembers(ms[..|ms| - 1], applied);
      assert ms == ms[..|ms| - 1] + [ms[|ms| - 1]];
    }
  }

  /** g with the first n queued revisions of the item added over it. */
  function WithQueued(g: Graph, ms: seq<Mutation>, n: nat, item: Id): Graph
    requires n <= |ms|
  {
    if n == 0 then g else
      var before := WithQueued(g, ms, n - 1, item);
      var r := ms[n - 1].item;
      if r.itemId == item then before[r.revisionId := r] else before
  }

  /** The graphs of the first n queued revisions alone. */
  function Rebuilt(ms: seq<Mutation>, n: nat): map<Id, Graph>
    requires n <= |ms|
  {
    if n == 0 then map[] else
      var before := Rebuilt(ms, n - 1);
      var r := ms[n - 1].item;
      before[r.itemId := GraphOf(before, r.itemId)[r.revisionId := r]]
  }

  function LiveHeads(g: Graph): Graph {
    map x | x in g && !Referenced(g, x) && !g[x].deleted :: g[x]
  }

  /** What a tombstone leaves of the cached graph: itself, the live heads, and
      whatever is still queued for the item. */
  function Preserved(g: Graph, ms: seq<Mutation>, t: Revision): Graph {
    WithQueued(map[t.revisionId := t] + LiveHeads(g), ms, |ms|, t.itemId)
  }

  function ApplyChange(revisions: map<Id, Graph>, ms: seq<Mutation>, c: Revision): Result<map<Id, Graph>, CacheError> {
    var g := GraphOf(revisions, c.itemId);
    if c.revisionId in g && !SameRevision(g[c.revisionId], c) then Err(InvalidEnvelope)
    else Ok(revisions[c.itemId := if c.purged then Preserved(g, ms, c) else g[c.revisionId := c]])
  }

  function ApplyChanges(revisions: map<Id, Graph>, ms: seq<Mutation>, cs: seq<Revision>, n: nat): Result<map<Id, Graph>, CacheError>
    requires n <= |cs|
  {
    if n == 0 then Ok(revisions) else
      match ApplyChanges(revisions, ms, cs, n - 1)
      case Ok(before) => ApplyChange(before, ms, cs[n - 1])
      case Err(e) => Err(e)
  }

  function StartingGraphs(d: CacheData, pending: seq<Mutation>, full: bool): map<Id, Graph> {
    if full then Rebuilt(pending, |pending|) else d.revisions
  }

  function ApplyReply(d: CacheData, r: Reply): Result<CacheData, CacheError> {
    if r.cursor > MAX_REVISION then Err(BadCursor)
    else if NO_ID in r.applied then Err(BadMutationId)
    else if !ValidReply(r) then Err(InvalidEnvelope)
    else
      var pending := Unacknowledged(d.mutations, r.applied);
      match ApplyChanges(StartingGraphs(d, pending, r.full), pending, r.changes, |r.changes|)
      case Err(e) => Err(e)
      case Ok(graphs) => Ok(d.(revisions := graphs, mutations := pending, cursor := Some(r.cursor)))
  }

  lemma {:induction false} QueuedGraph(ms: seq<Mutation>, n: nat, item: Id)
    requires n <= |ms|
    ensures GraphOf(Rebuilt(ms, n), item) == WithQueued(map[], ms, n, item)
  {
    if n > 0 { QueuedGraph(ms, n - 1, item); }
  }

  /** Queued revisions are laid over whatever graph they are added to. */
  lemma {:induction false} QueuedOverGraph(g: Graph, ms: seq<Mutation>, n: nat, item: Id)
    requires n <= |ms|
    ensures WithQueued(g, ms, n, item) == g + WithQueued(map[], ms, n, item)
  {
    if n > 0 { QueuedOverGraph(g, ms, n - 1, item); }
  }

  // ------------------------------------------------------ validity is kept

  /** The queued revisions of the item, as a graph. */
  function QueueGraph(ms: seq<Mutation>, item: Id): Graph {
    WithQueued(map[], ms, |ms|, item)
  }

  /** The reader checks everything about a queued revision but its schema version. */
  predicate Versioned(g: Graph) {
    forall x :: x in g ==> g[x].schemaVersion >= 1
  }

  /** Whether the first n changes lay the queue over the cached graph of the item. */
  predicate Relaid(full: bool, cs: seq<Revision>, n: nat, item: Id)
    requires n <= |cs|
  {
    full || exists j :: 0 <= j < n && cs[j].purged && cs[j].itemId == item
  }

  /** A queued revision without a schema version has got into the graph. */
  ghost predicate Tainted(g: Graph, q: Graph) {
    exists x :: x in q && x in g && g[x] == q[x] && q[x].schemaVersion < 1
  }

  lemma {:induction false} QueueGraphIsCached(ms: seq<Mutation>, n: nat, item: Id)
    requires ValidQueue(ms) && n <= |ms|
    ensures forall x :: x in WithQueued(map[], ms, n, item) ==>
              var r := WithQueued(map[], ms, n, item)[x];
              item != NO_ID && (r.schemaVersion >= 1 ==> ValidCached(item, x, r))
  {
    if n > 0 {
      QueueGraphIsCached(ms, n - 1, item);
      assert ValidQueued(ms[n - 1]);
    }
  }

  /** The graph an answer starts from, item by item: valid, or tainted. */
  lemma {:induction false} StartIsValidOrTainted(d: CacheData, pending: seq<Mutation>, full: bool, item: Id)
    requires ValidCache(d) && ValidQueue(pending)
    ensures var g, q := GraphOf(StartingGraphs(d, pending, full), item), QueueGraph(pending, item);
            if full && !Versioned(q) then Tainted(g, q) else g != map[] ==> ValidGraph(item, g)
  {
    QueuedGraph(pending, |pending|, item);
    QueueGraphIsCached(pending, |pending|, item);
  }

  lemma {:induction false} ChangeKeepsTaint(revisions: map<Id, Graph>, ms: seq<Mutation>, c: Revision, item: Id)
    requires ValidChange(c) && ApplyChange(revisions, ms, c).Ok?
    requires Tainted(GraphOf(revisions, item), QueueGraph(ms, item))
    ensures Tainted(GraphOf(ApplyChange(revisions, ms, c).value, item), QueueGraph(ms, item))
  {
    var g, q := GraphOf(revisions, item), QueueGraph(ms, item);
    var g' := GraphOf(ApplyChange(revisions, ms, c).value, item);
    var x :| x in q && x in g && g[x] == q[x] && q[x].schemaVersion < 1;
    if c.itemId == item {
      if c.purged { QueuedOverGraph(map[c.revisionId := c] + LiveHeads(g), ms, |ms|, item); }
      assert g'[x] == q[x];
    }
  }

  lemma {:induction false} PurgeTaints(revisions: map<Id, Graph>, ms: seq<Mutation>, c: Revision)
    requires c.purged && ApplyChange(revisions, ms, c).Ok? && !Versioned(QueueGraph(ms, c.itemId))
    ensures Tainted(GraphOf(ApplyChange(revisions, ms, c).value, c.itemId), QueueGraph(ms, c.itemId))
  {
    var g, q := GraphOf(revisions, c.itemId), QueueGraph(ms, c.itemId);
    QueuedOverGraph(map[c.revisionId := c] + LiveHeads(g), ms, |ms|, c.itemId);
    var x :| x in q && q[x].schemaVersion < 1;
    assert x in Preserved(g, ms, c) && Preserved(g, ms, c)[x] == q[x];
  }

  lemma {:induction false} ChangeKeepsValid(revisions: map<Id, Graph>, ms: seq<Mutation>, c: Revision)
    requires GraphOf(revisions, c.itemId) != map[] ==> ValidGraph(c.itemId, GraphOf(revisions, c.itemId))
    requires ValidChange(c) && ValidQueue(ms) && ApplyChange(revisions, ms, c).Ok?
    requires c.purged ==> Versioned(QueueGraph(ms, c.itemId))
    ensures ValidGraph(c.itemId, GraphOf(ApplyChange(revisions, ms, c).value, c.itemId))
  {
    var g, q := GraphOf(revisions, c.itemId), QueueGraph(ms, c.itemId);
    assert forall x :: x in g ==> ValidCached(c.itemId, x, g[x]);
    if c.purged {
      QueuedOverGraph(map[c.revisionId := c] + LiveHeads(g), ms, |ms|, c.itemId);
      QueueGraphIsCached(ms, |ms|, c.itemId);
    }
  }

  /** After any number of changes the graph of an item is valid, unless the queue
      was laid over it and holds a revision without a schema version. */
  lemma {:induction false} ValidOrTainted(d: CacheData, ms: seq<Mutation>, full: bool, cs: seq<Revision>, n: nat, item: Id)
    requires ValidCache(d) && ValidQueue(ms) && n <= |cs| && forall c :: c in cs ==> ValidChange(c)
    requires ApplyChanges(StartingGraphs(d, ms, full), ms, cs, n).Ok?
    ensures var g, q := GraphOf(ApplyChanges(StartingGraphs(d, ms, full), ms, cs, n).value, item), QueueGraph(ms, item);
            if Relaid(full, cs, n, item) && !Versioned(q) then Tainted(g, q) else g != map[] ==> ValidGraph(item, g)
  {
    if n == 0 {
      StartIsValidOrTainted(d, ms, full, item);
    } else {
      var c, last := cs[n - 1], n - 1;
      var before := ApplyChanges(StartingGraphs(d, ms, full), ms, cs, last).value;
      ValidOrTainted(d, ms, full, cs, last, item);
      if Relaid(full, cs, last, item) && !Versioned(QueueGraph(ms, item)) {
        ChangeKeepsTaint(before, ms, c, item);
      } else if c.itemId == item {
        if c.purged && !Versioned(QueueGraph(ms, item)) {
          PurgeTaints(before, ms, c);
        } else {
          ChangeKeepsValid(before, ms, c);
        }
      }
    }
  }

  lemma {:induction false} ItemsAreNamed(revisions: map<Id, Graph>, ms: seq<Mutation>, cs: seq<Revision>, n: nat)
    requires n <= |cs| && NO_ID !in revisions && (forall c :: c in cs ==> ValidChange(c))
    requires ApplyChanges(revisions, ms, cs, n).Ok?
    ensures NO_ID !in ApplyChanges(revisions, ms, cs, n).value
  {
    if n > 0 {
      ItemsAreNamed(revisions, ms, cs, n - 1);
      assert cs[n - 1] in cs;
    }
  }

  lemma {:induction false} RebuiltItemsAreNamed(ms: seq<Mutation>, n: nat)
    requires n <= |ms| && ValidQueue(ms)
    ensures NO_ID !in Rebuilt(ms, n)
  {
    if n > 0 {
      RebuiltItemsAreNamed(ms, n - 1);
      assert ValidQueued(ms[n - 1]);
    }
  }

  /** Whether the answer leaves a cache that passes validateCacheData. */
  predicate StaysValid(d: CacheData, r: Reply) {
    var pending := Unacknowledged(d.mutations, r.applied);
    forall m :: m in pending && Relaid(r.full, r.changes, |r.changes|, m.item.itemId) ==> Versioned(QueueGraph(pending, m.item.itemId))
  }

  /** Exactly when an applied answer leaves a cache that passes validateCacheData: no revision still queued
      that a snapshot or a tombstone lays over the graph lacks its schema version. */
  lemma {:induction false} ApplyReplyValidity(d: CacheData, r: Reply)
    requires ValidCache(d) && ApplyReply(d, r).Ok?
    ensures ValidCache(ApplyReply(d, r).value) <==> StaysValid(d, r)
  {
    var pending, cs := Unacknowledged(d.mutations, r.applied), r.changes;
    UnacknowledgedMembers(d.mutations, r.applied);
    var start := StartingGraphs(d, pending, r.full);
    var graphs := ApplyChanges(start, pending, cs, |cs|).value;
    RebuiltItemsAreNamed(pending, |pending|);
    ItemsAreNamed(start, pending, cs, |cs|);
    forall item ensures (item in graphs ==> ValidGraph(item, graphs[item]))
                        <==> (Relaid(r.full, cs, |cs|, item) ==> Versioned(QueueGraph(pending, item))) {
      ValidOrTainted(d, pending, r.full, cs, |cs|, item);
    }
    forall item | !Versioned(QueueGraph(pending, item)) ensures exists m :: m in pending && m.item.itemId == item {
      QueuedItemIsThere(pending, |pending|, item);
    }
  }

  lemma {:induction false} QueuedItemIsThere(ms: seq<Mutation>, n: nat, item: Id)
    requires n <= |ms| && WithQueued(map[], ms, n, item) != map[]
    ensures exists m :: m in ms && m.item.itemId == item
  {
    if ms[n - 1].item.itemId == item {
      assert ms[n - 1] in ms;
    } else {
      QueuedItemIsThere(ms, n - 1, item);
    }
  }

  lemma {:induction false} VersionedQueue(ms: seq<Mutation>, n: nat, item: Id)
    requires n <= |ms| && forall m :: m in ms ==> m.item.schemaVersion >= 1
    ensures Versioned(WithQueued(map[], ms, n, item))
  {
    if n > 0 { VersionedQueue(ms, n - 1, item); }
  }

  /** With a queue filled by queueing the cache always passes validateCacheData. */
  lemma {:induction false} ApplyReplyKeepsValid(d: CacheData, r: Reply)
    requires ValidCache(d) && forall m :: m in d.mutations ==> m.item.schemaVersion >= 1
    requires ApplyReply(d, r).Ok?
    ensures ValidCache(ApplyReply(d, r).value)
  {
    var pending := Unacknowledged(d.mutations, r.applied);
    UnacknowledgedMembers(d.mutations, r.applied);
    forall item ensures Versioned(QueueGraph(pending, item)) { VersionedQueue(pending, |pending|, item); }
    ApplyReplyValidity(d, r);
  }

  // ----------------------------------------------- which answers are applied

  /** What a server may send as a change. */
  ghost predicate SoundChange(c: Revision) {
    && c.itemId != NO_ID && c.revisionId != NO_ID && c.schemaVersion >= 1 && c.revision >= 1
    && (if c.purged then c.deleted && |c.envelope| == 0 else |c.envelope| > 0)
    && NO_ID !in c.parents && forall i, j :: 0 <= i < j < |c.parents| ==> c.parents[i] != c.parents[j]
  }

  /** Change j is cached with other content by the time it is applied. */
  ghost predicate Contradicts(start: map<Id, Graph>, ms: seq<Mutation>, cs: seq<Revision>, j: nat)
    requires j < |cs|
  {
    && ApplyChanges(start, ms, cs, j).Ok?
    && var g := GraphOf(ApplyChanges(start, ms, cs, j).value, cs[j].itemId);
    && cs[j].revisionId in g
    && !(g[cs[j].revisionId].(parents := []) == cs[j].(parents := [])
         && multiset(g[cs[j].revisionId].parents) == multiset(cs[j].parents))
  }

  ghost predicate NoneContradicts(start: map<Id, Graph>, ms: seq<Mutation>, cs: seq<Revision>) {
    forall j {:trigger Contradicts(start, ms, cs, j)} :: 0 <= j < |cs| ==> !Contradicts(start, ms, cs, j)
  }

  lemma {:induction false} SameStored(a: Revision, b: Revision)
    ensures SameRevision(a, b) <==> a.(parents := []) == b.(parents := []) && multiset(a.parents) == multiset(b.parents)
  {
    SortSorts(a.parents);
    SortSorts(b.parents);
    if multiset(a.parents) == multiset(b.parents) {
      SortedUnique(SortIds(a.parents), SortIds(b.parents));
      assert |multiset(a.parents)| == |a.parents|;
    }
  }

  lemma {:induction false} ChangesOutcome(start: map<Id, Graph>, ms: seq<Mutation>, cs: seq<Revision>, n: nat)
    requires n <= |cs|
    ensures ApplyChanges(start, ms, cs, n).Ok? <==> forall j {:trigger Contradicts(start, ms, cs, j)} :: 0 <= j < n ==> !Contradicts(start, ms, cs, j)
  {
    if n > 0 {
      ChangesOutcome(start, ms, cs, n - 1);
      if ApplyChanges(start, ms, cs, n - 1).Ok? {
        var g := GraphOf(ApplyChanges(start, ms, cs, n - 1).value, cs[n - 1].itemId);
        if cs[n - 1].revisionId in g { SameStored(g[cs[n - 1].revisionId], cs[n - 1]); }
        assert ApplyChanges(start, ms, cs, n).Ok? <==> !Contradicts(start, ms, cs, n - 1);
      } else {
        var j :| 0 <= j < n - 1 && Contradicts(start, ms, cs, j);
        assert Contradicts(start, ms, cs, j) && j < n;
      }
    }
  }

  /** Exactly which answers are applied: a cursor in range, no empty id, sound changes, none
      of which contradicts what is cached when its turn comes. Then the cursor is the
      answer's and the queue what was not acknowledged. */
  lemma {:induction false} AnswerOutcome(d: CacheData, r: Reply)
    ensures var pending := Unacknowledged(d.mutations, r.applied);
            ApplyReply(d, r).Ok? <==>
              && r.cursor <= 9_223_372_036_854_775_807 && NO_ID !in r.applied
              && (forall c :: c in r.changes ==> SoundChange(c))
              && NoneContradicts(StartingGraphs(d, pending, r.full), pending, r.changes)
    ensures ApplyReply(d, r).Ok? ==>
              var e := ApplyReply(d, r).value;
              && e.accountId == d.accountId && e.restored == d.restored && e.cursor == Some(r.cursor)
              && forall m :: m in e.mutations <==> m in d.mutations && m.mutationId !in r.applied
  {
    var pending := Unacknowledged(d.mutations, r.applied);
    ChangesOutcome(StartingGraphs(d, pending, r.full), pending, r.changes, |r.changes|);
    UnacknowledgedMembers(d.mutations, r.applied);
    forall c ensures ValidChange(c) <==> SoundChange(c) {
      assert |c.envelope| == 0 <==> c.envelope == [];
    }
    assert ValidReply(r) <==> r.cursor <= MAX_REVISION && NO_ID !in r.applied && forall c :: c in r.changes ==> SoundChange(c);
  }

  // ------------------------------------------- cached revisions never change

  lemma {:induction false} ChangesKeepContent(start: map<Id, Graph>, ms: seq<Mutation>, cs: seq<Revision>, n: nat, item: Id, x: Id)
    requires n <= |cs| && ApplyChanges(start, ms, cs, n).Ok? && x in GraphOf(start, item)
    requires forall j :: 0 <= j < n && cs[j].itemId == item ==> !cs[j].purged
    ensures var g := GraphOf(ApplyChanges(start, ms, cs, n).value, item);
            x in g && SameRevision(GraphOf(start, item)[x], g[x])
  {
    if n > 0 {
      ChangesKeepContent(start, ms, cs, n - 1, item, x);
    }
  }

  /** An incremental answer without a tombstone of the item takes no cached revision of it
      away and changes none: a change that contradicts one makes the answer fail. */
  lemma {:induction false} CachedRevisionsNeverChange(d: CacheData, r: Reply, item: Id, x: Id)
    requires ApplyReply(d, r).Ok? && !r.full && x in GraphOf(d.revisions, item)
    requires forall c :: c in r.changes && c.itemId == item ==> !c.purged
    ensures var g := GraphOf(ApplyReply(d, r).value.revisions, item);
            x in g && g[x].(parents := []) == GraphOf(d.revisions, item)[x].(parents := [])
    ensures forall c :: c in r.changes && c.itemId == item && c.revisionId == x ==>
              c.(parents := []) == GraphOf(d.revisions, item)[x].(parents := [])
  {
    var pending := Unacknowledged(d.mutations, r.applied);
    assert forall j :: 0 <= j < |r.changes| ==> r.changes[j] in r.changes;
    ChangesKeepContent(d.revisions, pending, r.changes, |r.changes|, item, x);
    forall c | c in r.changes && c.itemId == item && c.revisionId == x
      ensures c.(parents := []) == GraphOf(d.revisions, item)[x].(parents := [])
    {
      var j :| 0 <= j < |r.changes| && r.changes[j] == c;
      AppliedUpTo(d.revisions, pending, r.changes, j + 1, |r.changes|);
      AppliedUpTo(d.revisions, pending, r.changes, j, |r.changes|);
      ChangesKeepContent(d.revisions, pending, r.changes, j, item, x);
    }
  }

  lemma {:induction false} AppliedUpTo(start: map<Id, Graph>, ms: seq<Mutation>, cs: seq<Revision>, m: nat, n: nat)
    requires m <= n <= |cs| && ApplyChanges(start, ms, cs, n).Ok?
    ensures ApplyChanges(start, ms, cs, m).Ok?
  {
    if m < n { AppliedUpTo(start, ms, cs, m, n - 1); }
  }

  // ------------------------------------------------- what is queued stays cached

  /** Every queued revision of the item is in the graph, with its content. */
  ghost predicate Laid(g: Graph, q: Graph) {
    forall x :: x in q ==> x in g && SameRevision(g[x], q[x])
  }

  lemma {:induction false} ChangeKeepsLaid(revisions: map<Id, Graph>, ms: seq<Mutation>, c: Revision, item: Id)
    requires ApplyChange(revisions, ms, c).Ok?
    requires Laid(GraphOf(revisions, item), QueueGraph(ms, item)) || (c.purged && c.itemId == item)
    ensures Laid(GraphOf(ApplyChange(revisions, ms, c).value, item), QueueGraph(ms, item))
  {
    var g := GraphOf(revisions, c.itemId);
    if c.purged && c.itemId == item { QueuedOverGraph(map[c.revisionId := c] + LiveHeads(g), ms, |ms|, item); }
  }

  lemma {:induction false} ChangesLayQueue(d: CacheData, ms: seq<Mutation>, full: bool, cs: seq<Revision>, n: nat, item: Id)
    requires n <= |cs| && ApplyChanges(StartingGraphs(d, ms, full), ms, cs, n).Ok?
    requires Relaid(full, cs, n, item) || Laid(GraphOf(d.revisions, item), QueueGraph(ms, item))
    ensures Laid(GraphOf(ApplyChanges(StartingGraphs(d, ms, full), ms, cs, n).value, item), QueueGraph(ms, item))
  {
    if n == 0 {
      QueuedGraph(ms, |ms|, item);
    } else {
      if Relaid(full, cs, n - 1, item) || Laid(GraphOf(d.revisions, item), QueueGraph(ms, item)) {
        ChangesLayQueue(d, ms, full, cs, n - 1, item);
      }
      ChangeKeepsLaid(ApplyChanges(StartingGraphs(d, ms, full), ms, cs, n - 1).value, ms, cs[n - 1], item);
    }
  }

  lemma {:induction false} QueuedIsInQueueGraph(ms: seq<Mutation>, n: nat, m: Mutation)
    requires n <= |ms| && m in ms[..n]
    ensures m.item.revisionId in WithQueued(map[], ms, n, m.item.itemId)
  {
    if ms[n - 1] != m {
      assert ms[..n] == ms[..n - 1] + [ms[n - 1]];
      QueuedIsInQueueGraph(ms, n - 1, m);
    }
  }

  /** The items whose queued revisions an applied answer puts back, whatever was cached:
      all of them for a full snapshot, else those with a tombstone among the changes. */
  predicate PutBack(r: Reply, item: Id) {
    Relaid(r.full, r.changes, |r.changes|, item)
  }

  /** After a full snapshot, and after a tombstone of the item, every revision that is
      still queued is in the graph with its content; any other answer keeps those that
      were there. */
  lemma {:induction false} QueuedStaysCached(d: CacheData, r: Reply, item: Id)
    requires ApplyReply(d, r).Ok?
    ensures var e := ApplyReply(d, r).value;
            PutBack(r, item) || Laid(GraphOf(d.revisions, item), QueueGraph(e.mutations, item)) ==>
              && Laid(GraphOf(e.revisions, item), QueueGraph(e.mutations, item))
              && forall m :: m in e.mutations && m.item.itemId == item ==> m.item.revisionId in GraphOf(e.revisions, item)
  {
    var e := ApplyReply(d, r).value;
    if PutBack(r, item) || Laid(GraphOf(d.revisions, item), QueueGraph(e.mutations, item)) {
      ChangesLayQueue(d, e.mutations, r.full, r.changes, |r.changes|, item);
      assert e.mutations[..|e.mutations|] == e.mutations;
      forall m | m in e.mutations && m.item.itemId == item ensures m.item.revisionId in QueueGraph(e.mutations, item) {
        QueuedIsInQueueGraph(e.mutations, |e.mutations|, m);
      }
    }
  }

  /** After a full snapshot nothing that is still queued is missing from the graph. */
  lemma {:induction false} FullSnapshotKeepsQueue(d: CacheData, r: Reply)
    requires ApplyReply(d, r).Ok? && r.full
    ensures var e := ApplyReply(d, r).value;
            && e.mutations == Unacknowledged(d.mutations, r.applied)
            && (forall item :: Laid(GraphOf(e.revisions, item), QueueGraph(e.mutations, item)))
            && forall m :: m in e.mutations ==> m.item.revisionId in GraphOf(e.revisions, m.item.itemId)
  {
    forall item ensures PutBack(r, item) { QueuedStaysCached(d, r, item); }
    forall item ensures Laid(GraphOf(ApplyReply(d, r).value.revisions, item), QueueGraph(ApplyReply(d, r).value.mutations, item)) {
      QueuedStaysCached(d, r, item);
    }
    forall m | m in ApplyReply(d, r).value.mutations
      ensures m.item.revisionId in GraphOf(ApplyReply(d, r).value.revisions, m.item.itemId)
    {
      QueuedStaysCached(d, r, m.item.itemId);
    }
  }

  // --------------------------------------------------------- batch imports

  predicate ValidImport(r: Revision) {
    r.itemId != NO_ID && r.schemaVersion >= 1 && r.revision == 1 && r.parents == [] && ValidContent(r)
  }

  /** Items without a revision id of their own are given the next fresh one. */
  function Named(items: seq<Revision>, ids: seq<Id>): (rs: seq<Revision>)
    requires |items| == |ids|
    ensures |rs| == |items|
    ensures forall j :: 0 <= j < |rs| ==>
              rs[j] == if items[j].revisionId == NO_ID then items[j].(revisionId := ids[j]) else items[j]
  {
    if items == [] then [] else
      var last := |items| - 1;
      Named(items[..last], ids[..last]) +
      [if items[last].revisionId == NO_ID then items[last].(revisionId := ids[last]) else items[last]]
  }

  /** Queues the first n items of an import, skipping those already cached. */
  function Import(d: CacheData, items: seq<Revision>, n: nat): Result<CacheData, CacheError>
    requires n <= |items|
  {
    if n == 0 then Ok(d) else
      match Import(d, items, n - 1)
      case Err(e) => Err(e)
      case Ok(before) =>
        var r := items[n - 1];
        var g := GraphOf(before.revisions, r.itemId);
        if r.revisionId in g then
          if SameRevision(g[r.revisionId], r) then Ok(before) else Err(RevisionIdExists)
        else if g != map[] then Err(LocalConflict)
        else Ok(before.(revisions := before.revisions[r.itemId := map[r.revisionId := r]],
                        mutations := before.mutations + [Mutation(r.revisionId, 0, r)]))
  }

  predicate CachedAs(d: CacheData, r: Revision) {
    var g := GraphOf(d.revisions, r.itemId);
    r.revisionId in g && SameRevision(g[r.revisionId], r)
  }

  ghost predicate Imported(d: CacheData, items: seq<Revision>, n: nat)
    requires n <= |items|
  {
    forall j {:trigger CachedAs(d, items[j])} :: 0 <= j < n ==> CachedAs(d, items[j])
  }

  lemma {:induction false} ImportCachesEverything(d: CacheData, items: seq<Revision>, n: nat)
    requires n <= |items| && Import(d, items, n).Ok?
    ensures Imported(Import(d, items, n).value, items, n)
    ensures d.mutations <= Import(d, items, n).value.mutations
  {
    if n > 0 {
      ImportCachesEverything(d, items, n - 1);
      var before, e := Import(d, items, n - 1).value, Import(d, items, n).value;
      forall j | 0 <= j < n ensures CachedAs(e, items[j]) {
        if j < n - 1 { assert CachedAs(before, items[j]); }
      }
    }
  }

  lemma {:induction false} NothingLeftToImport(d: CacheData, items: seq<Revision>, n: nat)
    requires n <= |items| && Imported(d, items, n)
    ensures Import(d, items, n) == Ok(d)
  {
    if n > 0 {
      NothingLeftToImport(d, items, n - 1);
      assert CachedAs(d, items[n - 1]);
    }
  }

  /** Retrying a deterministic import queues nothing again. */
  lemma {:induction false} ImportIsIdempotent(d: CacheData, items: seq<Revision>)
    requires Import(d, items, |items|).Ok?
    ensures Import(Import(d, items, |items|).value, items, |items|) == Import(d, items, |items|)
  {
    ImportCachesEverything(d, items, |items|);
    NothingLeftToImport(Import(d, items, |items|).value, items, |items|);
  }

  /** Importing one item the cache does not know is queueing its creation. */
  lemma {:induction false} ImportIsQueueing(d: CacheData, items: seq<Revision>, n: nat)
    requires n < |items| && ValidImport(items[n]) && Import(d, items, n).Ok?
    requires GraphOf(Import(d, items, n).value.revisions, items[n].itemId) == map[]
    ensures Import(d, items, n + 1) == Queue(Import(d, items, n).value, items[n], 0)
  {
  }

  lemma {:induction false} ImportKeepsValid(d: CacheData, items: seq<Revision>, n: nat)
    requires ValidCache(d) && n <= |items|
    requires forall j :: 0 <= j < n ==> ValidImport(items[j]) && items[j].revisionId != NO_ID
    requires Import(d, items, n).Ok?
    ensures ValidCache(Import(d, items, n).value)
  {
    if n > 0 {
      ImportKeepsValid(d, items, n - 1);
      assert ValidImport(items[n - 1]);
    }
  }

  // ------------------------------------------------------- portable backups

  datatype Backup = Backup(accountId: Id, revisions: map<Id, Graph>, mutations: seq<Mutation>, cursor: Option<nat>, fingerprint: Id)

  predicate IsEmptyCache(d: CacheData) {
    d.revisions == map[] && d.mutations == [] && d.cursor == None
  }

  function Marked(restored: seq<Id>, fingerprint: Id): seq<Id> {
    if fingerprint != NO_ID && fingerprint !in restored then restored + [fingerprint] else restored
  }

  /** RestorePortableState: the whole graph, queue and cursor, into an empty cache. */
  function RestoreState(d: CacheData, b: Backup): Result<CacheData, CacheError> {
    if b.accountId == NO_ID then Err(InvalidBackup)
    else if d.accountId != b.accountId then Err(AccountMismatch)
    else if !IsEmptyCache(d) then Err(NotEmpty)
    else
      var e := CacheData(d.accountId, b.revisions, b.mutations, b.cursor, Marked(d.restored, b.fingerprint));
      if ValidCache(e) then Ok(e) else Err(InvalidBackup)
  }

  // ------------------------------------------------------------------ views

  predicate ActiveGraph(g: Graph) {
    exists x :: x in g && !Referenced(g, x) && !g[x].deleted
  }

  predicate TrashGraph(g: Graph) {
    && (forall x :: x in g && !Referenced(g, x) ==> g[x].deleted)
    && (exists x :: x in g && !Referenced(g, x) && !g[x].purged)
  }

  /** An item is listed, in the trash, or nothing but tombstones: never two of them, and
      with a head never none. Listed is what has a live head, in the trash what has none
      but a deleted one that is not purged. */
  lemma {:induction false} EveryItemHasOnePlace(g: Graph)
    requires Heads(g) != {} && forall x :: x in g ==> ValidContent(g[x])
    ensures ActiveGraph(g) <==> exists x :: x in Heads(g) && !g[x].deleted
    ensures TrashGraph(g) <==> !ActiveGraph(g) && exists x :: x in Heads(g) && g[x].deleted && !g[x].purged
    ensures !(ActiveGraph(g) && TrashGraph(g))
    ensures !ActiveGraph(g) && !TrashGraph(g) <==> forall x :: x in Heads(g) ==> g[x].purged
  {
    var h :| h in Heads(g);
    if forall x :: x in Heads(g) ==> g[x].purged {
      assert forall x :: x in g && !Referenced(g, x) ==> x in Heads(g);
    }
    if !ActiveGraph(g) && !TrashGraph(g) {
      forall x | x in Heads(g) ensures g[x].purged {
        assert g[x].deleted;
      }
    }
  }
}
