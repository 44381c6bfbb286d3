/** When a restore of a portable backup is recognized as already done. */
module PortableState {
  import opened Revisions
  import opened RevisionLog
  import opened SyncProtocol
  import opened Acceptance
  import opened CacheModel
  import opened AnswersExist

  predicate SameGraph(a: Graph, b: Graph) {
    a.Keys == b.Keys && forall x :: x in b && x in a ==> SameRevision(a[x], b[x])
  }

  /** As many items, and each graph of the backup is the cached one; the comparison
      reads no graph where none is cached. */
  predicate SameRevisions(a: map<Id, Graph>, b: map<Id, Graph>) {
    |a| == |b| && forall item :: item in b ==> SameGraph(GraphOf(a, item), b[item])
  }

  predicate SameQueue(a: seq<Mutation>, b: seq<Mutation>) {
    |a| == |b| && forall j :: 0 <= j < |b| ==> SameMutation(a[j], b[j])
  }

  /** PortableStateMatches. */
  predicate StateMatches(d: CacheData, b: Backup) {
    && d.accountId == b.accountId
    && SameRevisions(d.revisions, b.revisions)
    && ((b.fingerprint != NO_ID && !IsEmptyCache(d) && b.fingerprint in d.restored)
        || (d.cursor == b.cursor && SameQueue(d.mutations, b.mutations)))
  }

  /** The same items are cached, with the same revisions, and so the same heads. */
  ghost predicate SameVault(a: map<Id, Graph>, b: map<Id, Graph>) {
    && a.Keys == b.Keys
    && forall item :: SameGraph(GraphOf(a, item), GraphOf(b, item)) && Heads(GraphOf(a, item)) == Heads(GraphOf(b, item))
  }

  lemma {:induction false} SubsetOfSameSize(a: set<Id>, b: set<Id>)
    requires b <= a && |a| == |b|
    ensures a == b
  {
    if x :| x in a && x !in b {
      SubsetSize(b, a - {x});
    }
  }

  lemma {:induction false} SubsetSize(b: set<Id>, a: set<Id>)
    requires b <= a
    ensures |b| <= |a|
  {
    if x :| x in b {
      SubsetSize(b - {x}, a - {x});
    }
  }

  lemma {:induction false} SameGraphSameHeads(a: Graph, b: Graph)
    requires SameGraph(a, b)
    ensures Heads(a) == Heads(b)
  {
    forall x, y | x in a && y in a ensures x in a[y].parents <==> x in b[y].parents {
      SortKeepsParents(a[y].parents);
      SortKeepsParents(b[y].parents);
    }
    forall x ensures x in Heads(a) <==> x in Heads(b) {}
  }

  lemma {:induction false} MatchHasSameItems(a: map<Id, Graph>, b: map<Id, Graph>)
    requires SameRevisions(a, b) && forall item :: item in b ==> b[item] != map[]
    ensures a.Keys == b.Keys
  {
    forall item | item in b ensures item in a {
      var x :| x in b[item];
      assert x in GraphOf(a, item);
    }
    SubsetOfSameSize(a.Keys, b.Keys);
  }

  lemma {:induction false} MatchOfFullGraphs(a: map<Id, Graph>, b: map<Id, Graph>)
    requires SameRevisions(a, b) && forall item :: item in b ==> b[item] != map[]
    ensures SameVault(a, b)
  {
    MatchHasSameItems(a, b);
    forall item ensures SameGraph(GraphOf(a, item), GraphOf(b, item)) && Heads(GraphOf(a, item)) == Heads(GraphOf(b, item)) {
      assert item in a <==> item in b;
      SameGraphSameHeads(GraphOf(a, item), GraphOf(b, item));
    }
  }

  /** With an item of the backup that has no revision, another item in its place goes
      unnoticed: the cache matches and shows an item the backup does not have. */
  lemma {:induction false} EmptyGraphHidesItem(b: Backup, empty: Id) returns (d: CacheData, item: Id)
    requires b.accountId != NO_ID && ValidRevisions(b.revisions) && ValidQueue(b.mutations)
    requires empty in b.revisions && b.revisions[empty] == map[]
    ensures ValidCache(d) && StateMatches(d, b) && !SameVault(d.revisions, b.revisions)
    ensures item !in b.revisions && Heads(GraphOf(d.revisions, item)) != {}
  {
    var bound := UpperBound(b.revisions.Keys);
    item := bound + 1;
    var r := Revision(item, 1, 1, item, [], false, false, [0]);
    var rest := b.revisions - {empty};
    d := CacheData(b.accountId, rest[item := map[item := r]], b.mutations, b.cursor, []);
    assert rest.Keys == b.revisions.Keys - {empty};
    assert d.revisions.Keys == rest.Keys + {item};
    forall i | i in b.revisions ensures SameGraph(GraphOf(d.revisions, i), b.revisions[i]) {
      if i != empty { assert GraphOf(d.revisions, i) == b.revisions[i]; }
    }
    assert item in Heads(GraphOf(d.revisions, item));
  }

  /** A finished restore matches its backup; and whatever cache matches it holds the same
      items, revisions and heads, if and only if every item of the backup has a revision. */
  lemma {:induction false} MatchMeansSameVault(b: Backup)
    requires b.accountId != NO_ID && ValidRevisions(b.revisions) && ValidQueue(b.mutations)
    ensures (forall d :: ValidCache(d) && StateMatches(d, b) ==> SameVault(d.revisions, b.revisions))
            <==> forall item :: item in b.revisions ==> b.revisions[item] != map[]
    ensures forall d :: RestoreState(d, b).Ok? ==> StateMatches(RestoreState(d, b).value, b)
    ensures forall d :: StateMatches(d, b) && b.fingerprint !in d.restored ==>
              && d.cursor == b.cursor && |d.mutations| == |b.mutations|
              && forall j :: 0 <= j < |b.mutations| ==> SameButOrder(d.mutations[j], b.mutations[j])
  {
    forall d, j | StateMatches(d, b) && b.fingerprint !in d.restored && 0 <= j < |b.mutations| ensures SameButOrder(d.mutations[j], b.mutations[j]) {
      SameContent(d.mutations[j], b.mutations[j]);
    }
    if item :| item in b.revisions && b.revisions[item] == map[] {
      var d, other := EmptyGraphHidesItem(b, item);
    } else {
      forall d | ValidCache(d) && StateMatches(d, b) ensures SameVault(d.revisions, b.revisions) {
        MatchOfFullGraphs(d.revisions, b.revisions);
      }
    }
  }

  /** Exactly when a backup is restored, and what the cache holds then: only a cache of the
      same account with no item, nothing queued and no cursor, and all of the backup. */
  lemma {:induction false} RestoreIsExact(d: CacheData, b: Backup)
    requires ValidCache(d)
    ensures RestoreState(d, b).Ok? <==>
              && b.accountId == d.accountId && d.revisions == map[] && d.mutations == [] && d.cursor == None
              && ValidRevisions(b.revisions) && ValidQueue(b.mutations)
    ensures RestoreState(d, b).Ok? ==>
              var e := RestoreState(d, b).value;
              e.accountId == b.accountId && e.revisions == b.revisions && e.mutations == b.mutations && e.cursor == b.cursor
  {
    assert NO_ID !in Marked(d.restored, b.fingerprint);
  }

  // ------------------------------------------------------ the restore marker

  /** The client queues, imports or applies an answer. */
  ghost predicate CacheStep(d: CacheData, e: CacheData) {
    || (exists r, base :: Queue(d, r, base) == Ok(e))
    || (exists items: seq<Revision> :: Import(d, items, |items|) == Ok(e))
    || (exists r :: ApplyReply(d, r) == Ok(e))
  }

  ghost predicate CachePath(d: CacheData, more: seq<CacheData>, e: CacheData)
    decreases |more|
  {
    if more == [] then d == e else CacheStep(d, more[0]) && CachePath(more[0], more[1..], e)
  }

  lemma {:induction false} ImportKeepsMarkers(d: CacheData, items: seq<Revision>, n: nat)
    requires n <= |items| && Import(d, items, n).Ok?
    ensures Import(d, items, n).value.restored == d.restored
  {
    if n > 0 { ImportKeepsMarkers(d, items, n - 1); }
  }

  lemma {:induction false} PathKeepsMarkers(d: CacheData, more: seq<CacheData>, e: CacheData)
    requires CachePath(d, more, e)
    ensures e.restored == d.restored
    decreases |more|
  {
    if more != [] {
      if items: seq<Revision> :| Import(d, items, |items|) == Ok(more[0]) { ImportKeepsMarkers(d, items, |items|); }
      PathKeepsMarkers(more[0], more[1..], e);
    }
  }

  /** However long the client works on after a restore, the backup it came from is marked
      as restored, once, after the markers there were; without a fingerprint nothing is. */
  lemma {:induction false} RestoreIsRemembered(d: CacheData, b: Backup, more: seq<CacheData>, e: CacheData)
    requires RestoreState(d, b).Ok? && CachePath(RestoreState(d, b).value, more, e)
    ensures b.fingerprint != NO_ID ==> b.fingerprint in e.restored
    ensures d.restored <= e.restored && |e.restored| <= |d.restored| + 1
    ensures b.fingerprint == NO_ID || b.fingerprint in d.restored ==> e.restored == d.restored
    ensures b.fingerprint != NO_ID && b.fingerprint !in d.restored ==> e.restored == d.restored + [b.fingerprint]
  {
    PathKeepsMarkers(RestoreState(d, b).value, more, e);
  }
}
