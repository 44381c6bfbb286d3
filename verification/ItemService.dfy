/** The checks a synchronization request meets before it reaches the store. */
module ItemService {
  import opened Revisions
  import opened RevisionLog
  import opened SyncProtocol
  import opened Exchange
  import opened VaultStore
  import opened RequestBody

  /** An omitted revision id is the mutation's. */
  function Filled(m: Mutation): Id {
    if m.item.revisionId == NO_ID then m.mutationId else m.item.revisionId
  }

  function Normalize(m: Mutation): Mutation {
    m.(item := m.item.(revisionId := Filled(m), parents := SortIds(m.item.parents)))
  }

  function NormalizeAll(ms: seq<Mutation>): (ns: seq<Mutation>)
    ensures |ns| == |ms| && forall j :: 0 <= j < |ms| ==> ns[j] == Normalize(ms[j])
  {
    if ms == [] then [] else NormalizeAll(ms[..|ms| - 1]) + [Normalize(ms[|ms| - 1])]
  }

  /** Equal but for the order of the parents and an omitted revision id. */
  predicate SameSubmission(a: Mutation, b: Mutation) {
    && a.mutationId == b.mutationId && a.baseRevision == b.baseRevision
    && a.item.(revisionId := NO_ID, parents := []) == b.item.(revisionId := NO_ID, parents := [])
    && Filled(a) == Filled(b)
    && multiset(a.item.parents) == multiset(b.item.parents)
  }

  /** Two submissions become the same mutation exactly when they differ in nothing but
      the order of the parents and an omitted revision id. */
  lemma {:induction false} NormalizeMeaning(a: Mutation, b: Mutation)
    ensures Normalize(a) == Normalize(b) <==> SameSubmission(a, b)
  {
    SortSorts(a.item.parents);
    SortSorts(b.item.parents);
    if SameSubmission(a, b) { SortedUnique(SortIds(a.item.parents), SortIds(b.item.parents)); }
  }

  /** The normal form, which every queued mutation already has: parents sorted and a
      revision id present. */
  lemma {:induction false} NormalForm(m: Mutation)
    ensures Normalize(m) == m <==> Sorted(m.item.parents) && (m.item.revisionId != NO_ID || m.mutationId == NO_ID)
    ensures Normalize(Normalize(m)) == Normalize(m)
  {
    SortSorts(m.item.parents);
    SortedIsFixed(SortIds(m.item.parents));
    if Sorted(m.item.parents) { SortedIsFixed(m.item.parents); }
  }

  /** The idempotency comparison does not see normalization: a resend of the same
      submission in any form is the same mutation to the ledger. */
  lemma {:induction false} NormalizeKeepsContent(a: Mutation, b: Mutation)
    ensures SameMutation(Normalize(a), a.(item := a.item.(revisionId := Filled(a))))
    ensures SameMutation(Normalize(a), Normalize(b)) <==> SameSubmission(a, b)
  {
    NormalizeMeaning(a, b);
    SortKeepsParents(a.item.parents);
    SortKeepsParents(b.item.parents);
    SortedIsFixed(SortIds(a.item.parents));
    SortedIsFixed(SortIds(b.item.parents));
  }

  method NormalizeMutations(ms: seq<Mutation>) returns (ns: seq<Mutation>)
    ensures ns == NormalizeAll(ms)
  {
    ns := [];
    for j := 0 to |ms|
      invariant ns == NormalizeAll(ms[..j])
    {
      assert ms[..j + 1][..j] == ms[..j];
      ns := ns + [Normalize(ms[j])];
    }
    assert ms[..|ms|] == ms;
  }

  /** True exactly when every mutation is well formed. */
  method ValidMutations(ms: seq<Mutation>) returns (ok: bool)
    ensures ok <==> forall m :: m in ms ==> ValidMutation(m)
    ensures ok <==> forall m :: m in ms ==>
              && m.mutationId != NO_ID && m.item.itemId != NO_ID && m.item.revisionId == m.mutationId && m.item.schemaVersion >= 1
              && 1 <= m.item.revision <= 9_223_372_036_854_775_807 && m.item.revision == m.baseRevision + 1
              && (if m.item.purged then m.item.deleted && |m.item.envelope| == 0 else 1 <= |m.item.envelope| <= 1_048_576)
              && (m.baseRevision == 0 <==> |m.item.parents| == 0)
              && NO_ID !in m.item.parents && forall i, j :: 0 <= i < j < |m.item.parents| ==> m.item.parents[i] != m.item.parents[j]
  {
    for j := 0 to |ms|
      invariant forall i :: 0 <= i < j ==> ValidMutation(ms[i])
    {
      var m := ms[j];
      assert m in ms;
      if m.mutationId == NO_ID || m.item.itemId == NO_ID || m.item.schemaVersion < 1 || m.item.revision < 1 ||
         m.item.revision > MAX_REVISION || m.item.revisionId != m.mutationId ||
         m.item.revision != m.baseRevision + 1 || !ValidContent(m.item) || |m.item.envelope| > MAX_ENVELOPE
      {
        return false;
      }
      if (m.baseRevision == 0 && m.item.parents != []) || (m.baseRevision > 0 && m.item.parents == []) {
        return false;
      }
      var parentsOk := CheckParents(m.item.parents);
      if !parentsOk { return false; }
    }
    return true;
  }

  /** POST /api/v1/sync: a body over the limit, a batch that is too long or a malformed
      mutation is refused before the store, every other request is one transaction on
      the normalized batch. The size is that of the body as it arrives. */
  method HandleSync(store: DBStore, size: nat, input: nat, ms: seq<Mutation>, now: int, ids: seq<Id>)
    returns (r: Result<Reply, SyncError>, ghost rows: seq<nat>)
    requires store.Valid()
    requires FreshIds(store.ledger, ids) && |ExpiredRows(store.ledger, now)| <= |ids|
    modifies store
    ensures store.Valid()
    ensures r.Err? ==> store.Tables() == old(store.Tables())
    ensures size > 131_072 || |ms| > 100 || !AllValid(NormalizeAll(ms)) ==> r == Err(InvalidRequest)
    ensures size <= 131_072 && |ms| <= 100 && AllValid(NormalizeAll(ms)) ==>
              && Enumerates(rows, ExpiredRows(old(store.ledger), now)) && |rows| <= |ids|
              && (forall k :: k in rows ==> k < |old(store.ledger)|)
              && Answers(old(store.State()), input, NormalizeAll(ms), now, rows, ids, store.State(), r)
  {
    rows := [];
    if size > MAX_BODY {
      return Err(InvalidRequest), rows;
    }
    var batch := NormalizeMutations(ms);
    if |batch| > MAX_BATCH {
      return Err(InvalidRequest), rows;
    }
    var ok := ValidMutations(batch);
    if !ok {
      return Err(InvalidRequest), rows;
    }
    r, rows := store.Sync(input, batch, now, ids);
  }
}
