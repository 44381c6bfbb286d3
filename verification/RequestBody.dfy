/** How many bytes the body of a synchronization request takes, and what the server
    lets in: the client always sends its whole queue as one JSON object. */
module RequestBody {
  import opened Revisions
  import opened RevisionLog
  import opened SyncProtocol

  // Bodies beyond 128 KiB are cut off, so that they do not decode.
  const MAX_BODY: nat := 131072

  // The canonical text of an identifier.
  const UUID_LENGTH: nat := 36

  const REQUEST_FRAME := "{\"cursor\":\"\",\"mutations\":[]}"
  const MUTATION_FRAME := "{\"mutation_id\":\"\",\"base_revision\":,\"item\":}"
  const ITEM_FRAME := "{\"item_id\":\"\",\"schema_version\":,\"revision\":,\"revision_id\":\"\",\"parent_revision_ids\":,\"deleted\":,\"purged\":,\"envelope\":}"

  function DigitCount(n: nat): (d: nat)
    ensures d >= 1
  {
    if n < 10 then 1 else 1 + DigitCount(n / 10)
  }

  function IntegerSize(n: int): nat {
    if n < 0 then 1 + DigitCount(-n) else DigitCount(n)
  }

  function BooleanSize(b: bool): nat {
    if b then |"true"| else |"false"|
  }

  /** A list of identifiers; the client's empty list is null. */
  function ParentsSize(ids: seq<Id>): nat {
    if ids == [] then |"null"| else |"[]"| + |ids| * (UUID_LENGTH + |"\"\""|) + (|ids| - 1)
  }

  /** Padded base64 between quotes; an empty envelope is null. */
  function EnvelopeSize(envelope: seq<Byte>): nat {
    if envelope == [] then |"null"| else |"\"\""| + 4 * ((|envelope| + 2) / 3)
  }

  function ItemSize(r: Revision): nat {
    |ITEM_FRAME| + 2 * UUID_LENGTH + IntegerSize(r.schemaVersion) + DigitCount(r.revision)
    + ParentsSize(r.parents) + BooleanSize(r.deleted) + BooleanSize(r.purged) + EnvelopeSize(r.envelope)
  }

  function MutationSize(m: Mutation): nat {
    |MUTATION_FRAME| + UUID_LENGTH + DigitCount(m.baseRevision) + ItemSize(m.item)
  }

  /** The mutations, without separators. */
  function TotalSize(ms: seq<Mutation>): nat {
    if ms == [] then 0 else TotalSize(ms[..|ms| - 1]) + MutationSize(ms[|ms| - 1])
  }

  function CursorSize(cursor: Option<nat>): nat {
    match cursor case None => 0 case Some(c) => DigitCount(c)
  }

  function BodySize(cursor: Option<nat>, ms: seq<Mutation>): nat {
    |REQUEST_FRAME| + CursorSize(cursor) + TotalSize(ms) + if ms == [] then 0 else |ms| - 1
  }

  /** What the request handler lets in. */
  predicate WithinLimits(cursor: Option<nat>, ms: seq<Mutation>) {
    |ms| <= MAX_BATCH && BodySize(cursor, ms) <= MAX_BODY
  }

  lemma {:induction false} TotalSizeJoin(a: seq<Mutation>, b: seq<Mutation>)
    ensures TotalSize(a + b) == TotalSize(a) + TotalSize(b)
  {
    if b == [] {
      assert a + b == a;
    } else {
      assert (a + b)[..|a + b| - 1] == a + b[..|b| - 1];
      TotalSizeJoin(a, b[..|b| - 1]);
    }
  }

  /** A queue that is too much stays too much however it grows. */
  lemma {:induction false} LimitsOnlyTighten(cursor: Option<nat>, ms: seq<Mutation>, more: seq<Mutation>)
    requires ms <= more && WithinLimits(cursor, more)
    ensures WithinLimits(cursor, ms)
  {
    assert more == ms + more[|ms|..];
    TotalSizeJoin(ms, more[|ms|..]);
  }

  /** Every mutation of a request that is let in is far below the size limits of a
      single item: its envelope has at most 98,301 bytes. */
  lemma {:induction false} AdmittedEnvelope(cursor: Option<nat>, ms: seq<Mutation>, m: Mutation)
    requires m in ms && BodySize(cursor, ms) <= MAX_BODY
    ensures |m.item.envelope| <= 98301
  {
    var j :| 0 <= j < |ms| && ms[j] == m;
    MutationIsInBody(ms, j);
    assert |REQUEST_FRAME| + |ITEM_FRAME| >= 6;
    assert EnvelopeSize(m.item.envelope) <= MAX_BODY - 6;
  }

  lemma {:induction false} MutationIsInBody(ms: seq<Mutation>, j: nat)
    requires j < |ms|
    ensures MutationSize(ms[j]) <= TotalSize(ms)
  {
    if j < |ms| - 1 { MutationIsInBody(ms[..|ms| - 1], j); }
  }

  lemma {:induction false} ThousandByteEdits(ms: seq<Mutation>)
    requires forall m :: m in ms ==> |m.item.envelope| >= 1000
    ensures TotalSize(ms) >= |ms| * 1336
  {
    if ms != [] {
      var init, last := ms[..|ms| - 1], ms[|ms| - 1];
      assert last in ms && forall m :: m in init ==> m in ms;
      ThousandByteEdits(init);
      assert EnvelopeSize(last.item.envelope) >= 1336;
    }
  }

  /** A hundred edits of a thousand bytes each are already too much. */
  lemma {:induction false} HundredSmallEditsAreTooMuch(cursor: Option<nat>, ms: seq<Mutation>)
    requires |ms| == 100 && forall m :: m in ms ==> |m.item.envelope| >= 1000
    ensures |ms| <= MAX_BATCH && !WithinLimits(cursor, ms)
  {
    ThousandByteEdits(ms);
  }

  /** The size of a first request with one creation, byte for byte. */
  lemma {:induction false} CreationBodySize(m: Mutation)
    requires m.baseRevision == 0 && m.item.revision == 1 && m.item.schemaVersion == 1 && m.item.parents == []
    requires !m.item.deleted && !m.item.purged && m.item.envelope != []
    ensures BodySize(None, [m]) == 315 + 4 * ((|m.item.envelope| + 2) / 3)
    ensures WithinLimits(None, [m]) <==> |m.item.envelope| <= 98067
  {
    assert [m][..0] == [] && TotalSize([]) == 0;
    assert TotalSize([m]) == MutationSize(m);
  }

  /** And of one with a deletion over two parents and a purge. */
  lemma {:induction false} TrashBodySize(a: Mutation, b: Mutation)
    requires a.baseRevision == 9 && a.item.revision == 10 && a.item.schemaVersion == 1 && |a.item.parents| == 2
    requires a.item.deleted && !a.item.purged && a.item.envelope != []
    requires b.baseRevision == 10 && b.item.revision == 11 && b.item.schemaVersion == 1 && |b.item.parents| == 1
    requires b.item.deleted && b.item.purged && b.item.envelope == []
    ensures BodySize(Some(10), [a, b]) == 718 + 4 * ((|a.item.envelope| + 2) / 3)
  {
    assert [a, b][..1] == [a] && [a][..0] == [] && TotalSize([]) == 0;
    assert TotalSize([a, b]) == MutationSize(a) + MutationSize(b);
    assert DigitCount(10) == 2 && DigitCount(11) == 2;
  }

  function Power10(k: nat): nat {
    if k == 0 then 1 else 10 * Power10(k - 1)
  }

  lemma {:induction false} DigitsBound(n: nat, k: nat)
    requires k > 0 && n < Power10(k)
    ensures DigitCount(n) <= k
  {
    if n >= 10 { DigitsBound(n / 10, k - 1); }
  }

  lemma {:induction false} CursorsAreShort()
    ensures MAX_REVISION < Power10(20)
  {
    assert Power10(4) == 10000;
    assert Power10(8) == 10000 * Power10(4);
    assert Power10(12) == 10000 * Power10(8);
    assert Power10(16) == 10000 * Power10(12);
    assert Power10(20) == 10000 * Power10(16);
  }

  /** A request without mutations is always let in. */
  lemma {:induction false} EmptyQueueFits(cursor: Option<nat>)
    requires cursor.Some? ==> cursor.value <= MAX_REVISION
    ensures WithinLimits(cursor, [])
  {
    CursorsAreShort();
    if cursor.Some? { DigitsBound(cursor.value, 20); }
  }

  lemma {:induction false} TotalSizeBound(ms: seq<Mutation>)
    requires forall m :: m in ms ==> MutationSize(m) <= 1300
    ensures TotalSize(ms) <= |ms| * 1300
  {
    if ms != [] {
      var init, last := ms[..|ms| - 1], ms[|ms| - 1];
      assert last in ms && forall m :: m in init ==> m in ms;
      TotalSizeBound(init);
    }
  }

  /** A hundred mutations of 1,300 bytes of JSON each are let in, from every cursor. */
  lemma {:induction false} HundredShortEditsFit(cursor: Option<nat>, ms: seq<Mutation>)
    requires |ms| == 100 && forall m :: m in ms ==> MutationSize(m) <= 1300
    requires cursor.Some? ==> cursor.value <= MAX_REVISION
    ensures WithinLimits(cursor, ms)
  {
    CursorsAreShort();
    if cursor.Some? { DigitsBound(cursor.value, 20); }
    TotalSizeBound(ms);
  }
}
