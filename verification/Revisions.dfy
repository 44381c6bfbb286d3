/** Opaque vault revisions and the graph that the revisions of one item form.

    Server and client exchange the same record; both derive the active versions
    of an item as the revisions no other known revision names as a parent. */
module Revisions {

  datatype Option<+T> = None | Some(value: T)
  datatype Result<+T, +E> = Ok(value: T) | Err(error: E)

  // A UUID in its canonical lower-case text orders like the 128-bit number it
  // spells, so identifiers are numbers; 0 stands for the empty string.
  type Id = nat
  const NO_ID: Id := 0

  newtype Byte = b: int | 0 <= b < 256

  // An empty envelope is the absent (NULL) envelope.
  datatype Revision = Revision(
    itemId: Id,
    schemaVersion: int,
    revision: nat,
    revisionId: Id,
    parents: seq<Id>,
    deleted: bool,
    purged: bool,
    envelope: seq<Byte>)

  datatype Mutation = Mutation(mutationId: Id, baseRevision: nat, item: Revision)

  // The known revisions of one item, by revision id.
  type Graph = map<Id, Revision>

  predicate ValidContent(r: Revision) {
    if r.purged then r.deleted && r.envelope == [] else r.envelope != []
  }

  predicate Trashed(r: Revision) { r.deleted && !r.purged }

  predicate Distinct(ids: seq<Id>) {
    forall i, j :: 0 <= i < j < |ids| ==> ids[i] != ids[j]
  }

  function IdSet(ids: seq<Id>): (s: set<Id>)
    ensures forall x :: x in s <==> x in ids
  {
    set x | x in ids
  }

  predicate ValidParents(ids: seq<Id>) {
    NO_ID !in ids && Distinct(ids)
  }

  /** The duplicate check both sides run on every list of parents. */
  method CheckParents(ids: seq<Id>) returns (ok: bool)
    ensures ok <==> ValidParents(ids)
  {
    var seen: set<Id> := {};
    for i := 0 to |ids|
      invariant seen == set x | x in ids[..i]
      invariant ValidParents(ids[..i])
    {
      assert ids[..i + 1] == ids[..i] + [ids[i]];
      if ids[i] == NO_ID || ids[i] in seen {
        assert ids[i] == NO_ID ==> NO_ID in ids;
        assert ids[i] in seen ==> exists j :: 0 <= j < i && ids[j] == ids[i];
        return false;
      }
      seen := seen + {ids[i]};
    }
    assert ids[..|ids|] == ids;
    return true;
  }

  // ---------------------------------------------------------------- sorting

  predicate Sorted(ids: seq<Id>) {
    forall i, j :: 0 <= i < j < |ids| ==> ids[i] <= ids[j]
  }

  function Insert(x: Id, ids: seq<Id>): seq<Id> {
    if ids == [] || x <= ids[0] then [x] + ids else [ids[0]] + Insert(x, ids[1..])
  }

  lemma {:induction false} InsertAdds(x: Id, ids: seq<Id>)
    ensures |Insert(x, ids)| == |ids| + 1
    ensures multiset(Insert(x, ids)) == multiset(ids) + multiset{x}
  {
    if ids != [] && ids[0] < x {
      InsertAdds(x, ids[1..]);
      assert ids == [ids[0]] + ids[1..];
    }
  }

  lemma {:induction false} InsertKeepsSorted(x: Id, ids: seq<Id>)
    requires Sorted(ids)
    ensures Sorted(Insert(x, ids))
  {
    if ids != [] && ids[0] < x {
      var rest := Insert(x, ids[1..]);
      InsertKeepsSorted(x, ids[1..]);
      assert ids[1..] != [] ==> ids[1..][0] == ids[1];
      assert ids[0] <= rest[0];
      SortedCons(ids[0], rest);
    }
  }

  lemma {:induction false} SortedCons(x: Id, ids: seq<Id>)
    requires Sorted(ids) && (ids == [] || x <= ids[0])
    ensures Sorted([x] + ids)
  {
    var all := [x] + ids;
    forall i, j | 0 <= i < j < |all| ensures all[i] <= all[j] {
      assert all[j] == ids[j - 1] && ids[0] <= ids[j - 1];
    }
  }

  /** The library sort both sides apply to the parents of a mutation. */
  function SortIds(ids: seq<Id>): seq<Id> {
    if ids == [] then [] else Insert(ids[0], SortIds(ids[1..]))
  }

  lemma {:induction false} SortSorts(ids: seq<Id>)
    ensures Sorted(SortIds(ids))
    ensures multiset(SortIds(ids)) == multiset(ids)
  {
    if ids != [] {
      SortSorts(ids[1..]);
      InsertKeepsSorted(ids[0], SortIds(ids[1..]));
      InsertAdds(ids[0], SortIds(ids[1..]));
      assert ids == [ids[0]] + ids[1..];
    }
  }

  lemma {:induction false} SortedStartsLow(a: seq<Id>, x: Id)
    requires Sorted(a) && x in multiset(a)
    ensures a != [] && a[0] <= x
  {
    assert x in a;
  }

  lemma {:induction false} RemoveFirst(a: seq<Id>)
    requires a != []
    ensures multiset(a[1..]) == multiset(a) - multiset{a[0]}
  {
    assert a == [a[0]] + a[1..];
  }

  lemma {:induction false} SameStart(a: seq<Id>, b: seq<Id>)
    requires Sorted(a) && Sorted(b) && a != []
    requires multiset(a) == multiset(b)
    ensures b != [] && a[0] == b[0]
  {
    assert a[0] in multiset(a);
    SortedStartsLow(b, a[0]);
    assert b[0] in multiset(b);
    SortedStartsLow(a, b[0]);
  }

  /** Two sorted lists of the same identifiers are the same list. */
  lemma {:induction false} SortedUnique(a: seq<Id>, b: seq<Id>)
    requires Sorted(a) && Sorted(b)
    requires multiset(a) == multiset(b)
    ensures a == b
  {
    if a == [] {
      assert |multiset(b)| == 0;
    } else {
      SameStart(a, b);
      var x, rest, others := a[0], a[1..], b[1..];
      RemoveFirst(a);
      RemoveFirst(b);
      SortedUnique(rest, others);
      assert a == [x] + rest && b == [x] + others;
    }
  }

  lemma {:induction false} SortedIsFixed(ids: seq<Id>)
    requires Sorted(ids)
    ensures SortIds(ids) == ids
  {
    SortSorts(ids);
    SortedUnique(ids, SortIds(ids));
  }

  /** Sorting keeps the set of parents and whether they are well formed. */
  lemma {:induction false} SortKeepsParents(ids: seq<Id>)
    ensures |SortIds(ids)| == |ids| && Sorted(SortIds(ids))
    ensures forall x :: x in SortIds(ids) <==> x in ids
    ensures Distinct(ids) <==> Distinct(SortIds(ids))
  {
    var s := SortIds(ids);
    SortSorts(ids);
    assert |multiset(s)| == |multiset(ids)|;
    forall x ensures x in s <==> x in ids {
      assert x in s <==> x in multiset(s);
      assert x in ids <==> x in multiset(ids);
    }
    DistinctCounts(ids);
    DistinctCounts(s);
  }

  lemma {:induction false} DistinctCounts(ids: seq<Id>)
    ensures Distinct(ids) <==> forall x :: multiset(ids)[x] <= 1
  {
    if ids != [] {
      var rest := ids[1..];
      assert ids == [ids[0]] + rest;
      DistinctCounts(rest);
      assert multiset(ids) == multiset{ids[0]} + multiset(rest);
      if Distinct(ids) {
        assert Distinct(rest);
        assert ids[0] !in rest;
      } else if Distinct(rest) {
        var i, j :| 0 <= i < j < |ids| && ids[i] == ids[j];
        assert forall k :: 0 < k < |ids| ==> ids[k] == rest[k - 1];
        assert ids[j] in rest;
        assert multiset(ids)[ids[0]] >= 2;
      } else {
        var x :| multiset(rest)[x] > 1;
        assert multiset(ids)[x] > 1;
      }
    }
  }

  lemma {:induction false} DistinctSize(ids: seq<Id>)
    ensures |IdSet(ids)| <= |ids|
    ensures Distinct(ids) ==> |IdSet(ids)| == |ids|
  {
    if ids != [] {
      var rest := ids[1..];
      DistinctSize(rest);
      if ids[0] in rest {
        assert IdSet(ids) == IdSet(rest);
      } else {
        assert IdSet(ids) == IdSet(rest) + {ids[0]};
      }
    }
  }

  /** Equality of two stored revisions: every field, parents in any order. */
  predicate SameRevision(a: Revision, b: Revision) {
    && a.(parents := []) == b.(parents := [])
    && |a.parents| == |b.parents|
    && SortIds(a.parents) == SortIds(b.parents)
  }

  // ------------------------------------------------------------------ graphs

  predicate Referenced(g: Graph, x: Id) {
    exists y :: y in g && x in g[y].parents
  }

  function Heads(g: Graph): set<Id> {
    set x | x in g && !Referenced(g, x)
  }

  predicate ParentsIn(g: Graph, ids: seq<Id>) {
    forall p :: p in ids ==> p in g
  }

  /** The highest revision number among the named revisions, 0 for none. */
  function MaxRevision(g: Graph, ids: seq<Id>): (m: nat)
    requires ParentsIn(g, ids)
    ensures forall p :: p in ids ==> g[p].revision <= m
    ensures ids == [] ==> m == 0
    ensures ids != [] ==> exists p :: p in ids && g[p].revision == m
  {
    if ids == [] then 0 else
      assert forall p :: p in ids[1..] ==> p in ids;
      assert ids[0] in ids;
      var rest := MaxRevision(g, ids[1..]);
      if rest <= g[ids[0]].revision then g[ids[0]].revision else rest
  }

  /** Submap: every revision of g is the same revision in u. */
  ghost predicate Within(g: Graph, u: Graph) {
    forall x :: x in g ==> x in u && g[x] == u[x]
  }

  lemma {:induction false} MaxRevisionAgrees(g: Graph, h: Graph, ids: seq<Id>)
    requires ParentsIn(g, ids) && ParentsIn(h, ids)
    requires forall p :: p in ids ==> g[p].revision == h[p].revision
    ensures MaxRevision(g, ids) == MaxRevision(h, ids)
  {
    if ids != [] {
      MaxRevisionAgrees(g, h, ids[1..]);
    }
  }

  lemma {:induction false} MaxRevisionOfPermutation(g: Graph, a: seq<Id>, b: seq<Id>)
    requires forall x :: x in a <==> x in b
    requires ParentsIn(g, a)
    ensures ParentsIn(g, b) && MaxRevision(g, a) == MaxRevision(g, b)
  {
    assert a != [] ==> a[0] in b;
    assert b != [] ==> b[0] in a;
    assert MaxRevision(g, a) <= MaxRevision(g, b);
  }

  /** Parents have lower numbers than their children. */
  ghost predicate Numbered(g: Graph) {
    forall x, p :: x in g && p in g[x].parents && p in g ==> g[p].revision < g[x].revision
  }

  /** No cycle can hide an item: every non-empty numbered graph has a head. */
  lemma {:induction false} HeadExists(g: Graph)
    requires Numbered(g) && g != map[]
    ensures Heads(g) != {}
  {
    assert g.Keys != {} by { assert g == map x | x in g.Keys :: g[x]; }
    var top := Highest(g, g.Keys);
    forall y | y in g ensures top !in g[y].parents {
      assert g[y].revision <= g[top].revision;
    }
    assert top in Heads(g);
  }

  lemma {:induction false} Highest(g: Graph, xs: set<Id>) returns (top: Id)
    requires xs != {} && xs <= g.Keys
    ensures top in xs && forall x :: x in xs ==> g[x].revision <= g[top].revision
    decreases |xs|
  {
    var first :| first in xs;
    var rest := xs - {first};
    top := first;
    if rest != {} {
      var other := Highest(g, rest);
      if g[first].revision < g[other].revision { top := other; }
    }
    forall x | x in xs ensures g[x].revision <= g[top].revision {
      assert x == first || x in rest;
    }
  }

  lemma {:induction false} ReferencedAfterAdding(g: Graph, r: Revision, x: Id)
    requires r.revisionId !in g
    ensures Referenced(g[r.revisionId := r], x) <==> Referenced(g, x) || x in r.parents
  {
    var h := g[r.revisionId := r];
    if Referenced(g, x) {
      var y :| y in g && x in g[y].parents;
      assert y in h && h[y] == g[y];
    }
    if x in r.parents { assert x in h[r.revisionId].parents; }
    if Referenced(h, x) {
      var y :| y in h && x in h[y].parents;
      assert y == r.revisionId || (y in g && h[y] == g[y]);
    }
  }

  /** Adding a revision nothing refers to yet replaces its parents by itself. */
  lemma {:induction false} HeadsAfterAdding(g: Graph, r: Revision)
    requires r.revisionId !in g && !Referenced(g, r.revisionId)
    requires r.revisionId !in r.parents
    ensures Heads(g[r.revisionId := r]) == Heads(g) - IdSet(r.parents) + {r.revisionId}
  {
    var h := g[r.revisionId := r];
    forall x ensures x in Heads(h) <==> x in Heads(g) - IdSet(r.parents) + {r.revisionId} {
      ReferencedAfterAdding(g, r, x);
    }
  }

  /** The identifiers of a set in ascending order. */
  method Ordered(ids: set<Id>) returns (r: seq<Id>)
    ensures forall x :: x in r <==> x in ids
    ensures Sorted(r) && Distinct(r)
  {
    var rest := ids;
    var found: seq<Id> := [];
    while rest != {}
      invariant rest <= ids
      invariant forall x :: x in found <==> x in ids - rest
      invariant Distinct(found)
      decreases |rest|
    {
      var x :| x in rest;
      rest := rest - {x};
      found := found + [x];
    }
    r := SortIds(found);
    SortKeepsParents(found);
  }

  /** One more step through an ordered list. */
  lemma {:induction false} NextInOrder(ids: seq<Id>, i: nat)
    requires Sorted(ids) && Distinct(ids) && i < |ids|
    ensures IdSet(ids[..i + 1]) == IdSet(ids[..i]) + {ids[i]}
    ensures ids[i] !in IdSet(ids[..i]) && forall x :: x in IdSet(ids[..i]) ==> x < ids[i]
  {
    assert ids[..i + 1] == ids[..i] + [ids[i]];
    forall x | x in ids[..i] ensures x < ids[i] {
      var j :| 0 <= j < i && ids[j] == x;
    }
  }

  /** The loop form of Heads: mark every referenced id, keep the rest, sort. */
  method RevisionHeads(g: Graph) returns (heads: seq<Id>)
    ensures forall x :: x in heads <==> x in Heads(g)
    ensures Sorted(heads) && Distinct(heads)
  {
    var referenced: set<Id> := {};
    var rest := g.Keys;
    while rest != {}
      invariant rest <= g.Keys
      invariant referenced == set y, p | y in g.Keys - rest && p in g[y].parents :: p
      decreases |rest|
    {
      var y :| y in rest;
      rest := rest - {y};
      referenced := referenced + IdSet(g[y].parents);
    }
    assert forall x :: x in g ==> (x in referenced <==> Referenced(g, x));
    var ids: seq<Id> := [];
    rest := g.Keys;
    while rest != {}
      invariant rest <= g.Keys
      invariant forall x :: x in ids <==> x in g.Keys - rest && x !in referenced
      invariant Distinct(ids)
      decreases |rest|
    {
      var x :| x in rest;
      rest := rest - {x};
      if x !in referenced { ids := ids + [x]; }
    }
    heads := SortIds(ids);
    SortKeepsParents(ids);
  }
}
