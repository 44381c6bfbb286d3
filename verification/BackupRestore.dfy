/** Semantic restore of a portable backup into another vault: new item ids, folder
    links carried over, duplicates renamed, and retries recognized. */
module BackupRestore {
  import opened Revisions

  // Derived ids stand for the hash of namespace, source key and position; the free
  // constructor is the assumption that the hash never collides.
  datatype ItemId = NoId | Given(n: nat) | Derived(namespace: nat, source: SourceKey, index: nat)
  datatype SourceKey = ById(id: ItemId) | ByContent(item: NativeItem)

  datatype Kind = Login | SecureNote | Folder | Generic | Unknown

  // present is false when the payload of the declared kind is missing. semantic is
  // the normalized content duplicates are recognized by, None where there is none;
  // detail is every other field apart from id, title and folder.
  datatype NativeItem = NativeItem(kind: Kind, present: bool, id: ItemId, title: string, folder: ItemId,
                                   semantic: Option<nat>, detail: nat)

  predicate WellFormed(x: NativeItem) { x.kind != Unknown && x.present }

  // -------------------------------------------------------------- duplicates

  datatype SemanticKey = SemanticKey(kind: Kind, content: nat)

  function KeyOf(x: NativeItem): Option<SemanticKey> {
    if WellFormed(x) && x.kind != Folder && x.semantic.Some? then Some(SemanticKey(x.kind, x.semantic.value)) else None
  }

  function CountOf(counts: map<SemanticKey, nat>, key: SemanticKey): nat {
    if key in counts then counts[key] else 0
  }

  /** How many of the items are semantically this one. */
  function Occurrences(items: seq<NativeItem>, key: SemanticKey): nat {
    if items == [] then 0 else
      var last := |items| - 1;
      Occurrences(items[..last], key) + if KeyOf(items[last]) == Some(key) then 1 else 0
  }

  ghost predicate Counts(counts: map<SemanticKey, nat>, items: seq<NativeItem>) {
    forall key :: CountOf(counts, key) == Occurrences(items, key)
  }

  function Bump(counts: map<SemanticKey, nat>, x: NativeItem): map<SemanticKey, nat> {
    match KeyOf(x) case None => counts case Some(key) => counts[key := CountOf(counts, key) + 1]
  }

  lemma {:induction false} BumpCounts(counts: map<SemanticKey, nat>, items: seq<NativeItem>, x: NativeItem)
    requires Counts(counts, items)
    ensures Counts(Bump(counts, x), items + [x])
  {
    forall key ensures CountOf(Bump(counts, x), key) == Occurrences(items + [x], key) {}
  }

  method DuplicateCounts(existing: seq<NativeItem>) returns (counts: map<SemanticKey, nat>)
    ensures Counts(counts, existing)
  {
    counts := map[];
    for j := 0 to |existing|
      invariant Counts(counts, existing[..j])
    {
      BumpCounts(counts, existing[..j], existing[j]);
      assert existing[..j + 1] == existing[..j] + [existing[j]];
      match KeyOf(existing[j]) {
        case None =>
        case Some(key) => counts := counts[key := CountOf(counts, key) + 1];
      }
    }
    assert existing[..|existing|] == existing;
  }

  function Digits(n: nat): string {
    var last := ('0' as int + n % 10) as char;
    if n < 10 then [last] else Digits(n / 10) + [last]
  }

  function Suffix(number: nat): string {
    if number == 0 then "" else if number == 1 then " (Duplicada)" else " (Duplicada) - " + Digits(number)
  }

  /** The item as it is called after number earlier semantic duplicates. */
  function Renamed(x: NativeItem, number: nat): NativeItem {
    if KeyOf(x).None? then x else x.(title := x.title + Suffix(number))
  }

  function Numbered(x: NativeItem, earlier: seq<NativeItem>): NativeItem {
    match KeyOf(x) case None => x case Some(key) => Renamed(x, Occurrences(earlier, key))
  }

  // ------------------------------------------------------ ids and folders

  function SourceOf(x: NativeItem): SourceKey {
    if x.id != NoId then ById(x.id) else ByContent(x)
  }

  /** Without a namespace (0) ids are fresh, with one they are reproducible. */
  function NewId(items: seq<NativeItem>, namespace: nat, newIds: seq<ItemId>, j: nat): ItemId
    requires j < |items| == |newIds|
  {
    if namespace == 0 then newIds[j] else Derived(namespace, SourceOf(items[j]), j)
  }

  /** New ids of the folders among the first n items; the first of a repeated id wins. */
  function Folders(items: seq<NativeItem>, namespace: nat, newIds: seq<ItemId>, n: nat): map<ItemId, ItemId>
    requires n <= |items| == |newIds|
  {
    if n == 0 then map[] else
      var before := Folders(items, namespace, newIds, n - 1);
      var x := items[n - 1];
      if x.id != NoId && x.kind == Folder && x.id !in before then before[x.id := NewId(items, namespace, newIds, n - 1)]
      else before
  }

  function Relinked(x: NativeItem, folders: map<ItemId, ItemId>): NativeItem {
    if x.kind == Folder then x
    else x.(folder := if x.folder in folders then folders[x.folder] else NoId)
  }

  function PreparedItem(items: seq<NativeItem>, namespace: nat, newIds: seq<ItemId>, j: nat): NativeItem
    requires j < |items| == |newIds|
  {
    Relinked(items[j].(id := NewId(items, namespace, newIds, j)), Folders(items, namespace, newIds, |items|))
  }

  /** The existing item of each id; a later one of the same id wins. */
  function IndexById(existing: seq<NativeItem>, n: nat): map<ItemId, NativeItem>
    requires n <= |existing|
  {
    if n == 0 then map[] else
      var before := IndexById(existing, n - 1);
      if existing[n - 1].id != NoId then before[existing[n - 1].id := existing[n - 1]] else before
  }

  /** Equal but for the title. */
  predicate SameItem(a: NativeItem, b: NativeItem) {
    a.(title := "") == b.(title := "")
  }

  // --------------------------------------------------------------- preview

  datatype ImportCounts = ImportCounts(logins: nat, notes: nat, folders: nat, generic: nat)
  datatype Preview = Preview(items: seq<NativeItem>, counts: ImportCounts, errors: seq<nat>)

  const NOTHING := Preview([], ImportCounts(0, 0, 0, 0), [])

  function Tallied(c: ImportCounts, kind: Kind): ImportCounts {
    match kind
    case Login => c.(logins := c.logins + 1)
    case SecureNote => c.(notes := c.notes + 1)
    case Folder => c.(folders := c.folders + 1)
    case Generic => c.(generic := c.generic + 1)
    case Unknown => c
  }
  datatype RestoreError = InvalidItem

  datatype Verdict = Restore | Skip | Changed

  function Judge(namespace: nat, known: map<ItemId, NativeItem>, x: NativeItem): Verdict {
    if namespace == 0 || x.id !in known then Restore
    else if SameItem(known[x.id], x) then Skip
    else Changed
  }

  /** The preview over the first n prepared items. */
  function Collect(items: seq<NativeItem>, existing: seq<NativeItem>, namespace: nat, newIds: seq<ItemId>, n: nat): Preview
    requires n <= |items| == |newIds|
  {
    if n == 0 then NOTHING else
      var before := Collect(items, existing, namespace, newIds, n - 1);
      var x := PreparedItem(items, namespace, newIds, n - 1);
      match Judge(namespace, IndexById(existing, |existing|), x)
      case Restore => before.(items := before.items + [Numbered(x, existing + before.items)], counts := Tallied(before.counts, x.kind))
      case Skip => before
      case Changed => before.(errors := before.errors + [n])
  }

  ghost predicate Readable(items: seq<NativeItem>, existing: seq<NativeItem>, namespace: nat) {
    && (forall j :: 0 <= j < |items| ==> WellFormed(items[j]))
    && (namespace != 0 ==> forall j :: 0 <= j < |existing| ==> WellFormed(existing[j]))
  }

  ghost function Prepare(items: seq<NativeItem>, existing: seq<NativeItem>, namespace: nat, newIds: seq<ItemId>): Result<Preview, RestoreError>
    requires |items| == |newIds|
  {
    if Readable(items, existing, namespace) then Ok(Collect(items, existing, namespace, newIds, |items|)) else Err(InvalidItem)
  }

  method AllWellFormed(items: seq<NativeItem>) returns (ok: bool)
    ensures ok <==> forall j :: 0 <= j < |items| ==> WellFormed(items[j])
  {
    for j := 0 to |items|
      invariant forall i :: 0 <= i < j ==> WellFormed(items[i])
    {
      if !WellFormed(items[j]) { return false; }
    }
    return true;
  }

  method IndexExisting(existing: seq<NativeItem>) returns (known: map<ItemId, NativeItem>)
    ensures known == IndexById(existing, |existing|)
  {
    known := map[];
    for j := 0 to |existing|
      invariant known == IndexById(existing, j)
    {
      if existing[j].id != NoId { known := known[existing[j].id := existing[j]]; }
    }
  }

  /** First pass: new ids, and the new id of every source folder. */
  method AssignIds(items: seq<NativeItem>, namespace: nat, newIds: seq<ItemId>)
    returns (prepared: seq<NativeItem>, folders: map<ItemId, ItemId>)
    requires |items| == |newIds|
    ensures |prepared| == |items| && folders == Folders(items, namespace, newIds, |items|)
    ensures forall j :: 0 <= j < |items| ==> prepared[j] == items[j].(id := NewId(items, namespace, newIds, j))
  {
    prepared, folders := [], map[];
    for j := 0 to |items|
      invariant |prepared| == j && folders == Folders(items, namespace, newIds, j)
      invariant forall i :: 0 <= i < j ==> prepared[i] == items[i].(id := NewId(items, namespace, newIds, i))
    {
      var newId := NewId(items, namespace, newIds, j);
      if items[j].id != NoId {
        if items[j].kind == Folder {
          if items[j].id !in folders { folders := folders[items[j].id := newId]; }
        }
      }
      prepared := prepared + [items[j].(id := newId)];
    }
  }

  /** Second pass: links to restored folders follow them, others are cleared. */
  method RemapFolders(items: seq<NativeItem>, folders: map<ItemId, ItemId>) returns (linked: seq<NativeItem>)
    ensures |linked| == |items| && forall j :: 0 <= j < |items| ==> linked[j] == Relinked(items[j], folders)
  {
    linked := [];
    for j := 0 to |items|
      invariant |linked| == j && forall i :: 0 <= i < j ==> linked[i] == Relinked(items[i], folders)
    {
      var x := items[j];
      if x.kind != Folder {
        if x.folder in folders {
          x := x.(folder := folders[x.folder]);
        } else if x.folder != NoId {
          x := x.(folder := NoId);
        }
      }
      linked := linked + [x];
    }
  }

  method NameDuplicate(x: NativeItem, counts: map<SemanticKey, nat>) returns (named: NativeItem, after: map<SemanticKey, nat>)
    ensures after == Bump(counts, x)
    ensures named == match KeyOf(x) case None => x case Some(key) => Renamed(x, CountOf(counts, key))
  {
    named, after := x, counts;
    match KeyOf(x) {
      case None =>
      case Some(key) =>
        var number := CountOf(counts, key);
        if number > 0 {
          var suffix := " (Duplicada)";
          if number > 1 { suffix := " (Duplicada) - " + Digits(number); }
          named := x.(title := x.title + suffix);
        } else {
          assert x.title + Suffix(0) == x.title;
        }
        after := counts[key := number + 1];
    }
  }

  /** Third pass: known items are skipped or reported, the others named and kept. */
  method Screen(items: seq<NativeItem>, existing: seq<NativeItem>, namespace: nat, ghost newIds: seq<ItemId>,
                prepared: seq<NativeItem>, known: map<ItemId, NativeItem>) returns (preview: Preview)
    requires |prepared| == |items| == |newIds|
    requires forall j :: 0 <= j < |items| ==> prepared[j] == PreparedItem(items, namespace, newIds, j)
    requires namespace != 0 ==> known == IndexById(existing, |existing|)
    ensures preview == Collect(items, existing, namespace, newIds, |items|)
  {
    var counts := DuplicateCounts(existing);
    assert existing + [] == existing;
    preview := NOTHING;
    for j := 0 to |prepared|
      invariant preview == Collect(items, existing, namespace, newIds, j)
      invariant Counts(counts, existing + preview.items)
    {
      var x := prepared[j];
      if namespace != 0 && x.id in known {
        if !SameItem(known[x.id], x) {
          preview := preview.(errors := preview.errors + [j + 1]);
        }
      } else {
        var named, after := NameDuplicate(x, counts);
        assert named == Numbered(x, existing + preview.items);
        BumpKeyOnly(counts, existing + preview.items, x, named);
        assert existing + (preview.items + [named]) == existing + preview.items + [named];
        preview := preview.(items := preview.items + [named], counts := Tallied(preview.counts, x.kind));
        counts := after;
      }
    }
  }

  /** Prepares the import in three passes; an unreadable item fails the whole. */
  method PrepareImport(items: seq<NativeItem>, existing: seq<NativeItem>, namespace: nat, newIds: seq<ItemId>)
    returns (r: Result<Preview, RestoreError>)
    requires |items| == |newIds|
    ensures r == Prepare(items, existing, namespace, newIds)
    ensures r.Err? <==> (exists x :: x in items && (x.kind == Unknown || !x.present))
                        || (namespace != 0 && exists x :: x in existing && (x.kind == Unknown || !x.present))
  {
    var known: map<ItemId, NativeItem> := map[];
    if namespace != 0 {
      var existingOk := AllWellFormed(existing);
      if !existingOk { return Err(InvalidItem); }
      known := IndexExisting(existing);
    }
    var itemsOk := AllWellFormed(items);
    if !itemsOk { return Err(InvalidItem); }
    var prepared, folders := AssignIds(items, namespace, newIds);
    prepared := RemapFolders(prepared, folders);
    var preview := Screen(items, existing, namespace, newIds, prepared, known);
    r := Ok(preview);
  }

  /** Renaming does not change what an item counts as. */
  lemma {:induction false} BumpKeyOnly(counts: map<SemanticKey, nat>, items: seq<NativeItem>, x: NativeItem, named: NativeItem)
    requires Counts(counts, items) && named == Numbered(x, items)
    ensures Counts(Bump(counts, x), items + [named])
  {
    assert KeyOf(named) == KeyOf(x);
    BumpCounts(counts, items, named);
  }

  // -------------------------------------------------------------- theorems

  /** Where each restored item comes from. */
  function Origins(items: seq<NativeItem>, existing: seq<NativeItem>, namespace: nat, newIds: seq<ItemId>, n: nat): seq<nat>
    requires n <= |items| == |newIds|
  {
    if n == 0 then [] else
      var before := Origins(items, existing, namespace, newIds, n - 1);
      if Judge(namespace, IndexById(existing, |existing|), PreparedItem(items, namespace, newIds, n - 1)) == Restore
      then before + [n - 1] else before
  }

  ghost predicate RestoredFrom(items: seq<NativeItem>, namespace: nat, newIds: seq<ItemId>, out: NativeItem, j: nat)
    requires |items| == |newIds|
  {
    && j < |items|
    && out.kind == items[j].kind && out.present == items[j].present
    && out.semantic == items[j].semantic && out.detail == items[j].detail
    && out.id == NewId(items, namespace, newIds, j)
    && out.(title := items[j].title) == PreparedItem(items, namespace, newIds, j)
  }

  /** out[i] comes from items[from[i]], in the order of the backup, with the title
      numbered by the semantic duplicates before it. */
  ghost predicate Restored(items: seq<NativeItem>, existing: seq<NativeItem>, namespace: nat, newIds: seq<ItemId>,
                           n: nat, out: seq<NativeItem>, from: seq<nat>)
    requires n <= |items| == |newIds|
  {
    && |out| == |from|
    && (forall i :: 0 <= i < |from| ==> from[i] < n)
    && (forall i, j :: 0 <= i < j < |from| ==> from[i] < from[j])
    && (forall i :: 0 <= i < |out| ==> RestoredFrom(items, namespace, newIds, out[i], from[i]))
    && (forall i :: 0 <= i < |out| ==>
          out[i] == Numbered(PreparedItem(items, namespace, newIds, from[i]), existing + out[..i]))
  }

  lemma {:induction false} OneMoreRestored(items: seq<NativeItem>, existing: seq<NativeItem>, namespace: nat, newIds: seq<ItemId>,
                                           n: nat, out: seq<NativeItem>, from: seq<nat>)
    requires n < |items| == |newIds| && Restored(items, existing, namespace, newIds, n, out, from)
    ensures Restored(items, existing, namespace, newIds, n + 1,
                     out + [Numbered(PreparedItem(items, namespace, newIds, n), existing + out)], from + [n])
  {
    var x := Numbered(PreparedItem(items, namespace, newIds, n), existing + out);
    assert RestoredFrom(items, namespace, newIds, x, n);
    var more := out + [x];
    forall i | 0 <= i < |out| ensures more[i] == out[i] && more[..i] == out[..i] {}
    assert more[..|out|] == out;
  }

  /** Restored items keep their order and, apart from id, title and folder link,
      their content; each title is the original with the number of semantic
      duplicates already there. */
  lemma {:induction false} RestoreKeepsContent(items: seq<NativeItem>, existing: seq<NativeItem>, namespace: nat, newIds: seq<ItemId>, n: nat)
    requires n <= |items| == |newIds|
    ensures Restored(items, existing, namespace, newIds, n,
                     Collect(items, existing, namespace, newIds, n).items, Origins(items, existing, namespace, newIds, n))
  {
    if n > 0 {
      var m := n - 1;
      var out, from := Collect(items, existing, namespace, newIds, m).items, Origins(items, existing, namespace, newIds, m);
      RestoreKeepsContent(items, existing, namespace, newIds, m);
      if Judge(namespace, IndexById(existing, |existing|), PreparedItem(items, namespace, newIds, m)) == Restore {
        OneMoreRestored(items, existing, namespace, newIds, m, out, from);
      }
    }
  }

  function OfKind(items: seq<NativeItem>, kind: Kind): nat {
    if items == [] then 0 else OfKind(items[..|items| - 1], kind) + if items[|items| - 1].kind == kind then 1 else 0
  }

  function CountsOf(items: seq<NativeItem>): ImportCounts {
    ImportCounts(OfKind(items, Login), OfKind(items, SecureNote), OfKind(items, Folder), OfKind(items, Generic))
  }

  lemma {:induction false} OneMoreItem(items: seq<NativeItem>, x: NativeItem)
    ensures CountsOf(items + [x]) == Tallied(CountsOf(items), x.kind)
  {
    assert (items + [x])[..|items|] == items;
  }

  /** The preview's counts are those of its items, by type. */
  lemma {:induction false} CountsAreOfTheItems(items: seq<NativeItem>, existing: seq<NativeItem>, namespace: nat, newIds: seq<ItemId>, n: nat)
    requires n <= |items| == |newIds|
    ensures Collect(items, existing, namespace, newIds, n).counts == CountsOf(Collect(items, existing, namespace, newIds, n).items)
  {
    if n > 0 {
      CountsAreOfTheItems(items, existing, namespace, newIds, n - 1);
      var before, x := Collect(items, existing, namespace, newIds, n - 1).items, PreparedItem(items, namespace, newIds, n - 1);
      OneMoreItem(before, Numbered(x, existing + before));
    }
  }

  lemma {:induction false} DigitsDiffer(a: nat, b: nat)
    requires a != b
    ensures Digits(a) != Digits(b)
  {
    var x, y := Digits(a), Digits(b);
    if x == y {
      assert x[|x| - 1] == y[|y| - 1];
      assert a % 10 == b % 10;
      if a >= 10 && b >= 10 {
        assert x[..|x| - 1] == Digits(a / 10) && y[..|y| - 1] == Digits(b / 10);
        DigitsDiffer(a / 10, b / 10);
      }
    }
  }

  lemma {:induction false} SuffixesDiffer(title: string, a: nat, b: nat)
    requires a < b
    ensures title + Suffix(a) != title + Suffix(b)
  {
    var x, y := title + Suffix(a), title + Suffix(b);
    if x == y {
      assert Suffix(a) == x[|title|..] && Suffix(b) == y[|title|..];
      if a > 1 {
        assert Digits(a) == Suffix(a)[15..] && Digits(b) == Suffix(b)[15..];
        DigitsDiffer(a, b);
      }
    }
  }

  lemma {:induction false} CountGrows(existing: seq<NativeItem>, out: seq<NativeItem>, i: nat, j: nat, key: SemanticKey)
    requires i < j <= |out| && KeyOf(out[i]) == Some(key)
    ensures Occurrences(existing + out[..i], key) < Occurrences(existing + out[..j], key)
  {
    assert existing + out[..j] == existing + out[..j - 1] + [out[j - 1]];
    if i < j - 1 { CountGrows(existing, out, i, j - 1, key); }
  }

  lemma {:induction false} NumberedTitlesDiffer(existing: seq<NativeItem>, xs: seq<NativeItem>, out: seq<NativeItem>, i: nat, j: nat)
    requires i < j < |xs| == |out|
    requires forall k :: 0 <= k < |out| ==> out[k] == Numbered(xs[k], existing + out[..k])
    requires xs[i].title == xs[j].title && KeyOf(xs[i]) == KeyOf(xs[j]) && KeyOf(xs[i]).Some?
    ensures out[i].title != out[j].title
  {
    var key := KeyOf(xs[i]).value;
    assert KeyOf(out[i]) == Some(key);
    CountGrows(existing, out, i, j, key);
    SuffixesDiffer(xs[i].title, Occurrences(existing + out[..i], key), Occurrences(existing + out[..j], key));
  }

  /** Restored duplicates of one title end up with different titles. */
  lemma {:induction false} DuplicateTitlesDiffer(items: seq<NativeItem>, existing: seq<NativeItem>, namespace: nat, newIds: seq<ItemId>)
    requires |items| == |newIds|
    ensures var out := Collect(items, existing, namespace, newIds, |items|).items;
            var from := Origins(items, existing, namespace, newIds, |items|);
            && |out| == |from| && (forall i :: 0 <= i < |from| ==> from[i] < |items|)
            && forall i, j :: 0 <= i < j < |out| && KeyOf(out[i]) == KeyOf(out[j]) && KeyOf(out[i]).Some?
                              && items[from[i]].title == items[from[j]].title
                              ==> out[i].title != out[j].title
  {
    var out := Collect(items, existing, namespace, newIds, |items|).items;
    var from := Origins(items, existing, namespace, newIds, |items|);
    RestoreKeepsContent(items, existing, namespace, newIds, |items|);
    var xs := seq(|from|, i requires 0 <= i < |from| => PreparedItem(items, namespace, newIds, from[i]));
    forall i, j | 0 <= i < j < |out| && KeyOf(out[i]) == KeyOf(out[j]) && KeyOf(out[i]).Some?
                  && items[from[i]].title == items[from[j]].title
      ensures out[i].title != out[j].title
    {
      assert xs[i].title == xs[j].title && KeyOf(xs[i]) == KeyOf(out[i]) && KeyOf(xs[j]) == KeyOf(out[j]);
      NumberedTitlesDiffer(existing, xs, out, i, j);
    }
  }

  lemma {:induction false} FolderTarget(items: seq<NativeItem>, namespace: nat, newIds: seq<ItemId>, n: nat, f: ItemId) returns (j: nat)
    requires n <= |items| == |newIds| && f in Folders(items, namespace, newIds, n)
    ensures j < n && items[j].kind == Folder && items[j].id == f && f != NoId
    ensures Folders(items, namespace, newIds, n)[f] == NewId(items, namespace, newIds, j)
    ensures forall i :: 0 <= i < j ==> !(items[i].kind == Folder && items[i].id == f)
  {
    if f in Folders(items, namespace, newIds, n - 1) {
      j := FolderTarget(items, namespace, newIds, n - 1, f);
    } else {
      j := n - 1;
      NotYetAFolder(items, namespace, newIds, n - 1, f);
    }
  }

  lemma {:induction false} NotYetAFolder(items: seq<NativeItem>, namespace: nat, newIds: seq<ItemId>, n: nat, f: ItemId)
    requires n <= |items| == |newIds| && f != NoId && f !in Folders(items, namespace, newIds, n)
    ensures forall i :: 0 <= i < n ==> !(items[i].kind == Folder && items[i].id == f)
  {
    if n > 0 { NotYetAFolder(items, namespace, newIds, n - 1, f); }
  }

  /** Prepared item j is in the preview, or the vault has it already, unchanged or
      reported as changed. */
  ghost predicate Placed(known: map<ItemId, NativeItem>, namespace: nat, x: NativeItem, j: nat, out: Preview) {
    || (exists i :: 0 <= i < |out.items| && SameItem(out.items[i], x))
    || (namespace != 0 && x.id in known && (SameItem(known[x.id], x) || j + 1 in out.errors))
  }

  lemma {:induction false} StaysPlaced(known: map<ItemId, NativeItem>, namespace: nat, x: NativeItem, j: nat, before: Preview, after: Preview)
    requires Placed(known, namespace, x, j, before)
    requires before.items <= after.items && before.errors <= after.errors
    ensures Placed(known, namespace, x, j, after)
  {
    if i :| 0 <= i < |before.items| && SameItem(before.items[i], x) {
      assert after.items[i] == before.items[i];
    }
  }

  lemma {:induction false} RestoredOrKnown(items: seq<NativeItem>, existing: seq<NativeItem>, namespace: nat, newIds: seq<ItemId>, n: nat, j: nat)
    requires j < n <= |items| == |newIds|
    ensures Placed(IndexById(existing, |existing|), namespace, PreparedItem(items, namespace, newIds, j), j,
                   Collect(items, existing, namespace, newIds, n))
  {
    var x, known := PreparedItem(items, namespace, newIds, j), IndexById(existing, |existing|);
    var out := Collect(items, existing, namespace, newIds, n);
    if j < n - 1 {
      RestoredOrKnown(items, existing, namespace, newIds, n - 1, j);
      StaysPlaced(known, namespace, x, j, Collect(items, existing, namespace, newIds, n - 1), out);
    } else if Judge(namespace, known, x) == Restore {
      assert SameItem(out.items[|out.items| - 1], x);
    }
  }

  /** The link of an item whose source link was folder f: the new id of the first folder
      f of the backup, which is in the output, or already in the vault as a folder, or
      itself reported as changed there. */
  ghost predicate LinkIsClosed(items: seq<NativeItem>, existing: seq<NativeItem>, namespace: nat, newIds: seq<ItemId>,
                               out: Preview, link: ItemId, f: ItemId)
    requires |items| == |newIds|
  {
    var known := IndexById(existing, |existing|);
    exists j {:trigger NewId(items, namespace, newIds, j)} :: 0 <= j < |items|
      && items[j].kind == Folder && items[j].id == f && link == NewId(items, namespace, newIds, j)
      && (forall i :: 0 <= i < j ==> !(items[i].kind == Folder && items[i].id == f))
      && ((exists k :: 0 <= k < |out.items| && out.items[k].kind == Folder && out.items[k].id == link)
          || (namespace != 0 && link in known && (known[link].kind == Folder || j + 1 in out.errors)))
  }

  /** Folder links stay closed: a restored item's link is empty, or names the first
      folder of that id in the backup, which is in the output or already there. */
  lemma {:induction false} FolderLinksAreClosed(items: seq<NativeItem>, existing: seq<NativeItem>, namespace: nat, newIds: seq<ItemId>, i: nat)
    requires |items| == |newIds| && i < |Collect(items, existing, namespace, newIds, |items|).items|
    requires Collect(items, existing, namespace, newIds, |items|).items[i].kind != Folder
    ensures var out := Collect(items, existing, namespace, newIds, |items|);
            var from := Origins(items, existing, namespace, newIds, |items|);
            && i < |from| && from[i] < |items|
            && (out.items[i].folder == NoId
                || LinkIsClosed(items, existing, namespace, newIds, out, out.items[i].folder, items[from[i]].folder))
  {
    RestoreKeepsContent(items, existing, namespace, newIds, |items|);
    var out := Collect(items, existing, namespace, newIds, |items|);
    var from := Origins(items, existing, namespace, newIds, |items|);
    assert RestoredFrom(items, namespace, newIds, out.items[i], from[i]);
    var source := items[from[i]];
    if source.folder in Folders(items, namespace, newIds, |items|) {
      var j := FolderTarget(items, namespace, newIds, |items|, source.folder);
      RestoredOrKnown(items, existing, namespace, newIds, |items|, j);
      assert out.items[i].folder == NewId(items, namespace, newIds, j);
    }
  }

  /** Item f of the backup is its first folder of that id. */
  ghost predicate FirstFolder(items: seq<NativeItem>, f: nat, id: ItemId) {
    && f < |items| && items[f].kind == Folder && items[f].id == id && id != NoId
    && forall i :: 0 <= i < f ==> !(items[i].kind == Folder && items[i].id == id)
  }

  lemma {:induction false} FoldersHasFirst(items: seq<NativeItem>, namespace: nat, newIds: seq<ItemId>, n: nat, f: nat, id: ItemId)
    requires f < n <= |items| == |newIds| && FirstFolder(items, f, id)
    ensures id in Folders(items, namespace, newIds, n) && Folders(items, namespace, newIds, n)[id] == NewId(items, namespace, newIds, f)
  {
    if f < n - 1 {
      FoldersHasFirst(items, namespace, newIds, n - 1, f, id);
    } else if id in Folders(items, namespace, newIds, n - 1) {
      var j := FolderTarget(items, namespace, newIds, n - 1, id);
    }
  }

  /** The new id of item j, without the functions that compute it. */
  ghost predicate HasNewId(x: NativeItem, items: seq<NativeItem>, namespace: nat, newIds: seq<ItemId>, j: nat)
    requires j < |items| == |newIds|
  {
    x.id == if namespace == 0 then newIds[j]
            else Derived(namespace, if items[j].id != NoId then ById(items[j].id) else ByContent(items[j]), j)
  }

  /** Every restored item but a folder is linked exactly to what its source was linked to:
      to the first folder of that id in the backup under its new id, or to nothing when the
      backup has no such folder. A folder keeps whatever its source carried. */
  lemma {:induction false} FolderLinksAreKept(items: seq<NativeItem>, existing: seq<NativeItem>, namespace: nat, newIds: seq<ItemId>, i: nat)
    requires |items| == |newIds| && i < |Collect(items, existing, namespace, newIds, |items|).items|
    ensures var x := Collect(items, existing, namespace, newIds, |items|).items[i];
            var from := Origins(items, existing, namespace, newIds, |items|);
            && i < |from| && from[i] < |items| && HasNewId(x, items, namespace, newIds, from[i])
            && var source := items[from[i]];
            if source.kind == Folder then x.folder == source.folder
            else && (forall f :: FirstFolder(items, f, source.folder) ==> x.folder == NewId(items, namespace, newIds, f))
                 && ((forall f :: 0 <= f < |items| ==> !(items[f].kind == Folder && items[f].id == source.folder && source.folder != NoId)) ==>
                       x.folder == NoId)
  {
    RestoreKeepsContent(items, existing, namespace, newIds, |items|);
    var x := Collect(items, existing, namespace, newIds, |items|).items[i];
    var from := Origins(items, existing, namespace, newIds, |items|);
    assert RestoredFrom(items, namespace, newIds, x, from[i]);
    var source := items[from[i]];
    forall f | FirstFolder(items, f, source.folder) && source.kind != Folder ensures x.folder == NewId(items, namespace, newIds, f) {
      FoldersHasFirst(items, namespace, newIds, |items|, f, source.folder);
    }
    if source.folder in Folders(items, namespace, newIds, |items|) {
      var j := FolderTarget(items, namespace, newIds, |items|, source.folder);
    }
  }

  /** A source link to a folder of the backup is never lost. */
  lemma {:induction false} FirstFolderExists(items: seq<NativeItem>, n: nat, id: ItemId) returns (f: nat)
    requires n < |items| && items[n].kind == Folder && items[n].id == id && id != NoId
    ensures f <= n && FirstFolder(items, f, id)
  {
    if i :| 0 <= i < n && items[i].kind == Folder && items[i].id == id {
      f := FirstFolderExists(items, i, id);
    } else {
      f := n;
    }
  }

  // ---------------------------------------------------------------- titles

  /** Semantically the same: of one kind that is named, with one content. */
  predicate Duplicates(a: NativeItem, b: NativeItem) {
    && a.kind == b.kind && a.kind in {Login, SecureNote, Generic}
    && a.present && b.present && a.semantic.Some? && a.semantic == b.semantic
  }

  function PlacesOf(items: seq<NativeItem>, x: NativeItem): set<nat> {
    set k | 0 <= k < |items| && Duplicates(items[k], x)
  }

  lemma {:induction false} OccurrencesCount(items: seq<NativeItem>, x: NativeItem)
    requires KeyOf(x).Some?
    ensures Occurrences(items, KeyOf(x).value) == |PlacesOf(items, x)|
  {
    if items != [] {
      var last := |items| - 1;
      OccurrencesCount(items[..last], x);
      var before := PlacesOf(items[..last], x);
      assert PlacesOf(items, x) == if Duplicates(items[last], x) then before + {last} else before;
    }
  }

  /** The number a string of decimal digits denotes. */
  function Value(digits: string): int {
    if digits == "" then 0 else Value(digits[..|digits| - 1]) * 10 + (digits[|digits| - 1] as int - '0' as int)
  }

  lemma {:induction false} DigitsValue(n: nat)
    ensures Value(Digits(n)) == n && Digits(n) != ""
    ensures n > 0 ==> Digits(n)[0] != '0'
    ensures forall k :: 0 <= k < |Digits(n)| ==> '0' <= Digits(n)[k] <= '9'
  {
    var d := Digits(n);
    if n >= 10 {
      DigitsValue(n / 10);
      assert d[..|d| - 1] == Digits(n / 10);
    } else {
      assert d[..0] == "";
    }
  }

  /** The number in decimal digits, without leading zeros. */
  ghost predicate Decimal(digits: string, n: nat) {
    && digits != "" && digits[0] != '0' && Value(digits) == n
    && forall k :: 0 <= k < |digits| ==> '0' <= digits[k] <= '9'
  }

  /** A restored item keeps its title when no item before it is semantically the same, in
      the vault or restored; the second gets a suffix, and each further one its number. */
  lemma {:induction false} DuplicatesAreNumbered(items: seq<NativeItem>, existing: seq<NativeItem>, namespace: nat, newIds: seq<ItemId>, i: nat)
    requires |items| == |newIds| && Readable(items, existing, namespace)
    requires i < |Collect(items, existing, namespace, newIds, |items|).items|
    ensures var out := Collect(items, existing, namespace, newIds, |items|).items;
            var from := Origins(items, existing, namespace, newIds, |items|);
            && i < |from| && from[i] < |items|
            && var source := items[from[i]];
            var number := |PlacesOf(existing + out[..i], source)|;
            && (number == 0 ==> out[i].title == source.title)
            && (number == 1 ==> out[i].title == source.title + " (Duplicada)")
            && (number > 1 ==> exists d :: Decimal(d, number) && out[i].title == source.title + " (Duplicada) - " + d)
  {
    RestoreKeepsContent(items, existing, namespace, newIds, |items|);
    var out := Collect(items, existing, namespace, newIds, |items|).items;
    var from := Origins(items, existing, namespace, newIds, |items|);
    var x, source, earlier := PreparedItem(items, namespace, newIds, from[i]), items[from[i]], existing + out[..i];
    assert out[i] == Numbered(x, earlier);
    NumberedTitle(x, source, earlier);
  }

  lemma {:induction false} NumberedTitle(x: NativeItem, source: NativeItem, earlier: seq<NativeItem>)
    requires WellFormed(source) && x.title == source.title
    requires x.kind == source.kind && x.present == source.present && x.semantic == source.semantic
    ensures var number := |PlacesOf(earlier, source)|; var title := Numbered(x, earlier).title;
            && (number == 0 ==> title == source.title)
            && (number == 1 ==> title == source.title + " (Duplicada)")
            && (number > 1 ==> exists d :: Decimal(d, number) && title == source.title + " (Duplicada) - " + d)
  {
    var number := |PlacesOf(earlier, source)|;
    if KeyOf(x).None? {
      assert PlacesOf(earlier, source) == {};
    } else {
      OccurrencesCount(earlier, source);
      assert source.title + "" == source.title;
      DigitsValue(number);
      if number > 1 {
        assert Decimal(Digits(number), number);
        assert source.title + (" (Duplicada) - " + Digits(number)) == source.title + " (Duplicada) - " + Digits(number);
      }
    }
  }

  // ------------------------------------------- what becomes of every item

  /** Existing item k is the last of that id. */
  ghost predicate LastOf(existing: seq<NativeItem>, k: int, id: ItemId) {
    0 <= k < |existing| && existing[k].id == id && forall i :: k < i < |existing| ==> existing[i].id != id
  }

  lemma {:induction false} NotIndexed(existing: seq<NativeItem>, n: nat, id: ItemId)
    requires n <= |existing| && id != NoId
    ensures id in IndexById(existing, n) <==> exists k :: 0 <= k < n && existing[k].id == id
  {
    if n > 0 { NotIndexed(existing, n - 1, id); }
  }

  lemma {:induction false} LastIsIndexed(existing: seq<NativeItem>, n: nat, k: nat, id: ItemId)
    requires k < n <= |existing| && id != NoId && existing[k].id == id
    requires forall i :: k < i < n ==> existing[i].id != id
    ensures id in IndexById(existing, n) && IndexById(existing, n)[id] == existing[k]
  {
    if k < n - 1 { LastIsIndexed(existing, n - 1, k, id); }
  }

  /** The item in the vault differs from the one the backup would restore, in anything but
      its title. */
  ghost predicate Differs(a: NativeItem, b: NativeItem) {
    || a.kind != b.kind || a.present != b.present || a.id != b.id || a.folder != b.folder
    || a.semantic != b.semantic || a.detail != b.detail
  }

  lemma {:induction false} JudgedAs(items: seq<NativeItem>, existing: seq<NativeItem>, namespace: nat, newIds: seq<ItemId>, n: nat, j: nat)
    requires j < n <= |items| == |newIds|
    ensures var verdict := Judge(namespace, IndexById(existing, |existing|), PreparedItem(items, namespace, newIds, j));
            && (j in Origins(items, existing, namespace, newIds, n) <==> verdict == Restore)
            && (j + 1 in Collect(items, existing, namespace, newIds, n).errors <==> verdict == Changed)
  {
    if j < n - 1 {
      JudgedAs(items, existing, namespace, newIds, n - 1, j);
    } else {
      OnlyEarlierItems(items, existing, namespace, newIds, j);
    }
  }

  lemma {:induction false} OnlyEarlierItems(items: seq<NativeItem>, existing: seq<NativeItem>, namespace: nat, newIds: seq<ItemId>, n: nat)
    requires n <= |items| == |newIds|
    ensures forall k :: k in Origins(items, existing, namespace, newIds, n) ==> k < n
    ensures forall e :: e in Collect(items, existing, namespace, newIds, n).errors ==> e <= n
  {
    if n > 0 { OnlyEarlierItems(items, existing, namespace, newIds, n - 1); }
  }

  /** Every item of the backup is restored, left alone or reported: without a namespace
      restored; with one, restored exactly when the vault has no item of its derived id,
      and reported exactly when the vault's item of that id differs in any detail. */
  lemma {:induction false} EveryItemIsJudged(items: seq<NativeItem>, existing: seq<NativeItem>, namespace: nat, newIds: seq<ItemId>, j: nat)
    requires j < |items| == |newIds|
    ensures var x := PreparedItem(items, namespace, newIds, j);
            && (j in Origins(items, existing, namespace, newIds, |items|) <==>
                  namespace == 0 || forall k :: 0 <= k < |existing| ==> existing[k].id != x.id)
            && (j + 1 in Collect(items, existing, namespace, newIds, |items|).errors <==>
                  namespace != 0 && exists k :: LastOf(existing, k, x.id) && Differs(existing[k], x))
  {
    JudgedAs(items, existing, namespace, newIds, |items|, j);
    var x := PreparedItem(items, namespace, newIds, j);
    if namespace != 0 {
      var known := IndexById(existing, |existing|);
      NotIndexed(existing, |existing|, x.id);
      if x.id in known { var k := LastExists(existing, x.id); }
      forall k | LastOf(existing, k, x.id) ensures x.id in known && known[x.id] == existing[k] {
        LastIsIndexed(existing, |existing|, k, x.id);
      }
    }
  }

  lemma {:induction false} LastExists(existing: seq<NativeItem>, id: ItemId) returns (k: int)
    requires exists i :: 0 <= i < |existing| && existing[i].id == id
    ensures LastOf(existing, k, id)
  {
    var last := |existing| - 1;
    if existing[last].id == id {
      k := last;
    } else {
      var i :| 0 <= i < |existing| && existing[i].id == id;
      assert existing[..last][i].id == id;
      k := LastExists(existing[..last], id);
    }
  }

  // ------------------------------------------------------------------ retry

  /** merged holds the items of a in their order and, anywhere between them, those of b. */
  ghost predicate Interleaves(a: seq<NativeItem>, b: multiset<NativeItem>, merged: seq<NativeItem>)
    decreases |merged|
  {
    if merged == [] then a == [] && b == multiset{} else
      var init, last := merged[..|merged| - 1], merged[|merged| - 1];
      || (a != [] && a[|a| - 1] == last && Interleaves(a[..|a| - 1], b, init))
      || (last in b && Interleaves(a, b - multiset{last}, init))
  }

  lemma {:induction false} AloneInterleaves(a: seq<NativeItem>)
    ensures Interleaves(a, multiset{}, a)
    decreases |a|
  {
    if a != [] { AloneInterleaves(a[..|a| - 1]); }
  }

  /** The added items may stand at the end, for one. */
  lemma {:induction false} AppendedInterleaves(a: seq<NativeItem>, b: seq<NativeItem>)
    ensures Interleaves(a, multiset(b), a + b)
    decreases |b|
  {
    if b == [] {
      AloneInterleaves(a);
      assert a + b == a;
    } else {
      var init, last := b[..|b| - 1], b[|b| - 1];
      AppendedInterleaves(a, init);
      assert b == init + [last];
      LastInterleaves(a, multiset(init), a + init, last);
      assert a + b == a + init + [last];
    }
  }

  lemma {:induction false} LastInterleaves(a: seq<NativeItem>, b: multiset<NativeItem>, merged: seq<NativeItem>, last: NativeItem)
    requires Interleaves(a, b, merged)
    ensures Interleaves(a, b + multiset{last}, merged + [last])
  {
    assert (merged + [last])[..|merged|] == merged;
    assert b + multiset{last} - multiset{last} == b;
  }

  lemma {:induction false} InterleavedMembers(a: seq<NativeItem>, b: multiset<NativeItem>, merged: seq<NativeItem>)
    requires Interleaves(a, b, merged)
    ensures forall x :: x in merged ==> x in a || x in b
    decreases |merged|
  {
    if merged != [] {
      var init, last := merged[..|merged| - 1], merged[|merged| - 1];
      if a != [] && a[|a| - 1] == last && Interleaves(a[..|a| - 1], b, init) {
        InterleavedMembers(a[..|a| - 1], b, init);
      } else {
        InterleavedMembers(a, b - multiset{last}, init);
      }
    }
  }

  /** after finds what before did, and the items of b. */
  ghost predicate Finds(before: map<ItemId, NativeItem>, b: multiset<NativeItem>, after: map<ItemId, NativeItem>) {
    && (forall x :: x in before ==> x in after && after[x] == before[x])
    && (forall x :: x in b ==> x.id in after && after[x.id] == x)
  }

  ghost predicate OtherIds(known: map<ItemId, NativeItem>, b: multiset<NativeItem>) {
    && (forall x, y :: x in b && y in b && x.id == y.id ==> x == y)
    && forall x :: x in b ==> x.id != NoId && x.id !in known
  }

  /** The index with one more item. */
  function Extended(known: map<ItemId, NativeItem>, x: NativeItem): map<ItemId, NativeItem> {
    if x.id != NoId then known[x.id := x] else known
  }

  lemma {:induction false} IndexOfLast(init: seq<NativeItem>, last: NativeItem)
    ensures IndexById(init + [last], |init| + 1) == Extended(IndexById(init, |init|), last)
  {
    IndexPrefix(init, [last], |init|);
  }

  lemma {:induction false} FindsExisting(before: map<ItemId, NativeItem>, b: multiset<NativeItem>, after: map<ItemId, NativeItem>, x: NativeItem)
    requires OtherIds(Extended(before, x), b)
    ensures OtherIds(before, b)
    ensures Finds(before, b, after) ==> Finds(Extended(before, x), b, Extended(after, x))
  {
  }

  lemma {:induction false} FindsAdded(before: map<ItemId, NativeItem>, b: multiset<NativeItem>, after: map<ItemId, NativeItem>, x: NativeItem)
    requires OtherIds(before, b) && x in b
    ensures OtherIds(before, b - multiset{x})
    ensures Finds(before, b - multiset{x}, after) ==> Finds(before, b, Extended(after, x))
  {
  }

  /** Items of other ids, wherever they stand, are found beside the existing ones. */
  lemma {:induction false} IndexAfterRestore(a: seq<NativeItem>, b: multiset<NativeItem>, merged: seq<NativeItem>)
    requires Interleaves(a, b, merged) && OtherIds(IndexById(a, |a|), b)
    ensures Finds(IndexById(a, |a|), b, IndexById(merged, |merged|))
    decreases |merged|
  {
    if merged != [] {
      var init, last := merged[..|merged| - 1], merged[|merged| - 1];
      assert merged == init + [last];
      IndexOfLast(init, last);
      var after := IndexById(init, |init|);
      if a != [] && a[|a| - 1] == last && Interleaves(a[..|a| - 1], b, init) {
        var front := a[..|a| - 1];
        assert a == front + [last];
        IndexOfLast(front, last);
        FindsExisting(IndexById(front, |front|), b, after, last);
        IndexAfterRestore(front, b, init);
      } else {
        FindsAdded(IndexById(a, |a|), b, after, last);
        IndexAfterRestore(a, b - multiset{last}, init);
      }
    }
  }

  lemma {:induction false} IndexPrefix(existing: seq<NativeItem>, added: seq<NativeItem>, n: nat)
    requires n <= |existing|
    ensures IndexById(existing + added, n) == IndexById(existing, n)
  {
    if n > 0 { IndexPrefix(existing, added, n - 1); }
  }

  lemma {:induction false} AllSkipped(items: seq<NativeItem>, existing: seq<NativeItem>, namespace: nat, newIds: seq<ItemId>, n: nat)
    requires n <= |items| == |newIds| && namespace != 0
    requires forall j :: 0 <= j < n ==>
               Judge(namespace, IndexById(existing, |existing|), PreparedItem(items, namespace, newIds, j)) == Skip
    ensures Collect(items, existing, namespace, newIds, n) == NOTHING
  {
    if n > 0 { AllSkipped(items, existing, namespace, newIds, n - 1); }
  }

  lemma {:induction false} RestoredIdsAreNew(items: seq<NativeItem>, existing: seq<NativeItem>, namespace: nat, newIds: seq<ItemId>, n: nat)
    requires n <= |items| == |newIds| && namespace != 0
    ensures forall i :: 0 <= i < |Collect(items, existing, namespace, newIds, n).items| ==>
              Collect(items, existing, namespace, newIds, n).items[i].id !in IndexById(existing, |existing|)
  {
    if n > 0 { RestoredIdsAreNew(items, existing, namespace, newIds, n - 1); }
  }

  lemma {:induction false} RestoredIdIsDerived(items: seq<NativeItem>, existing: seq<NativeItem>, namespace: nat, newIds: seq<ItemId>, i: nat)
    requires |items| == |newIds| && namespace != 0 && Readable(items, existing, namespace)
    requires i < |Collect(items, existing, namespace, newIds, |items|).items|
    ensures var from := Origins(items, existing, namespace, newIds, |items|);
            var x := Collect(items, existing, namespace, newIds, |items|).items[i];
            i < |from| && from[i] < |items| && WellFormed(x) && x.id == Derived(namespace, SourceOf(items[from[i]]), from[i])
  {
    RestoreKeepsContent(items, existing, namespace, newIds, |items|);
    var from := Origins(items, existing, namespace, newIds, |items|);
    assert RestoredFrom(items, namespace, newIds, Collect(items, existing, namespace, newIds, |items|).items[i], from[i]);
  }

  lemma {:induction false} RestoredIdsDiffer(items: seq<NativeItem>, existing: seq<NativeItem>, namespace: nat, newIds: seq<ItemId>, i: nat, j: nat)
    requires |items| == |newIds| && namespace != 0 && Readable(items, existing, namespace)
    requires i < j < |Collect(items, existing, namespace, newIds, |items|).items|
    ensures var added := Collect(items, existing, namespace, newIds, |items|).items;
            added[i].id != added[j].id
  {
    RestoreKeepsContent(items, existing, namespace, newIds, |items|);
    RestoredIdIsDerived(items, existing, namespace, newIds, i);
    RestoredIdIsDerived(items, existing, namespace, newIds, j);
  }

  ghost predicate DistinctIds(items: seq<NativeItem>) {
    forall i, j :: 0 <= i < j < |items| ==> items[i].id != items[j].id
  }

  /** Every restored item is well formed and has its own derived id. */
  lemma {:induction false} RestoredAreDistinct(items: seq<NativeItem>, existing: seq<NativeItem>, namespace: nat, newIds: seq<ItemId>)
    requires |items| == |newIds| && namespace != 0 && Readable(items, existing, namespace)
    ensures var added := Collect(items, existing, namespace, newIds, |items|).items;
            && (forall i :: 0 <= i < |added| ==> WellFormed(added[i]) && added[i].id != NoId)
            && DistinctIds(added)
  {
    var added := Collect(items, existing, namespace, newIds, |items|).items;
    forall i | 0 <= i < |added| ensures WellFormed(added[i]) && added[i].id != NoId {
      RestoredIdIsDerived(items, existing, namespace, newIds, i);
    }
    forall i, j | 0 <= i < j < |added| ensures added[i].id != added[j].id {
      RestoredIdsDiffer(items, existing, namespace, newIds, i, j);
    }
  }

  lemma {:induction false} SameIdSameItem(added: seq<NativeItem>, x: NativeItem, y: NativeItem)
    requires DistinctIds(added)
    requires x in added && y in added && x.id == y.id
    ensures x == y
  {
    var i :| 0 <= i < |added| && added[i] == x;
    var j :| 0 <= j < |added| && added[j] == y;
    assert i == j;
  }

  lemma {:induction false} DistinctAreOther(known: map<ItemId, NativeItem>, added: seq<NativeItem>)
    requires DistinctIds(added)
    requires forall i :: 0 <= i < |added| ==> added[i].id != NoId && added[i].id !in known
    ensures OtherIds(known, multiset(added))
  {
    forall x: NativeItem, y: NativeItem | x in multiset(added) && y in multiset(added) && x.id == y.id ensures x == y {
      SameIdSameItem(added, x, y);
    }
  }

  /** And a retry finds it. */
  lemma {:induction false} RestoredAreIndexed(items: seq<NativeItem>, existing: seq<NativeItem>, namespace: nat, newIds: seq<ItemId>,
                                              vault: seq<NativeItem>)
    requires |items| == |newIds| && namespace != 0 && Readable(items, existing, namespace)
    requires Interleaves(existing, multiset(Collect(items, existing, namespace, newIds, |items|).items), vault)
    ensures Readable(items, vault, namespace)
    ensures Indexed(IndexById(existing, |existing|), Collect(items, existing, namespace, newIds, |items|).items, IndexById(vault, |vault|))
  {
    var added := Collect(items, existing, namespace, newIds, |items|).items;
    RestoredAreDistinct(items, existing, namespace, newIds);
    RestoredIdsAreNew(items, existing, namespace, newIds, |items|);
    DistinctAreOther(IndexById(existing, |existing|), added);
    InterleavedMembers(existing, multiset(added), vault);
    assert forall j :: 0 <= j < |vault| ==> vault[j] in vault;
    IndexAfterRestore(existing, multiset(added), vault);
    assert forall i :: 0 <= i < |added| ==> added[i] in multiset(added);
  }

  /** after finds what before did, and the added items. */
  ghost predicate Indexed(before: map<ItemId, NativeItem>, added: seq<NativeItem>, after: map<ItemId, NativeItem>) {
    && (forall x :: x in before ==> x in after && after[x] == before[x])
    && (forall i :: 0 <= i < |added| ==> added[i].id in after && after[added[i].id] == added[i])
  }

  lemma {:induction false} RetrySkips(items: seq<NativeItem>, existing: seq<NativeItem>, namespace: nat, newIds: seq<ItemId>, after: map<ItemId, NativeItem>, j: nat)
    requires j < |items| == |newIds| && namespace != 0
    requires Collect(items, existing, namespace, newIds, |items|).errors == []
    requires Indexed(IndexById(existing, |existing|), Collect(items, existing, namespace, newIds, |items|).items, after)
    ensures Judge(namespace, after, PreparedItem(items, namespace, newIds, j)) == Skip
  {
    RestoredOrKnown(items, existing, namespace, newIds, |items|, j);
    var x := PreparedItem(items, namespace, newIds, j);
    var added := Collect(items, existing, namespace, newIds, |items|).items;
    if i :| 0 <= i < |added| && SameItem(added[i], x) {
      assert added[i].id == x.id;
    }
  }

  /** Retrying a restore is a no-op: prepared again over a vault that holds the first
      result as well, in any order among the existing items, the same backup yields no
      items and no errors, whatever was renamed. */
  lemma {:induction false} RetryIsNoOp(items: seq<NativeItem>, existing: seq<NativeItem>, namespace: nat, newIds: seq<ItemId>, again: seq<ItemId>,
                                       vault: seq<NativeItem>)
    requires |items| == |newIds| == |again| && namespace != 0
    requires Prepare(items, existing, namespace, newIds).Ok? && Prepare(items, existing, namespace, newIds).value.errors == []
    requires Interleaves(existing, multiset(Prepare(items, existing, namespace, newIds).value.items), vault)
    ensures Prepare(items, vault, namespace, again) == Ok(NOTHING)
  {
    RestoredAreIndexed(items, existing, namespace, newIds, vault);
    forall j | 0 <= j < |items|
      ensures Judge(namespace, IndexById(vault, |vault|), PreparedItem(items, namespace, again, j)) == Skip
    {
      SamePreparation(items, namespace, newIds, again, j);
      RetrySkips(items, existing, namespace, newIds, IndexById(vault, |vault|), j);
    }
    AllSkipped(items, vault, namespace, again, |items|);
  }

  lemma {:induction false} SameFolders(items: seq<NativeItem>, namespace: nat, newIds: seq<ItemId>, again: seq<ItemId>, n: nat)
    requires n <= |items| == |newIds| == |again| && namespace != 0
    ensures Folders(items, namespace, newIds, n) == Folders(items, namespace, again, n)
  {
    if n > 0 { SameFolders(items, namespace, newIds, again, n - 1); }
  }

  /** With a namespace the preparation does not depend on any fresh id. */
  lemma {:induction false} SamePreparation(items: seq<NativeItem>, namespace: nat, newIds: seq<ItemId>, again: seq<ItemId>, j: nat)
    requires j < |items| == |newIds| == |again| && namespace != 0
    ensures PreparedItem(items, namespace, newIds, j) == PreparedItem(items, namespace, again, j)
  {
    SameFolders(items, namespace, newIds, again, |items|);
  }
}
