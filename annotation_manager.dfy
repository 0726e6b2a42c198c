/** The device-side annotation cache of `AnnotationManager`: a list of
    annotations plus an id -> position index kept consistent by hand,
    with eviction at `CACHE_LIMIT` entries. The SQLite database is not
    modelled: every save or delete takes a boolean "succeeded" input,
    rows are handed in as values, and clock readings are inputs. */
module AnnotationManager {
  import opened Wrappers
  import opened Strings

  const CACHE_LIMIT: int := 1000
  const DEFAULT_HIGHLIGHT_COLOR: string := "#ffff00"
  const DEFAULT_BOOKMARK_NAME: string := ""

  const HIGHLIGHT: string := "highlight"
  const NOTE: string := "note"
  const BOOKMARK: string := "bookmark"

  /** A `QDateTime`: `None` is the null (invalid) date-time, `Some(t)` a
      time in milliseconds, the resolution of `currentDateTime()`. */
  type DateTime = Option<int>

  const MS_PER_SECOND := 1000

  /** The time `Qt::ISODate` text keeps: milliseconds are not written, so a
      time reads back at the start of its second. */
  function IsoSeconds(t: DateTime): (r: DateTime)
    ensures r.None? <==> t.None?
    ensures t.Some? ==> r.value <= t.value < r.value + MS_PER_SECOND && r.value % MS_PER_SECOND == 0
  {
    if t.None? then None else Some(t.value - t.value % MS_PER_SECOND)
  }

  /** A time with no milliseconds (or the null time). */
  predicate WholeSeconds(t: DateTime) {
    t.None? || t.value % MS_PER_SECOND == 0
  }

  /** The `Annotation` struct. `kind` is the struct's `type` field. */
  datatype Annotation = Annotation(
    id: string,
    bookId: string,
    kind: string,
    pageNumber: int,
    startPosition: int,
    endPosition: int,
    selectedText: string,
    content: string,
    color: string,
    tags: seq<string>,
    isPrivate: bool,
    createdAt: DateTime,
    updatedAt: DateTime)

  predicate IsKnownKind(kind: string) {
    kind == HIGHLIGHT || kind == NOTE || kind == BOOKMARK
  }

  // ------------------------------------------------------ QVariant mapping

  /** The `QVariant` values an annotation map can hold; `VNull` is the
      invalid variant a missing key reads as. */
  datatype Variant =
    | VNull
    | VString(s: string)
    | VInt(i: int)
    | VBool(b: bool)
    | VStringList(l: seq<string>)
    | VDateTime(t: DateTime)

  type VariantMap = map<string, Variant>

  function Get(m: VariantMap, key: string): Variant {
    if key in m then m[key] else VNull
  }

  const MIN_INT32 := -0x8000_0000
  const MAX_INT32 := 0x7FFF_FFFF

  /** `QVariant::toString`: a string as it is, an integer in decimal, a
      boolean as "true" or "false", a one-element string list as its
      element, and a null variant as "". A valid date-time has ISO 8601
      text in Qt; that text depends on the local time zone and is not
      modelled, so a date-time reads as "" here. */
  function AsString(v: Variant): string {
    match v
    case VString(s) => s
    case VInt(i) => IntToString(i)
    case VBool(b) => if b then "true" else "false"
    case VStringList(l) => if |l| == 1 then l[0] else ""
    case VDateTime(_) => ""
    case VNull => ""
  }

  /** `QString::toInt`: surrounding white space ignored, then an optional
      sign and decimal digits within the 32-bit range; 0 otherwise. */
  function StringToInt(s: string): int {
    match ParseInt(Trim(s))
    case Some(i) => if MIN_INT32 <= i <= MAX_INT32 then i else 0
    case None => 0
  }

  /** `QVariant::toInt`: an integer as it is, a boolean as 1 or 0, a
      string through `QString::toInt`; anything else reads as 0. */
  function AsInt(v: Variant): int {
    match v
    case VInt(i) => i
    case VBool(b) => if b then 1 else 0
    case VString(s) => StringToInt(s)
    case _ => 0
  }

  /** `QVariant::toBool`: a boolean as it is, an integer when non-zero, a
      string unless its lower-case form is "", "0" or "false"; anything
      else reads as false. */
  function AsBool(v: Variant): bool {
    match v
    case VBool(b) => b
    case VInt(i) => i != 0
    case VString(s) => Lower(s) != "" && Lower(s) != "0" && Lower(s) != "false"
    case _ => false
  }

  /** `QVariant::toStringList`: a string list as it is, a string as the
      list of that one string; anything else reads as the empty list. */
  function AsStringList(v: Variant): seq<string> {
    match v
    case VStringList(l) => l
    case VString(s) => [s]
    case _ => []
  }

  /** `QVariant::toDateTime` of a date-time; the parsing of a string is not
      modelled and reads as the null date-time. */
  function AsDateTime(v: Variant): DateTime {
    if v.VDateTime? then v.t else None
  }

  /** The conversions agree with one another: a value turned into text is
      read back by each typed reader, and a one-element list and its
      string convert into each other. */
  lemma ConversionsRoundTrip(i: int, b: bool, s: string)
    ensures MIN_INT32 <= i <= MAX_INT32 ==> AsInt(VString(AsString(VInt(i)))) == i
    ensures AsBool(VString(AsString(VBool(b)))) == b
    ensures AsBool(VInt(AsInt(VBool(b)))) == b
    ensures AsString(VStringList(AsStringList(VString(s)))) == s
    ensures AsStringList(VString(AsString(VStringList([s])))) == [s]
  {
    if MIN_INT32 <= i <= MAX_INT32 {
      var t := IntToString(i);
      assert t[0] == '-' || IsDigit(t[0]);
      assert IsDigit(t[|t| - 1]);
      TrimUntrimmed(t);
      ParseIntToString(i);
    }
    assert Lower("true") == "true";
    assert Lower("false") == "false";
  }

  /** `Annotation::fromVariant`: every field read from its key, a missing
      key giving the empty value. */
  function FromVariant(m: VariantMap): (a: Annotation)
    ensures "id" !in m ==> a.id == ""
    ensures "tags" !in m ==> a.tags == []
    ensures "isPrivate" !in m ==> !a.isPrivate
    ensures "createdAt" !in m ==> a.createdAt == None
  {
    Annotation(
      AsString(Get(m, "id")),
      AsString(Get(m, "bookId")),
      AsString(Get(m, "type")),
      AsInt(Get(m, "pageNumber")),
      AsInt(Get(m, "startPosition")),
      AsInt(Get(m, "endPosition")),
      AsString(Get(m, "selectedText")),
      AsString(Get(m, "content")),
      AsString(Get(m, "color")),
      AsStringList(Get(m, "tags")),
      AsBool(Get(m, "isPrivate")),
      AsDateTime(Get(m, "createdAt")),
      AsDateTime(Get(m, "updatedAt")))
  }

  /** `Annotation::toVariant`: thirteen keys, one per field. */
  function ToVariant(a: Annotation): VariantMap {
    map[
      "id" := VString(a.id),
      "bookId" := VString(a.bookId),
      "type" := VString(a.kind),
      "pageNumber" := VInt(a.pageNumber),
      "startPosition" := VInt(a.startPosition),
      "endPosition" := VInt(a.endPosition),
      "selectedText" := VString(a.selectedText),
      "content" := VString(a.content),
      "color" := VString(a.color),
      "tags" := VStringList(a.tags),
      "isPrivate" := VBool(a.isPrivate),
      "createdAt" := VDateTime(a.createdAt),
      "updatedAt" := VDateTime(a.updatedAt)]
  }

  /** `fromVariant` rebuilds from `toVariant` the very same annotation. */
  lemma VariantRoundTrip(a: Annotation)
    ensures FromVariant(ToVariant(a)) == a
  {
  }

  /** The variant list a query returns, in cache order. */
  function Variants(s: seq<Annotation>): (r: seq<VariantMap>)
    ensures |r| == |s|
    ensures forall i :: 0 <= i < |s| ==> r[i] == ToVariant(s[i])
  {
    if s == [] then []
    else
      var init := Variants(s[..|s| - 1]);
      assert forall i :: 0 <= i < |s| - 1 ==> init[i] == ToVariant(s[i]);
      init + [ToVariant(s[|s| - 1])]
  }

  // ----------------------------------------------------- database row form

  /** One row of the `annotations` table as `saveAnnotation` binds it:
      tags comma-joined, privacy stored as 1 or 0. */
  datatype Row = Row(
    id: string,
    bookId: string,
    kind: string,
    pageNumber: int,
    startPosition: int,
    endPosition: int,
    selectedText: string,
    content: string,
    color: string,
    tags: string,
    isPrivate: int,
    createdAt: DateTime,
    updatedAt: DateTime)

  function SaveTags(tags: seq<string>): string {
    Join(tags, ",")
  }

  /** An empty column reloads as no tags; anything else is split on ','. */
  function LoadTags(column: string): seq<string> {
    if column == "" then [] else Split(column, ',')
  }

  /** Tags survive a save and reload exactly when no tag holds a comma
      and the list is not the single empty tag. */
  lemma {:induction false} TagsRoundTrip(tags: seq<string>)
    ensures LoadTags(SaveTags(tags)) == tags
        <==> tags != [""] && forall k :: 0 <= k < |tags| ==> ',' !in tags[k]
  {
    var joined := SaveTags(tags);
    if tags == [""] {
      assert joined == "";
    } else if forall k :: 0 <= k < |tags| ==> ',' !in tags[k] {
      if |tags| >= 1 {
        assert joined != "" by {
          if |tags| == 1 {
            assert joined == tags[0];
            assert tags[0] != "";
          } else {
            assert joined == tags[0] + "," + Join(tags[1..], ",");
            assert |joined| > 0;
          }
        }
        SplitJoin(tags, ',');
      }
    } else {
      var k :| 0 <= k < |tags| && ',' in tags[k];
      var back := LoadTags(joined);
      SplitParts(joined, ',');
      assert forall j :: 0 <= j < |back| ==> ',' !in back[j];
      if |back| == |tags| {
        assert ',' !in back[k];
        assert back[k] != tags[k];
      }
    }
  }

  function SaveRow(a: Annotation): Row {
    Row(a.id, a.bookId, a.kind, a.pageNumber, a.startPosition, a.endPosition,
        a.selectedText, a.content, a.color, SaveTags(a.tags),
        if a.isPrivate then 1 else 0, IsoSeconds(a.createdAt), IsoSeconds(a.updatedAt))
  }

  /** The annotation `loadAnnotationsFromDatabase` builds from one row. */
  function LoadRow(r: Row): (a: Annotation)
    ensures a.id == r.id
    ensures a.isPrivate <==> r.isPrivate == 1
  {
    Annotation(r.id, r.bookId, r.kind, r.pageNumber, r.startPosition, r.endPosition,
               r.selectedText, r.content, r.color, LoadTags(r.tags),
               r.isPrivate == 1, r.createdAt, r.updatedAt)
  }

  /** A saved annotation reloads unchanged exactly when its tags do and
      both of its times fall on a whole second. */
  lemma RowRoundTrip(a: Annotation)
    ensures LoadRow(SaveRow(a)) == a
        <==> a.tags != [""] && (forall k :: 0 <= k < |a.tags| ==> ',' !in a.tags[k])
             && WholeSeconds(a.createdAt) && WholeSeconds(a.updatedAt)
  {
    TagsRoundTrip(a.tags);
    if LoadRow(SaveRow(a)) == a {
      assert LoadTags(SaveTags(a.tags)) == LoadRow(SaveRow(a)).tags;
      assert IsoSeconds(a.createdAt) == a.createdAt;
      assert IsoSeconds(a.updatedAt) == a.updatedAt;
    }
  }

  /** A record created at a time with milliseconds does not reload as it
      was cached: its times come back at the start of their second. */
  lemma FreshRecordReloadsEarlier(id: string, bookId: string, pageNumber: int, startPos: int, endPos: int,
                                  selectedText: string, color: string, now: int)
    requires now % MS_PER_SECOND != 0
    ensures var a := NewHighlight(id, bookId, pageNumber, startPos, endPos, selectedText, color, now);
      LoadRow(SaveRow(a)) != a && LoadRow(SaveRow(a)).createdAt.value < now
  {
  }

  function LoadRows(rows: seq<Row>): (r: seq<Annotation>)
    ensures |r| == |rows|
    ensures forall i :: 0 <= i < |rows| ==> r[i] == LoadRow(rows[i])
  {
    if rows == [] then [] else LoadRows(rows[..|rows| - 1]) + [LoadRow(rows[|rows| - 1])]
  }

  // -------------------------------------------------------------- records

  /** The record `createHighlight` saves. */
  function NewHighlight(id: string, bookId: string, pageNumber: int, startPos: int, endPos: int,
                        selectedText: string, color: string, now: int): (a: Annotation)
    ensures a.kind == HIGHLIGHT && a.isPrivate && a.createdAt == a.updatedAt == Some(now)
    ensures a.content == "" && a.tags == [] && a.color == color && a.selectedText == selectedText
  {
    Annotation(id, bookId, HIGHLIGHT, pageNumber, startPos, endPos, selectedText, "", color, [],
               true, Some(now), Some(now))
  }

  /** The record `createNote` saves. */
  function NewNote(id: string, bookId: string, pageNumber: int, startPos: int, endPos: int,
                   selectedText: string, noteContent: string, now: int): (a: Annotation)
    ensures a.kind == NOTE && a.isPrivate && a.createdAt == a.updatedAt == Some(now)
    ensures a.content == noteContent && a.color == "" && a.tags == []
  {
    Annotation(id, bookId, NOTE, pageNumber, startPos, endPos, selectedText, noteContent, "", [],
               true, Some(now), Some(now))
  }

  /** The content of a bookmark: its name, or "Page N" when unnamed. */
  function BookmarkTitle(pageNumber: int, name: string): (c: string)
    ensures name != "" ==> c == name
    ensures name == "" ==> c == "Page " + IntToString(pageNumber)
    ensures c != ""
  {
    if name == "" then "Page " + IntToString(pageNumber) else name
  }

  /** The record `createBookmark` saves. The source never assigns the two
      positions of a bookmark (uninitialised `int`s), so they are whatever
      `startPos` and `endPos` hold here. */
  function NewBookmark(id: string, bookId: string, pageNumber: int, name: string, now: int,
                       startPos: int, endPos: int): (a: Annotation)
    ensures a.kind == BOOKMARK && a.isPrivate && a.createdAt == a.updatedAt == Some(now)
    ensures a.selectedText == "" && a.color == "" && a.tags == [] && a.content != ""
  {
    Annotation(id, bookId, BOOKMARK, pageNumber, startPos, endPos, "", BookmarkTitle(pageNumber, name),
               "", [], true, Some(now), Some(now))
  }

  /** The fields `updateAnnotation` rewrites: each of content, color, tags
      and isPrivate only when its key is present, and updatedAt always. */
  function ApplyUpdates(a: Annotation, updates: VariantMap, now: int): (r: Annotation)
    ensures r.id == a.id && r.bookId == a.bookId && r.kind == a.kind
    ensures r.pageNumber == a.pageNumber && r.startPosition == a.startPosition
    ensures r.endPosition == a.endPosition && r.selectedText == a.selectedText
    ensures r.createdAt == a.createdAt && r.updatedAt == Some(now)
    ensures r.content == if "content" in updates then AsString(updates["content"]) else a.content
    ensures r.color == if "color" in updates then AsString(updates["color"]) else a.color
    ensures r.tags == if "tags" in updates then AsStringList(updates["tags"]) else a.tags
    ensures r.isPrivate == if "isPrivate" in updates then AsBool(updates["isPrivate"]) else a.isPrivate
  {
    var a1 := if "content" in updates then a.(content := AsString(updates["content"])) else a;
    var a2 := if "color" in updates then a1.(color := AsString(updates["color"])) else a1;
    var a3 := if "tags" in updates then a2.(tags := AsStringList(updates["tags"])) else a2;
    var a4 := if "isPrivate" in updates then a3.(isPrivate := AsBool(updates["isPrivate"])) else a3;
    a4.(updatedAt := Some(now))
  }

  // -------------------------------------------------------------- queries

  /** The read-only queries over the cache. `Search` carries the
      lower-cased query. */
  datatype Query =
    | ForBook(bookId: string)
    | ForPage(bookId: string, page: int)
    | OfKind(bookId: string, kind: string)
    | Search(lowered: string)

  predicate TagMatches(tags: seq<string>, lowered: string) {
    exists i :: 0 <= i < |tags| && Contains(Lower(tags[i]), lowered)
  }

  /** Case-insensitive match in the selected text, the content or a tag. */
  predicate SearchMatches(a: Annotation, lowered: string) {
    Contains(Lower(a.selectedText), lowered)
    || Contains(Lower(a.content), lowered)
    || TagMatches(a.tags, lowered)
  }

  predicate Selects(q: Query, a: Annotation) {
    match q
    case ForBook(b) => a.bookId == b
    case ForPage(b, p) => a.bookId == b && a.pageNumber == p
    case OfKind(b, k) => a.bookId == b && a.kind == k
    case Search(lq) => SearchMatches(a, lq)
  }

  /** The cached entries a query keeps, in cache order: an entry is in the
      result exactly when it is cached and the query selects it. */
  function Select(s: seq<Annotation>, q: Query): (r: seq<Annotation>)
    ensures |r| <= |s|
    ensures forall a :: a in r <==> a in s && Selects(q, a)
  {
    if s == [] then []
    else
      var init := s[..|s| - 1];
      assert s == init + [s[|s| - 1]];
      Select(init, q) + (if Selects(q, s[|s| - 1]) then [s[|s| - 1]] else [])
  }

  lemma RoundTripAll(s: seq<Annotation>)
    ensures forall m :: m in Variants(s) ==> FromVariant(m) in s
  {
    forall m | m in Variants(s) ensures FromVariant(m) in s {
      var i :| 0 <= i < |s| && Variants(s)[i] == m;
      VariantRoundTrip(s[i]);
    }
  }

  lemma SelectSnoc(s: seq<Annotation>, a: Annotation, q: Query)
    ensures Select(s + [a], q) == Select(s, q) + (if Selects(q, a) then [a] else [])
  {
    assert (s + [a])[..|s|] == s;
  }

  /** `exportAnnotations` writes every cached entry when the book id is
      empty, otherwise the entries of that book. */
  function ExportSelection(s: seq<Annotation>, bookId: string): (r: seq<Annotation>)
    ensures bookId == "" ==> r == s
    ensures bookId != "" ==> forall a :: a in r <==> a in s && a.bookId == bookId
  {
    if bookId == "" then s else Select(s, ForBook(bookId))
  }

  // ---------------------------------------------------- index consistency

  /** `p` is the position of the last entry among the first `n` whose id
      is `k`. */
  predicate IsLastBefore(s: seq<Annotation>, k: string, p: int, n: int) {
    0 <= p < n <= |s| && s[p].id == k && forall j :: p < j < n ==> s[j].id != k
  }

  /** Every indexed id points at the last cached entry carrying it. */
  predicate IndexConsistent(s: seq<Annotation>, index: map<string, int>) {
    forall k :: k in index ==> IsLastBefore(s, k, index[k], |s|)
  }

  /** The ids of the entries at positions lo..hi-1. */
  function IdsIn(s: seq<Annotation>, lo: int, hi: int): set<string>
    requires 0 <= lo <= hi <= |s|
  {
    set j | lo <= j < hi :: s[j].id
  }

  function Ids(s: seq<Annotation>): set<string> {
    IdsIn(s, 0, |s|)
  }

  /** Every cached id is indexed. */
  predicate Complete(s: seq<Annotation>, index: map<string, int>) {
    forall i :: 0 <= i < |s| ==> s[i].id in index
  }

  predicate DistinctIds(s: seq<Annotation>) {
    forall i, j :: 0 <= i < j < |s| ==> s[i].id != s[j].id
  }

  lemma IdsInStep(s: seq<Annotation>, lo: int, i: int)
    requires 0 <= lo <= i < |s|
    ensures IdsIn(s, lo, i + 1) == IdsIn(s, lo, i) + {s[i].id}
  {
    assert s[i].id in IdsIn(s, lo, i + 1);
  }

  /** One pass of the index-update loop: writing position `i` for the id at
      `i` keeps every id seen since `lo` pointing at its last occurrence. */
  lemma ReindexStep(s: seq<Annotation>, index: map<string, int>, next: map<string, int>, lo: int, i: int)
    requires 0 <= lo <= i < |s| && next == index[s[i].id := i]
    requires forall k :: k in IdsIn(s, lo, i) ==> k in index && IsLastBefore(s, k, index[k], i)
    ensures forall k :: k in IdsIn(s, lo, i + 1) ==> k in next && IsLastBefore(s, k, next[k], i + 1)
  {
    IdsInStep(s, lo, i);
  }

  /** The list after appending one entry and evicting the oldest entry when
      the list has grown past `CACHE_LIMIT`: the new entry is last, at most
      one entry is dropped, from the front, and a list within the limit
      stays within it. */
  function Appended(s: seq<Annotation>, a: Annotation): seq<Annotation> {
    if |s| + 1 > CACHE_LIMIT then (s + [a])[1..] else s + [a]
  }

  lemma AppendedShape(s: seq<Annotation>, a: Annotation)
    ensures var r := Appended(s, a);
      |r| >= 1 && r[|r| - 1] == a
      && |s| <= |r| <= |s| + 1 && r == (s + [a])[|s| + 1 - |r|..]
      && (|r| == |s| <==> |s| + 1 > CACHE_LIMIT)
      && (|s| <= CACHE_LIMIT ==> |r| <= CACHE_LIMIT)
  {
  }

  /** The list after `QList::removeAt(p)`: later entries move down one. */
  function RemoveAt(s: seq<Annotation>, p: int): (r: seq<Annotation>)
    requires 0 <= p < |s|
    ensures |r| == |s| - 1
    ensures forall i :: 0 <= i < p ==> r[i] == s[i]
    ensures forall i :: p <= i < |r| ==> r[i] == s[i + 1]
  {
    s[..p] + s[p + 1..]
  }

  lemma AppendConsistent(s: seq<Annotation>, index: map<string, int>, a: Annotation)
    requires IndexConsistent(s, index)
    ensures IndexConsistent(s + [a], index[a.id := |s|])
  {
  }

  /** Entries indexed before the oldest is dropped are still cached after. */
  lemma DropFirstKeys(s: seq<Annotation>, index: map<string, int>)
    requires |s| > 0 && IndexConsistent(s, index)
    ensures (index - {s[0].id}).Keys <= Ids(s[1..])
  {
    forall k | k in (index - {s[0].id})
      ensures k in Ids(s[1..])
    {
      var p := index[k];
      assert s[1..][p - 1].id == k;
    }
  }

  /** After removing the last occurrence of `id` at `idx`, an id that is
      not met again from `idx` on keeps its old position. */
  lemma RemoveKeepsEarlier(s: seq<Annotation>, id: string, idx: int, k: string, p: int)
    requires IsLastBefore(s, id, idx, |s|) && IsLastBefore(s, k, p, |s|) && k != id
    requires k !in IdsIn(RemoveAt(s, idx), idx, |s| - 1)
    ensures IsLastBefore(RemoveAt(s, idx), k, p, |s| - 1)
  {
    var r := RemoveAt(s, idx);
    forall j | idx < j < |s|
      ensures s[j].id != k
    {
      assert r[j - 1] == s[j];
      assert r[j - 1].id in IdsIn(r, idx, |s| - 1);
    }
  }

  // ------------------------------------------------------- the manager

  /** The cache part of `AnnotationManager`: `m_annotations`,
      `m_annotationIndex` and `m_hasUnsyncedChanges`. */
  class Manager {
    var annotations: seq<Annotation>
    var index: map<string, int>
    var hasUnsyncedChanges: bool

    /** The cache invariant: every indexed id is in range and points at
        an entry with that id, the last such entry. */
    predicate Valid()
      reads this
    {
      IndexConsistent(annotations, index)
    }

    constructor()
      ensures Valid() && annotations == [] && index == map[] && !hasUnsyncedChanges
    {
      annotations := [];
      index := map[];
      hasUnsyncedChanges := false;
    }

    /** `annotationCount()`. */
    function AnnotationCount(): (n: int)
      reads this
      ensures n == |annotations| && n >= 0
    {
      |annotations|
    }

    /** The re-index loop shared by `addToCache` and `removeFromCache`:
        every entry from position `lo` on writes its position under its
        id, so an id met there ends up pointing at its last entry, and an
        id not met there keeps its entry. */
    method Reindex(lo: int)
      requires 0 <= lo <= |annotations|
      requires forall k :: k in index && k !in IdsIn(annotations, lo, |annotations|) ==>
        IsLastBefore(annotations, k, index[k], |annotations|)
      modifies this
      ensures annotations == old(annotations) && hasUnsyncedChanges == old(hasUnsyncedChanges)
      ensures Valid()
      ensures index.Keys == old(index).Keys + IdsIn(annotations, lo, |annotations|)
    {
      ghost var base := index;
      var i := lo;
      while i < |annotations|
        invariant annotations == old(annotations) && hasUnsyncedChanges == old(hasUnsyncedChanges)
        invariant lo <= i <= |annotations|
        invariant index.Keys == base.Keys + IdsIn(annotations, lo, i)
        invariant forall k :: k in index && k !in IdsIn(annotations, lo, i) ==> index[k] == base[k]
        invariant forall k :: k in IdsIn(annotations, lo, i) ==>
          k in index && IsLastBefore(annotations, k, index[k], i)
      {
        ReindexStep(annotations, index, index[annotations[i].id := i], lo, i);
        IdsInStep(annotations, lo, i);
        index := index[annotations[i].id := i];
        i := i + 1;
      }
    }

    /** `addToCache`: index and append, then evict the oldest entry and
        rebuild the whole index once the cache exceeds `CACHE_LIMIT`. */
    method AddToCache(a: Annotation)
      requires Valid()
      modifies this
      ensures Valid()
      ensures annotations == Appended(old(annotations), a)
      ensures a.id in index && index[a.id] == |annotations| - 1
      ensures |old(annotations)| + 1 <= CACHE_LIMIT ==> index.Keys == old(index).Keys + {a.id}
      ensures |old(annotations)| + 1 > CACHE_LIMIT ==> index.Keys == Ids(annotations)
      ensures hasUnsyncedChanges == old(hasUnsyncedChanges)
    {
      AppendConsistent(annotations, index, a);
      index := index[a.id := |annotations|];
      annotations := annotations + [a];
      if |annotations| > CACHE_LIMIT {
        var oldestId := annotations[0].id;
        DropFirstKeys(annotations, index);
        annotations := annotations[1..];
        index := index - {oldestId};
        Reindex(0);
        assert annotations[|annotations| - 1] == a;
        assert a.id in IdsIn(annotations, 0, |annotations|);
      }
    }

    /** `removeFromCache`: drop the indexed entry, unindex its id and
        re-point every id met from that position on. */
    method RemoveFromCache(id: string)
      requires Valid()
      modifies this
      ensures Valid()
      ensures id !in old(index) ==> annotations == old(annotations) && index == old(index)
      ensures id in old(index) ==>
        annotations == RemoveAt(old(annotations), old(index)[id])
        && id !in index
        && index.Keys == (old(index).Keys - {id}) + IdsIn(annotations, old(index)[id], |annotations|)
      ensures Complete(old(annotations), old(index)) && DistinctIds(old(annotations)) ==>
        Complete(annotations, index)
      ensures hasUnsyncedChanges == old(hasUnsyncedChanges)
    {
      if id in index {
        var idx := index[id];
        ghost var before := annotations;
        ghost var oldIndex := index;
        annotations := annotations[..idx] + annotations[idx + 1..];
        index := index - {id};
        assert annotations == RemoveAt(before, idx);
        forall k | k in index && k !in IdsIn(annotations, idx, |annotations|)
          ensures IsLastBefore(annotations, k, index[k], |annotations|)
        {
          RemoveKeepsEarlier(before, id, idx, k, oldIndex[k]);
        }
        Reindex(idx);
        assert id !in IdsIn(annotations, idx, |annotations|) by {
          forall j | idx <= j < |annotations| ensures annotations[j].id != id {
            assert annotations[j] == before[j + 1];
          }
        }
        if Complete(before, oldIndex) && DistinctIds(before) {
          forall j | 0 <= j < |annotations| ensures annotations[j].id in index {
            if j < idx {
              assert annotations[j] == before[j];
              assert before[j].id != before[idx].id;
            } else {
              assert annotations[j].id in IdsIn(annotations, idx, |annotations|);
            }
          }
        }
      }
    }

    /** `clearCache`. */
    method ClearCache()
      modifies this
      ensures Valid() && annotations == [] && index == map[]
      ensures hasUnsyncedChanges == old(hasUnsyncedChanges)
    {
      annotations := [];
      index := map[];
    }

    /** `loadAnnotationsFromDatabase` over the rows the query returns (in
        its `created_at DESC` order): nothing happens when the database is
        closed; otherwise the cache becomes exactly the loaded rows, with
        every id indexed at its last row. */
    method LoadAnnotationsFromDatabase(databaseOpen: bool, rows: seq<Row>) returns (ok: bool)
      requires Valid()
      modifies this
      ensures Valid()
      ensures !databaseOpen ==> !ok && unchanged(this)
      ensures databaseOpen ==>
        ok && annotations == LoadRows(rows) && index.Keys == Ids(annotations) && Complete(annotations, index)
      ensures hasUnsyncedChanges == old(hasUnsyncedChanges)
    {
      if !databaseOpen {
        return false;
      }
      annotations := [];
      index := map[];
      var i := 0;
      while i < |rows|
        invariant 0 <= i <= |rows|
        invariant annotations == LoadRows(rows[..i])
        invariant IndexConsistent(annotations, index)
        invariant index.Keys == Ids(annotations)
        invariant hasUnsyncedChanges == old(hasUnsyncedChanges)
      {
        var a := LoadRow(rows[i]);
        AppendConsistent(annotations, index, a);
        IdsSnoc(annotations, a);
        LoadRowsSnoc(rows, i);
        index := index[a.id := i];
        annotations := annotations + [a];
        i := i + 1;
      }
      assert rows[..|rows|] == rows;
      ok := true;
    }

    /** The common tail of the three create methods: cache the record,
        mark the cache unsynced and return its id when the save succeeds;
        otherwise change nothing and return the empty string. */
    method SaveNew(a: Annotation, saveOk: bool) returns (result: string)
      requires Valid()
      modifies this
      ensures Valid()
      ensures saveOk ==> (result == a.id && annotations == Appended(old(annotations), a)
                          && a.id in index && index[a.id] == |annotations| - 1 && hasUnsyncedChanges)
      ensures !saveOk ==> result == "" && unchanged(this)
    {
      if saveOk {
        AddToCache(a);
        hasUnsyncedChanges := true;
        return a.id;
      }
      return "";
    }

    /** `createHighlight`; `newId` is the generated UUID and `now` the
        clock reading. */
    method CreateHighlight(bookId: string, pageNumber: int, startPos: int, endPos: int,
                           selectedText: string, newId: string, now: int, saveOk: bool,
                           color: string := DEFAULT_HIGHLIGHT_COLOR)
      returns (result: string)
      requires Valid()
      modifies this
      ensures Valid()
      ensures saveOk ==> (result == newId && hasUnsyncedChanges
                          && annotations == Appended(old(annotations),
                               NewHighlight(newId, bookId, pageNumber, startPos, endPos, selectedText, color, now)))
      ensures !saveOk ==> result == "" && unchanged(this)
    {
      var a := NewHighlight(newId, bookId, pageNumber, startPos, endPos, selectedText, color, now);
      result := SaveNew(a, saveOk);
    }

    /** `createNote`. */
    method CreateNote(bookId: string, pageNumber: int, startPos: int, endPos: int,
                      selectedText: string, noteContent: string, newId: string, now: int,
                      saveOk: bool)
      returns (result: string)
      requires Valid()
      modifies this
      ensures Valid()
      ensures saveOk ==> (result == newId && hasUnsyncedChanges
                          && annotations == Appended(old(annotations),
                               NewNote(newId, bookId, pageNumber, startPos, endPos, selectedText, noteContent, now)))
      ensures !saveOk ==> result == "" && unchanged(this)
    {
      var a := NewNote(newId, bookId, pageNumber, startPos, endPos, selectedText, noteContent, now);
      result := SaveNew(a, saveOk);
    }

    /** `createBookmark`. `unsetStart` and `unsetEnd` stand for the
        positions the source leaves uninitialised. */
    method CreateBookmark(bookId: string, pageNumber: int, newId: string, now: int, saveOk: bool,
                          unsetStart: int, unsetEnd: int, name: string := DEFAULT_BOOKMARK_NAME)
      returns (result: string)
      requires Valid()
      modifies this
      ensures Valid()
      ensures saveOk ==> (result == newId && hasUnsyncedChanges
                          && annotations == Appended(old(annotations),
                               NewBookmark(newId, bookId, pageNumber, name, now, unsetStart, unsetEnd)))
      ensures !saveOk ==> result == "" && unchanged(this)
    {
      var a := NewBookmark(newId, bookId, pageNumber, name, now, unsetStart, unsetEnd);
      result := SaveNew(a, saveOk);
    }

    /** `updateAnnotation`: an id that is not indexed (or indexed out of
        range) fails with nothing changed. Otherwise the entry is rewritten
        in place before the save, so the change stays in the cache even
        when the save fails; only a successful save reports true and marks
        the cache unsynced. */
    method UpdateAnnotation(id: string, updates: VariantMap, now: int, saveOk: bool)
      returns (ok: bool)
      requires Valid()
      modifies this
      ensures Valid()
      ensures !(id in old(index) && old(index)[id] < |old(annotations)|) ==> !ok && unchanged(this)
      ensures id in old(index) && old(index)[id] < |old(annotations)| ==>
        ok == saveOk
        && index == old(index)
        && annotations == old(annotations)[old(index)[id] :=
             ApplyUpdates(old(annotations)[old(index)[id]], updates, now)]
        && hasUnsyncedChanges == (old(hasUnsyncedChanges) || saveOk)
    {
      if !(id in index && index[id] < |annotations|) {
        return false;
      }
      var p := index[id];
      annotations := annotations[p := ApplyUpdates(annotations[p], updates, now)];
      if saveOk {
        hasUnsyncedChanges := true;
        return true;
      }
      return false;
    }

    /** `deleteAnnotation`: a failed delete changes nothing; a successful
        one drops the id from the cache (if cached) and marks it unsynced. */
    method DeleteAnnotation(id: string, deleteOk: bool) returns (ok: bool)
      requires Valid()
      modifies this
      ensures Valid()
      ensures !deleteOk ==> !ok && unchanged(this)
      ensures deleteOk ==> ok && hasUnsyncedChanges
      ensures deleteOk && id !in old(index) ==> annotations == old(annotations) && index == old(index)
      ensures deleteOk && id in old(index) ==>
        annotations == RemoveAt(old(annotations), old(index)[id]) && id !in index
    {
      if !deleteOk {
        return false;
      }
      RemoveFromCache(id);
      hasUnsyncedChanges := true;
      return true;
    }

    // ------------------------------------------------------------ queries

    /** `getAnnotation`: the entry the index names, or an empty map. Under
        the cache invariant a non-empty result is the annotation with the
        requested id. */
    method GetAnnotation(id: string) returns (m: VariantMap)
      ensures id in index && 0 <= index[id] < |annotations| ==> m == ToVariant(annotations[index[id]])
      ensures !(id in index && 0 <= index[id] < |annotations|) ==> m == map[]
      ensures Valid() && id in index ==> FromVariant(m).id == id
    {
      if id in index && 0 <= index[id] < |annotations| {
        m := ToVariant(annotations[index[id]]);
        VariantRoundTrip(annotations[index[id]]);
      } else {
        m := map[];
      }
    }

    /** The scan every list query performs: the variant of each cached
        entry the query selects, in cache order. */
    method Collect(q: Query) returns (result: seq<VariantMap>)
      ensures result == Variants(Select(annotations, q))
    {
      var selected := [];
      var i := 0;
      while i < |annotations|
        invariant 0 <= i <= |annotations|
        invariant selected == Select(annotations[..i], q)
      {
        assert annotations[..i + 1] == annotations[..i] + [annotations[i]];
        SelectSnoc(annotations[..i], annotations[i], q);
        if Selects(q, annotations[i]) {
          selected := selected + [annotations[i]];
        }
        i := i + 1;
      }
      assert annotations[..|annotations|] == annotations;
      result := Variants(selected);
    }

    /** `getAnnotationsForBook`. */
    method GetAnnotationsForBook(bookId: string) returns (result: seq<VariantMap>)
      ensures result == Variants(Select(annotations, ForBook(bookId)))
      ensures forall m :: m in result ==> FromVariant(m).bookId == bookId
    {
      result := Collect(ForBook(bookId));
      RoundTripAll(Select(annotations, ForBook(bookId)));
    }

    /** `getAnnotationsForPage`: exactly the entries of that book and page. */
    method GetAnnotationsForPage(bookId: string, pageNumber: int) returns (result: seq<VariantMap>)
      ensures result == Variants(Select(annotations, ForPage(bookId, pageNumber)))
      ensures forall m :: m in result ==>
        FromVariant(m).bookId == bookId && FromVariant(m).pageNumber == pageNumber
    {
      result := Collect(ForPage(bookId, pageNumber));
      RoundTripAll(Select(annotations, ForPage(bookId, pageNumber)));
    }

    /** `getHighlights`. */
    method GetHighlights(bookId: string) returns (result: seq<VariantMap>)
      ensures result == Variants(Select(annotations, OfKind(bookId, HIGHLIGHT)))
    {
      result := Collect(OfKind(bookId, HIGHLIGHT));
    }

    /** `getNotes`. */
    method GetNotes(bookId: string) returns (result: seq<VariantMap>)
      ensures result == Variants(Select(annotations, OfKind(bookId, NOTE)))
    {
      result := Collect(OfKind(bookId, NOTE));
    }

    /** `getBookmarks`. */
    method GetBookmarks(bookId: string) returns (result: seq<VariantMap>)
      ensures result == Variants(Select(annotations, OfKind(bookId, BOOKMARK)))
    {
      result := Collect(OfKind(bookId, BOOKMARK));
    }

    /** The counting loop of `get*Count`: as many as the matching list
        query returns. */
    method CountKind(bookId: string, kind: string) returns (count: int)
      ensures count == |Select(annotations, OfKind(bookId, kind))|
    {
      count := 0;
      var i := 0;
      while i < |annotations|
        invariant 0 <= i <= |annotations|
        invariant count == |Select(annotations[..i], OfKind(bookId, kind))|
      {
        assert annotations[..i + 1] == annotations[..i] + [annotations[i]];
        SelectSnoc(annotations[..i], annotations[i], OfKind(bookId, kind));
        if annotations[i].bookId == bookId && annotations[i].kind == kind {
          count := count + 1;
        }
        i := i + 1;
      }
      assert annotations[..|annotations|] == annotations;
    }

    /** `getHighlightCount`: the length of `getHighlights`. */
    method GetHighlightCount(bookId: string) returns (count: int)
      ensures count == |Select(annotations, OfKind(bookId, HIGHLIGHT))|
    {
      count := CountKind(bookId, HIGHLIGHT);
    }

    /** `getNoteCount`: the length of `getNotes`. */
    method GetNoteCount(bookId: string) returns (count: int)
      ensures count == |Select(annotations, OfKind(bookId, NOTE))|
    {
      count := CountKind(bookId, NOTE);
    }

    /** `getBookmarkCount`: the length of `getBookmarks`. */
    method GetBookmarkCount(bookId: string) returns (count: int)
      ensures count == |Select(annotations, OfKind(bookId, BOOKMARK))|
    {
      count := CountKind(bookId, BOOKMARK);
    }

    /** One step of `searchAnnotations`: the selected text, then the
        content, then each tag until one contains the query. */
    static method MatchesQuery(a: Annotation, lowerQuery: string) returns (matches: bool)
      ensures matches <==> SearchMatches(a, lowerQuery)
    {
      matches := false;
      if Contains(Lower(a.selectedText), lowerQuery) {
        matches := true;
      } else if Contains(Lower(a.content), lowerQuery) {
        matches := true;
      } else {
        var t := 0;
        while t < |a.tags|
          invariant 0 <= t <= |a.tags|
          invariant !matches ==> forall u :: 0 <= u < t ==> !Contains(Lower(a.tags[u]), lowerQuery)
          invariant matches ==> TagMatches(a.tags, lowerQuery)
        {
          if Contains(Lower(a.tags[t]), lowerQuery) {
            matches := true;
            break;
          }
          t := t + 1;
        }
      }
    }

    /** `searchAnnotations`: in cache order, every entry whose selected
        text, content or some tag contains the query, ignoring case. */
    method SearchAnnotations(query: string) returns (result: seq<VariantMap>)
      ensures result == Variants(Select(annotations, Search(Lower(query))))
    {
      var lowerQuery := Lower(query);
      var selected := [];
      var i := 0;
      while i < |annotations|
        invariant 0 <= i <= |annotations|
        invariant selected == Select(annotations[..i], Search(lowerQuery))
      {
        var a := annotations[i];
        var matches := MatchesQuery(a, lowerQuery);
        assert matches <==> SearchMatches(a, lowerQuery);
        assert annotations[..i + 1] == annotations[..i] + [a];
        SelectSnoc(annotations[..i], a, Search(lowerQuery));
        if matches {
          selected := selected + [a];
        }
        i := i + 1;
      }
      assert annotations[..|annotations|] == annotations;
      result := Variants(selected);
    }

    /** One record of an import: a record that parsed and was saved is
        added to the cache. */
    method ImportOne(entry: Option<Annotation>, saved: bool) returns (added: bool)
      requires Valid()
      modifies this
      ensures added == (entry.Some? && saved)
      ensures Valid() && hasUnsyncedChanges == old(hasUnsyncedChanges)
      ensures annotations == if added then Appended(old(annotations), entry.value) else old(annotations)
    {
      added := false;
      if entry.Some? && saved {
        AddToCache(entry.value);
        added := true;
      }
    }

    /** The loop of `importAnnotations` over the parsed entries: each saved
        object goes through `addToCache`; the result counts them. */
    method CacheSaved(entries: seq<Option<Annotation>>, saveOks: seq<bool>) returns (imported: int)
      requires Valid() && |saveOks| == |entries|
      modifies this
      ensures imported == |Saved(entries, saveOks)|
      ensures Valid() && hasUnsyncedChanges == old(hasUnsyncedChanges)
      ensures annotations == AppendAll(old(annotations), Saved(entries, saveOks))
    {
      ghost var start := annotations;
      ghost var done: seq<Annotation> := [];
      imported := 0;
      var i := 0;
      while i < |entries|
        invariant 0 <= i <= |entries|
        invariant Valid() && hasUnsyncedChanges == old(hasUnsyncedChanges)
        invariant done == Saved(entries[..i], saveOks[..i])
        invariant imported == |done|
        invariant annotations == AppendAll(start, done)
      {
        ImportStep(entries, saveOks, i, start, done);
        var added := ImportOne(entries[i], saveOks[i]);
        if added {
          done := done + [entries[i].value];
          imported := imported + 1;
        }
        i := i + 1;
      }
      SavedWhole(entries, saveOks);
    }

    /** The evidently intended cache update for an imported record, in
        step with the database's insert-or-replace: a record whose id is
        already indexed replaces that entry; any other is appended. A
        cache without duplicate ids keeps none. */
    method UpsertToCache(a: Annotation)
      requires Valid()
      modifies this
      ensures Valid()
      ensures a.id in old(index) ==> annotations == old(annotations)[old(index)[a.id] := a] && index == old(index)
      ensures a.id !in old(index) ==> annotations == Appended(old(annotations), a)
      ensures Complete(old(annotations), old(index)) && DistinctIds(old(annotations)) ==>
        Complete(annotations, index) && DistinctIds(annotations)
      ensures hasUnsyncedChanges == old(hasUnsyncedChanges)
    {
      if a.id in index {
        var p := index[a.id];
        ReplaceKeepsDistinct(annotations, p, a);
        annotations := annotations[p := a];
      } else {
        ghost var before := annotations;
        ghost var oldIndex := index;
        AddToCache(a);
        if Complete(before, oldIndex) && DistinctIds(before) {
          assert a.id !in Ids(before);
          AppendFreshKeepsDistinct(before, a);
          IdsSnoc(before, a);
          if |before| + 1 > CACHE_LIMIT {
            assert Complete(annotations, index);
          }
        }
      }
    }

    /** `importAnnotations` once the file has been read and
        parsed (`None` for a file that cannot be opened or parsed, or is
        not an array; `None` entries for array values that are not
        objects). Each object is saved with its own outcome in `saveOks`
        and, when saved, appended through `addToCache`. */
    method ImportAnnotations(document: Option<seq<Option<Annotation>>>, saveOks: seq<bool>)
      returns (ok: bool)
      requires Valid()
      requires document.Some? ==> |saveOks| == |document.value|
      modifies this
      ensures Valid()
      ensures document.None? ==> !ok && unchanged(this)
      ensures document.Some? ==>
        (ok
         && annotations == AppendAll(old(annotations), Saved(document.value, saveOks))
         && hasUnsyncedChanges == (old(hasUnsyncedChanges) || |Saved(document.value, saveOks)| > 0))
    {
      if document.None? {
        return false;
      }
      var imported := CacheSaved(document.value, saveOks);
      if imported > 0 {
        hasUnsyncedChanges := true;
      }
      ok := true;
    }
  }

  /** The objects of an import whose save succeeded, in file order. */
  function Saved(entries: seq<Option<Annotation>>, saveOks: seq<bool>): (r: seq<Annotation>)
    requires |saveOks| == |entries|
    ensures |r| <= |entries|
  {
    if entries == [] then []
    else
      var n := |entries| - 1;
      Saved(entries[..n], saveOks[..n]) + (if entries[n].Some? && saveOks[n] then [entries[n].value] else [])
  }

  /** Every imported record is an object of the file. */
  lemma {:induction false} SavedFromFile(entries: seq<Option<Annotation>>, saveOks: seq<bool>)
    requires |saveOks| == |entries|
    ensures forall a :: a in Saved(entries, saveOks) ==> Some(a) in entries
  {
    if entries != [] {
      var n := |entries| - 1;
      SavedFromFile(entries[..n], saveOks[..n]);
      assert forall e :: e in entries[..n] ==> e in entries;
    }
  }

  lemma SavedWhole(entries: seq<Option<Annotation>>, saveOks: seq<bool>)
    requires |saveOks| == |entries|
    ensures Saved(entries[..|entries|], saveOks[..|entries|]) == Saved(entries, saveOks)
  {
    assert entries[..|entries|] == entries && saveOks[..|entries|] == saveOks;
  }

  /** The import loop's bookkeeping for record `i`. */
  lemma ImportStep(entries: seq<Option<Annotation>>, saveOks: seq<bool>, i: int,
                   start: seq<Annotation>, done: seq<Annotation>)
    requires |saveOks| == |entries| && 0 <= i < |entries|
    requires done == Saved(entries[..i], saveOks[..i])
    ensures entries[i].Some? && saveOks[i] ==>
      done + [entries[i].value] == Saved(entries[..i + 1], saveOks[..i + 1])
      && AppendAll(start, done + [entries[i].value]) == Appended(AppendAll(start, done), entries[i].value)
    ensures !(entries[i].Some? && saveOks[i]) ==> done == Saved(entries[..i + 1], saveOks[..i + 1])
  {
    SavedSnoc(entries, saveOks, i);
    if entries[i].Some? && saveOks[i] {
      AppendAllSnoc(start, done, entries[i].value);
    } else {
      assert done + [] == done;
    }
  }

  lemma SavedSnoc(entries: seq<Option<Annotation>>, saveOks: seq<bool>, i: int)
    requires |saveOks| == |entries| && 0 <= i < |entries|
    ensures Saved(entries[..i + 1], saveOks[..i + 1])
         == Saved(entries[..i], saveOks[..i])
            + (if entries[i].Some? && saveOks[i] then [entries[i].value] else [])
  {
    assert entries[..i + 1][..i] == entries[..i];
    assert saveOks[..i + 1][..i] == saveOks[..i];
  }

  lemma AppendAllSnoc(s: seq<Annotation>, records: seq<Annotation>, a: Annotation)
    ensures AppendAll(s, records + [a]) == Appended(AppendAll(s, records), a)
  {
    assert (records + [a])[..|records|] == records;
  }

  lemma LoadRowsSnoc(rows: seq<Row>, i: int)
    requires 0 <= i < |rows|
    ensures LoadRows(rows[..i + 1]) == LoadRows(rows[..i]) + [LoadRow(rows[i])]
  {
    assert rows[..i + 1][..i] == rows[..i];
  }

  lemma IdsSnoc(s: seq<Annotation>, a: Annotation)
    ensures Ids(s + [a]) == Ids(s) + {a.id}
  {
    var t := s + [a];
    IdsInStep(t, 0, |s|);
    assert IdsIn(t, 0, |s|) == Ids(s) by {
      forall j | 0 <= j < |s| ensures t[j] == s[j] { }
    }
  }

  /** The cache after `addToCache` of each record in turn. */
  function AppendAll(s: seq<Annotation>, records: seq<Annotation>): seq<Annotation> {
    if records == [] then s
    else Appended(AppendAll(s, records[..|records| - 1]), records[|records| - 1])
  }

  /** Importing into a cache within the limit keeps it within the limit,
      and the last record imported is the newest entry. */
  lemma {:induction false} AppendAllBounded(s: seq<Annotation>, records: seq<Annotation>)
    requires |s| <= CACHE_LIMIT
    ensures |AppendAll(s, records)| <= CACHE_LIMIT
    ensures records != [] ==>
      var r := AppendAll(s, records);
      |r| >= 1 && r[|r| - 1] == records[|records| - 1]
  {
    if records != [] {
      var init := records[..|records| - 1];
      AppendAllBounded(s, init);
      AppendedShape(AppendAll(s, init), records[|records| - 1]);
    }
  }

  // ------------------------------------------------ re-importing a cached id

  /** Appending a record whose id is already cached, as the import loop
      does, leaves two entries with that id while the database holds one. */
  lemma AppendCachedDuplicates(s: seq<Annotation>, a: Annotation)
    requires |s| < CACHE_LIMIT && a.id in Ids(s)
    ensures !DistinctIds(Appended(s, a))
  {
    var j :| 0 <= j < |s| && s[j].id == a.id;
    var r := Appended(s, a);
    assert r[j] == s[j] && r[|s|] == a;
  }

  /** Replacing an entry with a record of the same id keeps ids distinct. */
  lemma ReplaceKeepsDistinct(s: seq<Annotation>, p: int, a: Annotation)
    requires 0 <= p < |s| && s[p].id == a.id
    ensures DistinctIds(s) ==> DistinctIds(s[p := a])
    ensures Ids(s[p := a]) == Ids(s)
  {
    var r := s[p := a];
    assert forall j :: 0 <= j < |s| ==> r[j].id == s[j].id;
  }

  /** Appending a record with a fresh id keeps ids distinct, eviction or
      not. */
  lemma AppendFreshKeepsDistinct(s: seq<Annotation>, a: Annotation)
    requires DistinctIds(s) && a.id !in Ids(s)
    ensures DistinctIds(Appended(s, a))
  {
    var t := s + [a];
    assert DistinctIds(t) by {
      forall i, j | 0 <= i < j < |t| ensures t[i].id != t[j].id {
        if j == |s| {
          assert t[i] == s[i];
          assert s[i].id in Ids(s);
        }
      }
    }
    if |s| + 1 > CACHE_LIMIT {
      var r := t[1..];
      forall i, j | 0 <= i < j < |r| ensures r[i].id != r[j].id {
        assert r[i] == t[i + 1] && r[j] == t[j + 1];
      }
    }
  }
}
