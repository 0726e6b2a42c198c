/** The web client's annotation store for one book (the `useAnnotations`
    hook): the list fetched from the server, the filter the reader has set,
    local edits applied after the server accepted them, search and
    statistics. Each remote call is an input saying whether it succeeded
    (and what it returned); dates are integer timestamps. */
module UseAnnotations {
  import opened Wrappers
  import opened Strings
  import opened Seqs

  const HIGHLIGHT := "highlight"
  const NOTE := "note"
  const BOOKMARK := "bookmark"
  const ALL := "all"
  const DEFAULT_COLOR := "default"

  /** An annotation as the server returns it; optional fields are `Option`s. */
  datatype Annotation = Annotation(
    id: string,
    userId: string,
    bookId: string,
    kind: string,
    pageNumber: Option<int>,
    startPosition: int,
    endPosition: int,
    selectedText: Option<string>,
    content: Option<string>,
    color: Option<string>,
    tags: Option<seq<string>>,
    isPrivate: bool,
    createdAt: int,
    updatedAt: int)

  /** `Partial<Annotation>`: `None` is a key that is absent from the update;
      for the optional fields `Some(None)` is a key present with the value
      `undefined`. */
  datatype Patch = Patch(
    id: Option<string>,
    userId: Option<string>,
    bookId: Option<string>,
    kind: Option<string>,
    pageNumber: Option<Option<int>>,
    startPosition: Option<int>,
    endPosition: Option<int>,
    selectedText: Option<Option<string>>,
    content: Option<Option<string>>,
    color: Option<Option<string>>,
    tags: Option<Option<seq<string>>>,
    isPrivate: Option<bool>,
    createdAt: Option<int>,
    updatedAt: Option<int>)

  /** One key of an object spread `{...old, ...update}`. */
  function Spread<T>(old_: T, update: Option<T>): (r: T)
    ensures update.Some? ==> r == update.value
    ensures update.None? ==> r == old_
  {
    if update.Some? then update.value else old_
  }

  /** `{ ...annotation, ...updates }`. */
  function Apply(a: Annotation, u: Patch): Annotation {
    Annotation(
      Spread(a.id, u.id), Spread(a.userId, u.userId), Spread(a.bookId, u.bookId),
      Spread(a.kind, u.kind), Spread(a.pageNumber, u.pageNumber),
      Spread(a.startPosition, u.startPosition), Spread(a.endPosition, u.endPosition),
      Spread(a.selectedText, u.selectedText), Spread(a.content, u.content),
      Spread(a.color, u.color), Spread(a.tags, u.tags), Spread(a.isPrivate, u.isPrivate),
      Spread(a.createdAt, u.createdAt), Spread(a.updatedAt, u.updatedAt))
  }

  const NoChanges := Patch(None, None, None, None, None, None, None, None, None, None, None, None, None, None)

  /** Spreading an empty update changes nothing, and spreading the same
      update twice is spreading it once. */
  lemma ApplyLaws(a: Annotation, u: Patch)
    ensures Apply(a, NoChanges) == a
    ensures Apply(Apply(a, u), u) == Apply(a, u)
    ensures u.content.Some? ==> Apply(a, u).content == u.content.value
    ensures u.id.None? ==> Apply(a, u).id == a.id
  {
  }

  // ------------------------------------------------------------- filtering

  /** `AnnotationFilter`. Absent keys are `None`. */
  datatype AnnotationFilter = AnnotationFilter(
    query: Option<string>,
    kind: Option<string>,
    color: Option<string>,
    tags: Option<seq<string>>,
    dateFrom: Option<int>,
    dateTo: Option<int>,
    isPrivate: Option<bool>)

  /** The filter the hook starts with and `clearFilter` restores. */
  function Initial(): AnnotationFilter {
    AnnotationFilter(None, Some(ALL), None, None, None, None, None)
  }

  /** A string key takes part in filtering only when it is truthy. */
  predicate Truthy(s: Option<string>) {
    s.Some? && s.value != ""
  }

  predicate HasText(field: Option<string>, lowerQuery: string) {
    field.Some? && Contains(Lower(field.value), lowerQuery)
  }

  predicate TextMatches(a: Annotation, lowerQuery: string) {
    HasText(a.selectedText, lowerQuery) || HasText(a.content, lowerQuery)
  }

  function TagsOf(a: Annotation): seq<string> {
    if a.tags.Some? then a.tags.value else []
  }

  /** The test `filteredAnnotations` applies to one annotation. */
  predicate Keeps(f: AnnotationFilter, a: Annotation) {
    (Truthy(f.query) ==> TextMatches(a, Lower(f.query.value)))
    && (Truthy(f.kind) && f.kind.value != ALL ==> a.kind == f.kind.value)
    && (Truthy(f.color) ==> a.color == f.color)
    && (f.tags.Some? && |f.tags.value| > 0 ==> forall t :: t in f.tags.value ==> t in TagsOf(a))
    && (f.dateFrom.Some? ==> f.dateFrom.value <= a.createdAt)
    && (f.dateTo.Some? ==> a.createdAt <= f.dateTo.value)
    && (f.isPrivate.Some? ==> a.isPrivate == f.isPrivate.value)
  }

  /** `filteredAnnotations`. */
  function FilterAnnotations(s: seq<Annotation>, f: AnnotationFilter): seq<Annotation> {
    Filter(s, a => Keeps(f, a))
  }

  /** The filtered list holds exactly the annotations passing every active
      criterion, in their original order, and filtering again with the same
      filter changes nothing. */
  lemma FilterAnnotationsSpec(s: seq<Annotation>, f: AnnotationFilter)
    ensures forall a :: a in FilterAnnotations(s, f) <==> a in s && Keeps(f, a)
    ensures IsSubsequence(FilterAnnotations(s, f), s)
    ensures FilterAnnotations(FilterAnnotations(s, f), f) == FilterAnnotations(s, f)
  {
    FilterSound(s, a => Keeps(f, a));
    FilterComplete(s, a => Keeps(f, a));
    FilterSubsequence(s, a => Keeps(f, a));
    FilterIdempotent(s, a => Keeps(f, a));
  }

  /** The initial (cleared) filter shows every annotation. */
  lemma InitialShowsAll(s: seq<Annotation>)
    ensures FilterAnnotations(s, Initial()) == s
  {
    FilterAll(s, a => Keeps(Initial(), a));
  }

  /** The date bounds are inclusive, and a tag filter requires every listed
      tag (not just one of them). */
  lemma FilterCriteria(f: AnnotationFilter, a: Annotation)
    requires Keeps(f, a)
    ensures f.dateFrom.Some? && f.dateTo.Some? ==> f.dateFrom.value <= a.createdAt <= f.dateTo.value
    ensures f.tags.Some? ==> forall t :: t in f.tags.value ==> t in TagsOf(a)
    ensures Truthy(f.kind) && f.kind.value != ALL ==> a.kind == f.kind.value
  {
  }

  /** `searchAnnotations`: the query is matched case-insensitively against
      the selected text, the content and, unlike the filter, the tags. */
  predicate Found(a: Annotation, lowerQuery: string) {
    TextMatches(a, lowerQuery) || exists t :: t in TagsOf(a) && Contains(Lower(t), lowerQuery)
  }

  function SearchAnnotations(s: seq<Annotation>, query: string): seq<Annotation> {
    Filter(s, a => Found(a, Lower(query)))
  }

  /** Every annotation a query filter keeps is also found by a search for
      the same query, and a search result is an annotation of the list. */
  lemma QueryFilterWithinSearch(s: seq<Annotation>, f: AnnotationFilter)
    requires Truthy(f.query)
    ensures forall a :: a in FilterAnnotations(s, f) ==> a in SearchAnnotations(s, f.query.value)
    ensures forall a :: a in SearchAnnotations(s, f.query.value) ==> a in s
  {
    var q := Lower(f.query.value);
    FilterSound(s, a => Keeps(f, a));
    FilterComplete(s, a => Found(a, q));
    FilterSound(s, a => Found(a, q));
  }

  /** The converse fails: an annotation whose only match is a tag is found
      by search but dropped by a query filter. */
  lemma TagOnlyMatch()
    ensures var a := Annotation("1", "u", "b", NOTE, None, 0, 0, None, None, None, Some(["ideas"]), true, 0, 0);
            var f := AnnotationFilter(Some("idea"), None, None, None, None, None, None);
            SearchAnnotations([a], "idea") == [a] && FilterAnnotations([a], f) == []
  {
    var a := Annotation("1", "u", "b", NOTE, None, 0, 0, None, None, None, Some(["ideas"]), true, 0, 0);
    var f := AnnotationFilter(Some("idea"), None, None, None, None, None, None);
    assert Lower("idea") == "idea";
    assert Lower("ideas") == "ideas";
    assert OccursAt("ideas", "idea", 0);
    assert "ideas" in TagsOf(a);
    assert Found(a, Lower("idea"));
    assert !Keeps(f, a);
    FilterSingleton(a, a => Found(a, Lower("idea")));
    FilterSingleton(a, a => Keeps(f, a));
  }

  /** `Partial<AnnotationFilter>`: `None` is an absent key, `Some(None)` a
      key present with the value `undefined`. */
  datatype FilterUpdate = FilterUpdate(
    query: Option<Option<string>>,
    kind: Option<Option<string>>,
    color: Option<Option<string>>,
    tags: Option<Option<seq<string>>>,
    dateFrom: Option<Option<int>>,
    dateTo: Option<Option<int>>,
    isPrivate: Option<Option<bool>>)

  /** `setFilter`: `{ ...prev, ...newFilter }`. */
  function Merged(f: AnnotationFilter, u: FilterUpdate): AnnotationFilter {
    AnnotationFilter(Spread(f.query, u.query), Spread(f.kind, u.kind), Spread(f.color, u.color),
           Spread(f.tags, u.tags), Spread(f.dateFrom, u.dateFrom), Spread(f.dateTo, u.dateTo),
           Spread(f.isPrivate, u.isPrivate))
  }

  /** An empty update keeps the filter; an update applied twice is applied
      once; keys the update leaves out keep their value. */
  lemma MergedLaws(f: AnnotationFilter, u: FilterUpdate)
    ensures Merged(f, FilterUpdate(None, None, None, None, None, None, None)) == f
    ensures Merged(Merged(f, u), u) == Merged(f, u)
    ensures u.query.None? ==> Merged(f, u).query == f.query
    ensures u.kind.Some? ==> Merged(f, u).kind == u.kind.value
  {
  }

  // ---------------------------------------------------------- list updates

  /** The list after `updateAnnotation(id, updates)` succeeded. */
  function Updated(s: seq<Annotation>, id: string, u: Patch): seq<Annotation> {
    Map(s, (a: Annotation) => if a.id == id then Apply(a, u) else a)
  }

  /** Only the annotations carrying `id` change; they receive the update,
      the list keeps its length and order, and repeating the update changes
      nothing more. */
  lemma UpdatedSpec(s: seq<Annotation>, id: string, u: Patch)
    ensures |Updated(s, id, u)| == |s|
    ensures forall i :: 0 <= i < |s| && s[i].id != id ==> Updated(s, id, u)[i] == s[i]
    ensures forall i :: 0 <= i < |s| && s[i].id == id ==> Updated(s, id, u)[i] == Apply(s[i], u)
    ensures u.id.None? ==> Updated(Updated(s, id, u), id, u) == Updated(s, id, u)
  {
    if u.id.None? {
      var r := Updated(s, id, u);
      forall i | 0 <= i < |s|
        ensures Updated(r, id, u)[i] == r[i]
      {
        ApplyLaws(s[i], u);
      }
    }
  }

  /** The list after `deleteAnnotation(id)` succeeded. */
  function Without(s: seq<Annotation>, id: string): seq<Annotation> {
    Filter(s, (a: Annotation) => a.id != id)
  }

  /** Nothing with `id` remains, everything else stays, in order. */
  lemma WithoutSpec(s: seq<Annotation>, id: string)
    ensures forall a :: a in Without(s, id) <==> a in s && a.id != id
    ensures IsSubsequence(Without(s, id), s)
  {
    FilterSound(s, (a: Annotation) => a.id != id);
    FilterComplete(s, (a: Annotation) => a.id != id);
    FilterSubsequence(s, (a: Annotation) => a.id != id);
  }

  /** The list after `bulkDelete(ids)` succeeded. */
  function WithoutAll(s: seq<Annotation>, ids: seq<string>): seq<Annotation> {
    Filter(s, (a: Annotation) => a.id !in ids)
  }

  /** Nothing whose id is listed remains, everything else stays, in order;
      an empty id list deletes nothing. */
  lemma WithoutAllSpec(s: seq<Annotation>, ids: seq<string>)
    ensures forall a :: a in WithoutAll(s, ids) <==> a in s && a.id !in ids
    ensures IsSubsequence(WithoutAll(s, ids), s)
    ensures ids == [] ==> WithoutAll(s, ids) == s
  {
    FilterSound(s, (a: Annotation) => a.id !in ids);
    FilterComplete(s, (a: Annotation) => a.id !in ids);
    FilterSubsequence(s, (a: Annotation) => a.id !in ids);
    if ids == [] {
      FilterAll(s, (a: Annotation) => a.id !in ids);
    }
  }

  /** The list after `bulkUpdateTags(ids, tags)` succeeded. */
  function WithTags(s: seq<Annotation>, ids: seq<string>, tags: seq<string>): seq<Annotation> {
    Map(s, (a: Annotation) => if a.id in ids then a.(tags := Some(tags)) else a)
  }

  /** The list after `bulkUpdateColor(ids, color)` succeeded. */
  function WithColor(s: seq<Annotation>, ids: seq<string>, color: string): seq<Annotation> {
    Map(s, (a: Annotation) => if a.id in ids then a.(color := Some(color)) else a)
  }

  /** A bulk edit changes the one field of the listed annotations and
      nothing else, keeping length, order and ids. */
  lemma BulkEditSpec(s: seq<Annotation>, ids: seq<string>, tags: seq<string>, color: string)
    ensures |WithTags(s, ids, tags)| == |s| && |WithColor(s, ids, color)| == |s|
    ensures forall i :: 0 <= i < |s| ==>
      WithTags(s, ids, tags)[i].id == s[i].id
      && WithTags(s, ids, tags)[i].tags == (if s[i].id in ids then Some(tags) else s[i].tags)
      && WithTags(s, ids, tags)[i].(tags := s[i].tags) == s[i]
    ensures forall i :: 0 <= i < |s| ==>
      WithColor(s, ids, color)[i].id == s[i].id
      && WithColor(s, ids, color)[i].color == (if s[i].id in ids then Some(color) else s[i].color)
      && WithColor(s, ids, color)[i].(color := s[i].color) == s[i]
  {
  }

  // ----------------------------------------------------------- statistics

  predicate IsHighlight(a: Annotation) { a.kind == HIGHLIGHT }
  predicate IsNote(a: Annotation) { a.kind == NOTE }
  predicate IsBookmark(a: Annotation) { a.kind == BOOKMARK }

  /** `annotation.color || 'default'`. */
  function ColorKey(a: Annotation): (k: string)
    ensures k != ""
    ensures Truthy(a.color) ==> k == a.color.value
    ensures !Truthy(a.color) ==> k == DEFAULT_COLOR
  {
    if Truthy(a.color) then a.color.value else DEFAULT_COLOR
  }

  /** `m[k] = (m[k] || 0) + 1`. */
  function Bump(m: map<string, int>, k: string): map<string, int> {
    m[k := (if k in m then m[k] else 0) + 1]
  }

  /** The colour histogram of a list, built front to back. */
  function ColorCounts(s: seq<Annotation>): map<string, int> {
    if |s| == 0 then map[] else Bump(ColorCounts(s[..|s| - 1]), ColorKey(s[|s| - 1]))
  }

  datatype Stats = Stats(total: int, highlights: int, notes: int, bookmarks: int, byColor: map<string, int>)

  /** What `getStats` reports for a list. */
  function StatsOf(s: seq<Annotation>): Stats {
    Stats(|s|, Count(s, IsHighlight), Count(s, IsNote), Count(s, IsBookmark), ColorCounts(s))
  }

  ghost function Pick(keys: set<string>): string
    requires keys != {}
  {
    var k :| k in keys; k
  }

  /** The sum of a histogram's counts. */
  ghost function Total(m: map<string, int>): int
    decreases |m.Keys|
  {
    if m.Keys == {} then 0
    else
      var k := Pick(m.Keys);
      assert |(m - {k}).Keys| < |m.Keys| by { assert (m - {k}).Keys == m.Keys - {k}; }
      m[k] + Total(m - {k})
  }

  /** Any key can be taken out of the sum first. */
  lemma {:induction false} TotalRemove(m: map<string, int>, k: string)
    requires k in m
    ensures Total(m) == m[k] + Total(m - {k})
    decreases |m.Keys|
  {
    var j := Pick(m.Keys);
    if j != k {
      assert (m - {j}).Keys == m.Keys - {j};
      assert (m - {k}).Keys == m.Keys - {k};
      TotalRemove(m - {j}, k);
      TotalRemove(m - {k}, j);
      assert m - {j} - {k} == m - {k} - {j};
    }
  }

  /** Counting one more key adds one to the sum. */
  lemma TotalBump(m: map<string, int>, k: string)
    ensures Total(Bump(m, k)) == Total(m) + 1
  {
    var b := Bump(m, k);
    TotalRemove(b, k);
    assert b - {k} == m - {k};
    if k in m {
      TotalRemove(m, k);
    } else {
      assert m - {k} == m;
    }
  }

  /** The colour histogram counts every annotation exactly once. */
  lemma {:induction false} ColorCountsTotal(s: seq<Annotation>)
    ensures Total(ColorCounts(s)) == |s|
    decreases |s|
  {
    if |s| > 0 {
      ColorCountsTotal(s[..|s| - 1]);
      TotalBump(ColorCounts(s[..|s| - 1]), ColorKey(s[|s| - 1]));
    }
  }

  /** The histogram has a positive count for the colour of every
      annotation (annotations without a colour under "default"). */
  lemma {:induction false} ColorCountsCover(s: seq<Annotation>)
    ensures forall i :: 0 <= i < |s| ==> ColorKey(s[i]) in ColorCounts(s)
    ensures forall k :: k in ColorCounts(s) ==> ColorCounts(s)[k] > 0
    decreases |s|
  {
    if |s| > 0 {
      var init := s[..|s| - 1];
      ColorCountsCover(init);
      assert forall i :: 0 <= i < |init| ==> init[i] == s[i];
    }
  }

  /** The histogram has no key but the colours that occur. */
  lemma {:induction false} ColorCountsKeys(s: seq<Annotation>)
    ensures forall k :: k in ColorCounts(s) ==> exists i :: 0 <= i < |s| && ColorKey(s[i]) == k
    decreases |s|
  {
    if |s| > 0 {
      var init := s[..|s| - 1];
      ColorCountsKeys(init);
      forall k | k in ColorCounts(s)
        ensures exists i :: 0 <= i < |s| && ColorKey(s[i]) == k
      {
        if k != ColorKey(s[|s| - 1]) {
          assert ColorCounts(s) == Bump(ColorCounts(init), ColorKey(s[|s| - 1]));
          assert k in ColorCounts(init);
          var i :| 0 <= i < |init| && ColorKey(init[i]) == k;
          assert s[i] == init[i];
        }
      }
    }
  }

  /** When every annotation has one of the three kinds, the kind counts add
      up to the total; an annotation of another kind is counted in none. */
  lemma {:induction false} KindCountsPartition(s: seq<Annotation>)
    requires forall a :: a in s ==> a.kind in {HIGHLIGHT, NOTE, BOOKMARK}
    ensures Count(s, IsHighlight) + Count(s, IsNote) + Count(s, IsBookmark) == |s|
    decreases |s|
  {
    if |s| > 0 {
      var init := s[..|s| - 1];
      assert forall a :: a in init ==> a in s;
      assert s[|s| - 1] in s;
      KindCountsPartition(init);
    }
  }

  // ---------------------------------------------------------------- state

  class Store {
    var annotations: seq<Annotation>
    var filter: AnnotationFilter
    var loading: bool
    var creating: bool

    /** The hook's initial state: nothing loaded yet, the "all" filter. */
    constructor()
      ensures annotations == [] && filter == Initial() && loading && !creating
    {
      annotations := [];
      filter := Initial();
      loading := true;
      creating := false;
    }

    /** `loadAnnotations`: a fetched list (null meaning empty) replaces the
        local one; a failed fetch keeps it. */
    method LoadAnnotations(ok: bool, data: Option<seq<Annotation>>)
      modifies this
      ensures annotations == (if !ok then old(annotations) else if data.Some? then data.value else [])
      ensures !loading && filter == old(filter) && creating == old(creating)
    {
      loading := true;
      if ok {
        annotations := if data.Some? then data.value else [];
      }
      loading := false;
    }

    /** `createAnnotation`: the server's record (`None` when the call
        failed) is appended and returned. */
    method CreateAnnotation(response: Option<Annotation>) returns (created: Option<Annotation>)
      modifies this
      ensures created == response
      ensures annotations == if response.Some? then old(annotations) + [response.value] else old(annotations)
      ensures !creating && filter == old(filter) && loading == old(loading)
    {
      creating := true;
      if response.Some? {
        annotations := annotations + [response.value];
      }
      created := response;
      creating := false;
    }

    /** `updateAnnotation(id, updates)`, applied locally only after the
        server accepted it. */
    method UpdateAnnotation(id: string, updates: Patch, ok: bool)
      modifies this`annotations
      ensures annotations == if ok then Updated(old(annotations), id, updates) else old(annotations)
    {
      if ok {
        annotations := Updated(annotations, id, updates);
      }
    }

    /** `deleteAnnotation(id)`. */
    method DeleteAnnotation(id: string, ok: bool)
      modifies this`annotations
      ensures annotations == if ok then Without(old(annotations), id) else old(annotations)
    {
      if ok {
        annotations := Without(annotations, id);
      }
    }

    /** `bulkDelete(ids)`: one remote delete per id; the local list changes
        only when every one of them succeeded. */
    method BulkDelete(ids: seq<string>, oks: seq<bool>)
      requires |oks| == |ids|
      modifies this`annotations
      ensures annotations == if AllSucceed(oks) then WithoutAll(old(annotations), ids) else old(annotations)
    {
      if AllSucceed(oks) {
        annotations := WithoutAll(annotations, ids);
      }
    }

    /** `bulkUpdateTags(ids, tags)`, all or nothing as `bulkDelete`. */
    method BulkUpdateTags(ids: seq<string>, tags: seq<string>, oks: seq<bool>)
      requires |oks| == |ids|
      modifies this`annotations
      ensures annotations == if AllSucceed(oks) then WithTags(old(annotations), ids, tags) else old(annotations)
    {
      if AllSucceed(oks) {
        annotations := WithTags(annotations, ids, tags);
      }
    }

    /** `bulkUpdateColor(ids, color)`, all or nothing as `bulkDelete`. */
    method BulkUpdateColor(ids: seq<string>, color: string, oks: seq<bool>)
      requires |oks| == |ids|
      modifies this`annotations
      ensures annotations == if AllSucceed(oks) then WithColor(old(annotations), ids, color) else old(annotations)
    {
      if AllSucceed(oks) {
        annotations := WithColor(annotations, ids, color);
      }
    }

    /** `setFilter(partial)`. */
    method SetFilter(u: FilterUpdate)
      modifies this`filter
      ensures filter == Merged(old(filter), u)
    {
      filter := Merged(filter, u);
    }

    /** `clearFilter()`. */
    method ClearFilter()
      modifies this`filter
      ensures filter == Initial()
    {
      filter := Initial();
    }

    /** `getStats`: one pass over the list counting kinds and colours. */
    method GetStats() returns (stats: Stats)
      ensures stats == StatsOf(annotations)
    {
      stats := Stats(|annotations|, 0, 0, 0, map[]);
      var i := 0;
      while i < |annotations|
        invariant 0 <= i <= |annotations|
        invariant stats == Stats(|annotations|, Count(annotations[..i], IsHighlight), Count(annotations[..i], IsNote),
                                 Count(annotations[..i], IsBookmark), ColorCounts(annotations[..i]))
      {
        var a := annotations[i];
        assert annotations[..i + 1][..i] == annotations[..i];
        assert annotations[..i + 1][i] == a;
        if a.kind == HIGHLIGHT {
          stats := stats.(highlights := stats.highlights + 1);
        } else if a.kind == NOTE {
          stats := stats.(notes := stats.notes + 1);
        } else if a.kind == BOOKMARK {
          stats := stats.(bookmarks := stats.bookmarks + 1);
        }
        var color := ColorKey(a);
        stats := stats.(byColor := stats.byColor[color := (if color in stats.byColor then stats.byColor[color] else 0) + 1]);
        i := i + 1;
      }
      assert annotations[..i] == annotations;
    }
  }
}
