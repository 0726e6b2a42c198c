/** The annotation side panel of the web client: which list it shows (search
    results or the filtered list), how that list is sorted, the selection of
    annotations and the bulk actions applied to the selection through the
    annotation store. */
module AnnotationPanel {
  import opened Wrappers
  import opened Strings
  import opened Seqs
  import opened Sorting
  import opened UseAnnotations

  const SORT_DATE := "date"
  const SORT_TYPE := "type"
  const SORT_PAGE := "page"
  const ASC := "asc"
  const DESC := "desc"
  /** The first entry of the panel's colour palette, the initial bulk colour. */
  const FIRST_PALETTE_COLOR := "#fef3c7"

  // ---------------------------------------------------------------- sorting

  /** A string's character codes, so that strings sort in code-point order. */
  function Codes(s: string): (r: seq<int>)
    ensures |r| == |s| && forall i :: 0 <= i < |s| ==> r[i] == s[i] as int
  {
    seq(|s|, i requires 0 <= i < |s| => s[i] as int)
  }

  /** Different strings have different codes. */
  lemma CodesInjective(a: string, b: string)
    requires Codes(a) == Codes(b)
    ensures a == b
  {
    assert forall i :: 0 <= i < |a| ==> a[i] as int == b[i] as int;
  }

  /** The value the comparator compares for the chosen sort field: the
      creation time, the type, or the page number with a missing page
      counting as 0. Any other field compares everything equal. */
  function SortKey(sortBy: string): Annotation -> seq<int> {
    (a: Annotation) =>
      if sortBy == SORT_DATE then [a.createdAt]
      else if sortBy == SORT_TYPE then Codes(a.kind)
      else if sortBy == SORT_PAGE then [if a.pageNumber.Some? then a.pageNumber.value else 0]
      else []
  }

  /** The list before sorting: search results while the search box is not
      empty, the filtered list otherwise. */
  function Chosen(all: seq<Annotation>, filter: AnnotationFilter, searchQuery: string): seq<Annotation> {
    if searchQuery != "" then SearchAnnotations(all, searchQuery) else FilterAnnotations(all, filter)
  }

  /** `displayAnnotations`: ascending only for "asc", descending (the
      comparator negated) for anything else. */
  function DisplayAnnotations(all: seq<Annotation>, filter: AnnotationFilter, searchQuery: string,
                              sortBy: string, sortOrder: string): seq<Annotation> {
    SortBy(Chosen(all, filter, searchQuery), SortKey(sortBy), sortOrder == ASC)
  }

  /** The panel shows exactly the search hits (or the filtered annotations
      when the box is empty), each as often as it occurs, ordered by the
      sort field, ties in their original order. */
  lemma DisplaySpec(all: seq<Annotation>, filter: AnnotationFilter, searchQuery: string,
                    sortBy: string, sortOrder: string)
    ensures var d := DisplayAnnotations(all, filter, searchQuery, sortBy, sortOrder);
      multiset(d) == multiset(Chosen(all, filter, searchQuery))
      && (forall a :: a in d <==> a in all && (if searchQuery != "" then Found(a, Lower(searchQuery)) else Keeps(filter, a)))
      && Sorted(d, SortKey(sortBy), sortOrder == ASC)
      && forall k :: Filter(d, KeyIs(SortKey(sortBy), k)) == Filter(Chosen(all, filter, searchQuery), KeyIs(SortKey(sortBy), k))
  {
    var c := Chosen(all, filter, searchQuery);
    var d := DisplayAnnotations(all, filter, searchQuery, sortBy, sortOrder);
    SortBySpec(c, SortKey(sortBy), sortOrder == ASC);
    if searchQuery != "" {
      FilterSound(all, a => Found(a, Lower(searchQuery)));
      FilterComplete(all, a => Found(a, Lower(searchQuery)));
    } else {
      FilterAnnotationsSpec(all, filter);
    }
    forall a
      ensures a in d <==> a in c
    {
      assert a in d <==> a in multiset(d);
      assert a in c <==> a in multiset(c);
    }
  }

  /** Sorting by type compares the type names; equal keys mean equal types,
      so annotations of one type keep their original order. */
  lemma TypeSortGroupsKinds(a: Annotation, b: Annotation)
    requires SortKey(SORT_TYPE)(a) == SortKey(SORT_TYPE)(b)
    ensures a.kind == b.kind
  {
    CodesInjective(a.kind, b.kind);
  }

  /** An unknown sort field leaves the list in its original order. */
  lemma UnknownSortKeepsOrder(all: seq<Annotation>, filter: AnnotationFilter, searchQuery: string,
                              sortBy: string, sortOrder: string)
    requires sortBy !in {SORT_DATE, SORT_TYPE, SORT_PAGE}
    ensures DisplayAnnotations(all, filter, searchQuery, sortBy, sortOrder) == Chosen(all, filter, searchQuery)
  {
    SortByConstantKey(Chosen(all, filter, searchQuery), SortKey(sortBy), sortOrder == ASC, []);
  }

  // -------------------------------------------------------------- selection

  function Ids(s: seq<Annotation>): seq<string> {
    Map(s, (a: Annotation) => a.id)
  }

  /** `handleSelectAll`: a selection as long as the displayed list is
      cleared, any other selection becomes every displayed id. */
  function SelectAll(selected: seq<string>, display: seq<Annotation>): seq<string> {
    if |selected| == |display| then [] else Ids(display)
  }

  /** The select-all box is ticked when the selection is as long as a
      non-empty displayed list. */
  predicate AllTicked(selected: seq<string>, display: seq<Annotation>) {
    |selected| == |display| && |display| > 0
  }

  /** Select-all ticks the box by selecting exactly the displayed ids, and a
      second click clears the selection. */
  lemma SelectAllTwice(selected: seq<string>, display: seq<Annotation>)
    requires |selected| != |display|
    ensures SelectAll(selected, display) == Ids(display)
    ensures |display| > 0 ==> AllTicked(SelectAll(selected, display), display)
    ensures SelectAll(SelectAll(selected, display), display) == []
  {
  }

  /** The test compares only lengths: a selection of other annotations that
      happens to have the displayed list's length is cleared instead of
      extended, and it ticks the box. */
  lemma SelectAllComparesLengths()
    ensures var shown := Annotation("a", "u", "b", NOTE, None, 0, 0, None, None, None, None, true, 0, 0);
      AllTicked(["z"], [shown]) && SelectAll(["z"], [shown]) == [] && "a" !in ["z"]
  {
  }

  /** `handleSelectAnnotation`: the id is removed when selected, appended
      otherwise. */
  function Toggle(selected: seq<string>, id: string): seq<string> {
    if id in selected then Filter(selected, (x: string) => x != id) else selected + [id]
  }

  /** Toggling flips the membership of `id` and no other; toggling twice
      gives back the same set of ids, and the same list when `id` was not
      selected. A duplicate-free selection stays duplicate-free. */
  lemma ToggleSpec(selected: seq<string>, id: string)
    ensures id in Toggle(selected, id) <==> id !in selected
    ensures forall x :: x != id ==> (x in Toggle(selected, id) <==> x in selected)
    ensures (set x | x in Toggle(Toggle(selected, id), id)) == (set x | x in selected)
    ensures id !in selected ==> Toggle(Toggle(selected, id), id) == selected
    ensures Distinct(selected) ==> Distinct(Toggle(selected, id))
  {
    var p := (x: string) => x != id;
    FilterSound(selected, p);
    FilterComplete(selected, p);
    if id !in selected {
      FilterAll(selected, p);
      FilterSnoc(selected, id, p);
    } else {
      var t := Filter(selected, p);
      assert id !in t;
      FilterSound(t + [id], p);
      FilterComplete(t + [id], p);
      if Distinct(selected) {
        FilterDistinct(selected, p);
      }
    }
  }

  // ------------------------------------------------------------- bulk tags

  predicate NotEmpty(t: string) { t != "" }

  /** The bulk tag box: split at commas, each piece trimmed, empty pieces
      dropped. */
  function ParseTags(input: string): seq<string> {
    Filter(Map(Split(input, ','), Trim), NotEmpty)
  }

  /** Every parsed tag is non-empty, has no white space at either end and
      no comma. */
  lemma ParseTagsSpec(input: string)
    ensures forall t :: t in ParseTags(input) ==>
      t != "" && !IsSpace(t[0]) && !IsSpace(t[|t| - 1]) && ',' !in t
  {
    var pieces := Split(input, ',');
    var trimmed := Map(pieces, Trim);
    SplitParts(input, ',');
    FilterSound(trimmed, NotEmpty);
    forall t | t in ParseTags(input)
      ensures t != "" && !IsSpace(t[0]) && !IsSpace(t[|t| - 1]) && ',' !in t
    {
      var i :| 0 <= i < |trimmed| && trimmed[i] == t;
      TrimChars(pieces[i]);
    }
  }

  /** Tags already in that form come back unchanged from a comma-joined
      box. */
  lemma ParseTagsJoin(tags: seq<string>)
    requires forall t :: t in tags ==> t != "" && !IsSpace(t[0]) && !IsSpace(t[|t| - 1]) && ',' !in t
    ensures ParseTags(Join(tags, [','])) == tags
  {
    if |tags| == 0 {
      assert Join(tags, [',']) == "";
      assert Split("", ',') == [""];
      assert Trim("") == "";
      assert Map([""], Trim) == [""];
      FilterSingleton("", NotEmpty);
    } else {
      SplitJoin(tags, ',');
      TrimAll(tags);
      FilterAll(tags, NotEmpty);
    }
  }

  lemma TrimAll(tags: seq<string>)
    requires forall t :: t in tags ==> t != "" && !IsSpace(t[0]) && !IsSpace(t[|t| - 1])
    ensures Map(tags, Trim) == tags
  {
    var trimmed := Map(tags, Trim);
    forall i | 0 <= i < |tags|
      ensures trimmed[i] == tags[i]
    {
      TrimUntrimmed(tags[i]);
    }
  }

  // ------------------------------------------------------------------ state

  class Panel {
    var selected: seq<string>
    var showBulkActions: bool
    var bulkTagInput: string
    var bulkColor: string
    var searchQuery: string
    var sortBy: string
    var sortOrder: string

    constructor()
      ensures selected == [] && !showBulkActions && bulkTagInput == "" && bulkColor == FIRST_PALETTE_COLOR
      ensures searchQuery == "" && sortBy == SORT_DATE && sortOrder == DESC
    {
      selected := [];
      showBulkActions := false;
      bulkTagInput := "";
      bulkColor := FIRST_PALETTE_COLOR;
      searchQuery := "";
      sortBy := SORT_DATE;
      sortOrder := DESC;
    }

    /** The select-all box. */
    method HandleSelectAll(display: seq<Annotation>)
      modifies this`selected
      ensures selected == SelectAll(old(selected), display)
    {
      if |selected| == |display| {
        selected := [];
      } else {
        selected := Ids(display);
      }
    }

    /** One annotation's box. */
    method HandleSelectAnnotation(id: string)
      modifies this`selected
      ensures selected == Toggle(old(selected), id)
    {
      selected := Toggle(selected, id);
    }

    /** Bulk delete: needs a selection and the reader's confirmation; the
        selection is cleared and the bulk actions closed afterwards, whether
        or not the deletions succeeded. */
    method HandleBulkDelete(store: Store, confirmed: bool, oks: seq<bool>)
      requires |oks| == |selected|
      modifies this`selected, this`showBulkActions, store`annotations
      ensures |old(selected)| > 0 && confirmed ==>
        store.annotations == (if AllSucceed(oks) then WithoutAll(old(store.annotations), old(selected)) else old(store.annotations))
        && selected == [] && !showBulkActions
      ensures !(|old(selected)| > 0 && confirmed) ==>
        store.annotations == old(store.annotations) && selected == old(selected) && showBulkActions == old(showBulkActions)
    {
      if |selected| > 0 && confirmed {
        store.BulkDelete(selected, oks);
        selected := [];
        showBulkActions := false;
      }
    }

    /** Bulk tags: needs a selection and a non-blank tag box; the parsed
        tags replace each selected annotation's tags, then the box is
        emptied and the bulk actions closed. */
    method HandleBulkUpdateTags(store: Store, oks: seq<bool>)
      requires |oks| == |selected|
      modifies this`bulkTagInput, this`showBulkActions, store`annotations
      ensures |old(selected)| > 0 && !IsBlank(old(bulkTagInput)) ==>
        store.annotations == (if AllSucceed(oks) then WithTags(old(store.annotations), old(selected), ParseTags(old(bulkTagInput))) else old(store.annotations))
        && bulkTagInput == "" && !showBulkActions
      ensures !(|old(selected)| > 0 && !IsBlank(old(bulkTagInput))) ==>
        store.annotations == old(store.annotations) && bulkTagInput == old(bulkTagInput) && showBulkActions == old(showBulkActions)
    {
      if |selected| > 0 && !IsBlank(bulkTagInput) {
        var tags := ParseTags(bulkTagInput);
        store.BulkUpdateTags(selected, tags, oks);
        bulkTagInput := "";
        showBulkActions := false;
      }
    }

    /** Bulk colour: needs a selection; the selection is kept. */
    method HandleBulkUpdateColor(store: Store, oks: seq<bool>)
      requires |oks| == |selected|
      modifies this`showBulkActions, store`annotations
      ensures |old(selected)| > 0 ==>
        store.annotations == (if AllSucceed(oks) then WithColor(old(store.annotations), old(selected), old(bulkColor)) else old(store.annotations))
        && !showBulkActions
      ensures |old(selected)| == 0 ==> store.annotations == old(store.annotations) && showBulkActions == old(showBulkActions)
    {
      if |selected| > 0 {
        store.BulkUpdateColor(selected, bulkColor, oks);
        showBulkActions := false;
      }
    }
  }
}
