/** The "My Annotations" page of the web client: the tab and text filter
    over the fetched page of annotations, the row of page buttons, the
    previous/next clamps, the "showing x to y" range and the check boxes
    that build the selection for bulk deletion. Twenty annotations make a
    page. */
module AnnotationsPage {
  import opened Wrappers
  import opened Strings
  import opened Seqs
  import opened UseAnnotations
  import opened Paging
  import AnnotationPanel

  const PER_PAGE := 20
  const WINDOW := 5

  // ---------------------------------------------------------------- filter

  /** `tab.slice(0, -1)`: the tab name without its last letter. */
  function TabType(tab: string): string {
    if |tab| == 0 then "" else tab[..|tab| - 1]
  }

  /** The type sent to the server for a tab: none for "all". */
  function RequestType(tab: string): Option<string> {
    if tab == ALL then None else Some(TabType(tab))
  }

  /** The plural tab names give the three annotation kinds. */
  lemma TabTypes()
    ensures RequestType("highlights") == Some(HIGHLIGHT)
    ensures RequestType("notes") == Some(NOTE)
    ensures RequestType("bookmarks") == Some(BOOKMARK)
    ensures RequestType(ALL) == None
  {
    assert "highlights"[..9] == HIGHLIGHT;
    assert "notes"[..4] == NOTE;
    assert "bookmarks"[..8] == BOOKMARK;
  }

  /** The page's own filter: the kind must start with the tab's type, and a
      non-empty query must occur, ignoring case, in the selected text or
      the content. */
  predicate PageKeeps(tab: string, query: string, a: Annotation) {
    (tab == ALL || StartsWith(a.kind, TabType(tab)))
    && (query == "" || TextMatches(a, Lower(query)))
  }

  function PageFilter(s: seq<Annotation>, tab: string, query: string): seq<Annotation> {
    Filter(s, a => PageKeeps(tab, query, a))
  }

  /** The shown list is exactly the fetched annotations the filter keeps,
      in fetched order. */
  lemma PageFilterSpec(s: seq<Annotation>, tab: string, query: string)
    ensures forall a :: a in PageFilter(s, tab, query) <==> a in s && PageKeeps(tab, query, a)
    ensures IsSubsequence(PageFilter(s, tab, query), s)
  {
    FilterSound(s, a => PageKeeps(tab, query, a));
    FilterComplete(s, a => PageKeeps(tab, query, a));
    FilterSubsequence(s, a => PageKeeps(tab, query, a));
  }

  predicate ValidKind(k: string) {
    k == HIGHLIGHT || k == NOTE || k == BOOKMARK
  }

  predicate IsTab(tab: string) {
    tab == ALL || tab == "highlights" || tab == "notes" || tab == "bookmarks"
  }

  /** The annotations hook's filter with this tab's kind and this query. */
  function HookFilter(tab: string, query: string): AnnotationFilter {
    AnnotationFilter(if query == "" then None else Some(query),
                     Some(if tab == ALL then ALL else TabType(tab)),
                     None, None, None, None, None)
  }

  /** On annotations of the three kinds the prefix test is an exact kind
      match, so the page filters exactly as the annotations hook does. */
  lemma PageFilterMatchesHook(s: seq<Annotation>, tab: string, query: string)
    requires IsTab(tab)
    requires forall a :: a in s ==> ValidKind(a.kind)
    ensures PageFilter(s, tab, query) == FilterAnnotations(s, HookFilter(tab, query))
  {
    var f := HookFilter(tab, query);
    forall a | a in s
      ensures PageKeeps(tab, query, a) == Keeps(f, a)
    {
      TabMatchesKind(tab, a.kind);
    }
    FilterCongruent(s, a => PageKeeps(tab, query, a), a => Keeps(f, a));
  }

  lemma TabMatchesKind(tab: string, kind: string)
    requires IsTab(tab) && ValidKind(kind)
    ensures tab != ALL ==> (StartsWith(kind, TabType(tab)) <==> kind == TabType(tab))
  {
    TabTypes();
    if tab != ALL {
      var t := TabType(tab);
      assert t == HIGHLIGHT || t == NOTE || t == BOOKMARK;
      if StartsWith(kind, t) {
        // the three kinds differ in their first letter
        assert kind[0] == kind[..|t|][0] == t[0];
        assert HIGHLIGHT[0] == 'h' && NOTE[0] == 'n' && BOOKMARK[0] == 'b';
      }
    }
  }

  // ------------------------------------------------------------ pagination

  function Min(a: int, b: int): int { if a <= b then a else b }
  function Max(a: int, b: int): int { if a >= b then a else b }

  /** The number on the `i`-th page button. */
  function PageButton(i: int, current: int, total: int): int {
    if total <= WINDOW then i + 1
    else if current <= 3 then i + 1
    else if current >= total - 2 then total - 4 + i
    else current - 2 + i
  }

  /** The row of page buttons. */
  function PageWindow(current: int, total: nat): seq<int> {
    seq(Min(WINDOW, total), i requires 0 <= i < Min(WINDOW, total) => PageButton(i, current, total))
  }

  /** The row has `min(5, total)` consecutive page numbers, all of them
      pages that exist, and it shows the current page whenever that page
      exists. */
  lemma PageWindowSpec(current: int, total: nat)
    ensures |PageWindow(current, total)| == Min(WINDOW, total)
    ensures forall i :: 0 <= i < |PageWindow(current, total)| ==> 1 <= PageWindow(current, total)[i] <= total
    ensures forall i :: 0 < i < |PageWindow(current, total)| ==>
      PageWindow(current, total)[i] == PageWindow(current, total)[i - 1] + 1
    ensures 1 <= current <= total ==> current in PageWindow(current, total)
  {
    var w := PageWindow(current, total);
    if 1 <= current <= total {
      var i := if total <= WINDOW || current <= 3 then current - 1
               else if current >= total - 2 then current - total + 4
               else 2;
      assert 0 <= i < |w| && w[i] == current;
    }
  }

  /** The previous and next buttons. */
  function PrevPage(current: int): int { Max(1, current - 1) }
  function NextPage(current: int, total: int): int { Min(total, current + 1) }

  /** Both buttons keep the page within 1 to `total`, and move it by one
      unless it is at that end already. */
  lemma PrevNextSpec(current: int, total: int)
    requires 1 <= current <= total
    ensures 1 <= PrevPage(current) <= total && 1 <= NextPage(current, total) <= total
    ensures PrevPage(current) == (if current > 1 then current - 1 else 1)
    ensures NextPage(current, total) == (if current < total then current + 1 else total)
  {
  }

  /** "Showing from to to of total". */
  function ShowingFrom(current: int): int { Offset(current, PER_PAGE) + 1 }
  function ShowingTo(current: int, total: int): int { Min(current * PER_PAGE, total) }

  /** On any page that exists, the range is non-empty, within the list, at
      most a page long, and a full page on every page but the last. */
  lemma ShowingSpec(current: int, total: nat)
    requires 1 <= current <= CeilDiv(total, PER_PAGE)
    ensures 1 <= ShowingFrom(current) <= ShowingTo(current, total) <= total
    ensures ShowingTo(current, total) - ShowingFrom(current) + 1 <= PER_PAGE
    ensures current < CeilDiv(total, PER_PAGE) ==> ShowingTo(current, total) - ShowingFrom(current) + 1 == PER_PAGE
  {
    PagesCover(total, PER_PAGE, current);
    PagesCover(total, PER_PAGE, current + 1);
  }

  // ------------------------------------------------------------- selection

  /** A check box's change: checked appends the id, unchecked removes every
      copy of it. */
  function Checked(selected: seq<string>, id: string, checked: bool): seq<string> {
    if checked then selected + [id] else Filter(selected, (x: string) => x != id)
  }

  /** The box shows whether the id is selected, so a click always asks for
      the opposite: it toggles exactly as the annotation panel does. */
  lemma CheckboxIsToggle(selected: seq<string>, id: string)
    ensures Checked(selected, id, id !in selected) == AnnotationPanel.Toggle(selected, id)
    ensures id in Checked(selected, id, id !in selected) <==> id !in selected
  {
    AnnotationPanel.ToggleSpec(selected, id);
  }

  // ----------------------------------------------------------------- state

  class Page {
    var annotations: seq<Annotation>
    var totalAnnotations: int
    var totalPages: int
    var currentPage: int
    var selected: seq<string>
    var activeTab: string
    var searchQuery: string

    constructor()
      ensures annotations == [] && totalAnnotations == 0 && totalPages == 0 && currentPage == 1
      ensures selected == [] && activeTab == ALL && searchQuery == ""
    {
      annotations := [];
      totalAnnotations := 0;
      totalPages := 0;
      currentPage := 1;
      selected := [];
      activeTab := ALL;
      searchQuery := "";
    }

    /** The annotations listed: the fetched page, filtered once more. */
    function Shown(): seq<Annotation>
      reads this
    {
      PageFilter(annotations, activeTab, searchQuery)
    }

    /** A fetch answered: a missing list or total counts as empty or 0,
        and the page count follows the total. A failed fetch keeps
        everything. */
    method Fetched(ok: bool, data: Option<seq<Annotation>>, total: Option<int>)
      modifies this`annotations, this`totalAnnotations, this`totalPages
      ensures !ok ==> annotations == old(annotations) && totalAnnotations == old(totalAnnotations)
                      && totalPages == old(totalPages)
      ensures ok ==> annotations == (if data.Some? then data.value else [])
      ensures ok ==> totalAnnotations == (if total.Some? then total.value else 0)
                     && totalPages == CeilDiv(totalAnnotations, PER_PAGE)
    {
      if ok {
        annotations := if data.Some? then data.value else [];
        totalAnnotations := if total.Some? then total.value else 0;
        totalPages := CeilDiv(totalAnnotations, PER_PAGE);
      }
    }

    /** A tab click: the current page is kept, even when the new tab has
        fewer pages. */
    method SetTab(tab: string)
      modifies this`activeTab
      ensures activeTab == tab
    {
      activeTab := tab;
    }

    method Prev()
      modifies this`currentPage
      ensures currentPage == PrevPage(old(currentPage))
      ensures 1 <= old(currentPage) <= totalPages ==> 1 <= currentPage <= totalPages
    {
      if 1 <= currentPage <= totalPages {
        PrevNextSpec(currentPage, totalPages);
      }
      currentPage := Max(1, currentPage - 1);
    }

    method Next()
      modifies this`currentPage
      ensures currentPage == NextPage(old(currentPage), totalPages)
      ensures 1 <= old(currentPage) <= totalPages ==> 1 <= currentPage <= totalPages
    {
      if 1 <= currentPage <= totalPages {
        PrevNextSpec(currentPage, totalPages);
      }
      currentPage := Min(totalPages, currentPage + 1);
    }

    /** A click on the `i`-th page button. */
    method PageClicked(i: int)
      requires totalPages >= 0 && 0 <= i < Min(WINDOW, totalPages)
      modifies this`currentPage
      ensures currentPage == PageWindow(old(currentPage), totalPages)[i]
      ensures 1 <= currentPage <= totalPages
    {
      PageWindowSpec(currentPage, totalPages);
      currentPage := PageButton(i, currentPage, totalPages);
    }

    /** A check box changed. */
    method CheckboxChanged(id: string, checked: bool)
      modifies this`selected
      ensures selected == Checked(old(selected), id, checked)
    {
      if checked {
        selected := selected + [id];
      } else {
        selected := Filter(selected, (x: string) => x != id);
      }
    }

    /** `deleteAnnotations`: after confirmation the deletions are sent; the
        selection is cleared once they have all been answered, whatever the
        answers were, and stays when one of them could not be sent. */
    method DeleteSelected(confirmed: bool, allSent: bool) returns (sent: seq<string>)
      modifies this`selected
      ensures sent == if confirmed then old(selected) else []
      ensures selected == if confirmed && allSent then [] else old(selected)
    {
      sent := [];
      if !confirmed {
        return;
      }
      sent := selected;
      if allSent {
        selected := [];
      }
    }
  }
}
