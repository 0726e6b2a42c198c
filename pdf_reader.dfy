/** The PDF reader: a page cursor moved by guarded previous/next/go-to
    handlers (and the arrow keys), and the selection-to-annotation step,
    where the event is placed on the current page at the selection's
    rectangle, or at a zero rectangle for a bookmark without a selection. */
module PdfReader {
  import opened Wrappers
  import opened UseAnnotations
  import opened AnnotationOverlay
  import BookReader

  // ------------------------------------------------------------ navigation

  /** `goToPrevPage`: back one page when not on the first. */
  function AfterPrev(page: int): int {
    if page > 1 then page - 1 else page
  }

  /** `goToNextPage`: forward one page when not on the last. */
  function AfterNext(page: int, numPages: int): int {
    if page < numPages then page + 1 else page
  }

  /** `goToPage`: only pages 1 to `numPages` are accepted. */
  function AfterGoTo(page: int, numPages: int, target: int): int {
    if 1 <= target <= numPages then target else page
  }

  /** Every move keeps the cursor within 1 to `numPages` once it is there;
      each moves by at most what it names; and a refused move leaves the
      page where it was. */
  lemma NavigationSpec(page: int, numPages: int, target: int)
    requires 1 <= page <= numPages
    ensures 1 <= AfterPrev(page) <= numPages && 1 <= AfterNext(page, numPages) <= numPages
    ensures 1 <= AfterGoTo(page, numPages, target) <= numPages
    ensures AfterPrev(page) == page - 1 || (page == 1 && AfterPrev(page) == page)
    ensures AfterNext(page, numPages) == page + 1 || (page == numPages && AfterNext(page, numPages) == page)
    ensures AfterGoTo(page, numPages, target) == target <==> 1 <= target <= numPages || target == page
  {
  }

  /** Next then previous returns to the page unless it was the last, and
      previous then next unless it was the first. */
  lemma PrevNextInverse(page: int, numPages: int)
    requires 1 <= page <= numPages
    ensures page < numPages ==> AfterPrev(AfterNext(page, numPages)) == page
    ensures page > 1 ==> AfterNext(AfterPrev(page), numPages) == page
  {
  }

  /** The cursor, starting anywhere, ends within bounds after any run of
      moves once a go-to lands. */
  lemma {:induction false} GoToThenMoves(page: int, numPages: int, target: int, moves: seq<bool>)
    requires 1 <= target <= numPages
    ensures 1 <= Moves(AfterGoTo(page, numPages, target), numPages, moves) <= numPages
  {
    MovesInRange(target, numPages, moves);
  }

  /** A run of arrow keys: true is ArrowRight, false is ArrowLeft. */
  function Moves(page: int, numPages: int, moves: seq<bool>): int
    decreases |moves|
  {
    if |moves| == 0 then page
    else Moves(if moves[0] then AfterNext(page, numPages) else AfterPrev(page), numPages, moves[1..])
  }

  lemma {:induction false} MovesInRange(page: int, numPages: int, moves: seq<bool>)
    requires 1 <= page <= numPages
    ensures 1 <= Moves(page, numPages, moves) <= numPages
    decreases |moves|
  {
    if |moves| > 0 {
      var next := if moves[0] then AfterNext(page, numPages) else AfterPrev(page);
      NavigationSpec(page, numPages, page);
      MovesInRange(next, numPages, moves[1..]);
    }
  }

  // ------------------------------------------------------------ annotations

  datatype PdfSelection = PdfSelection(text: string, pageNumber: int, rect: Rect)

  /** What `createAnnotation` hands to `onAnnotationCreate`. */
  datatype PdfEvent = PdfEvent(kind: string, pageNumber: int, position: Rect, selectedText: Option<string>, content: Option<string>)

  const ZERO_RECT := Rect(0, 0, 0, 0)

  /** The event for a menu choice on the current page, or nothing when a
      highlight or note is asked for without a selection. */
  function Emitted(kind: string, sel: Option<PdfSelection>, page: int): Option<PdfEvent> {
    if sel.None? && kind != BOOKMARK then None
    else Some(PdfEvent(kind, page,
                       if sel.Some? then sel.value.rect else ZERO_RECT,
                       if kind == BOOKMARK || sel.None? then None else Some(sel.value.text),
                       if kind == NOTE then Some("") else None))
  }

  /** Only a bookmark goes out without a selection, at a zero rectangle;
      the event is always on the current page, even when the selection was
      made on another one. */
  lemma EmittedSpec(kind: string, sel: Option<PdfSelection>, page: int)
    ensures Emitted(kind, sel, page).None? <==> sel.None? && kind != BOOKMARK
    ensures var e := Emitted(kind, sel, page);
      e.Some? ==> (e.value.kind == kind && e.value.pageNumber == page
                   && (sel.None? ==> e.value.position == ZERO_RECT)
                   && (sel.Some? ==> e.value.position == sel.value.rect)
                   && (e.value.selectedText.Some? <==> kind != BOOKMARK)
                   && (e.value.selectedText.Some? ==> e.value.selectedText.value == sel.value.text)
                   && (e.value.content.Some? <==> kind == NOTE))
  {
  }

  /** The event as the reader shell sees it. */
  function AsLocation(e: PdfEvent): BookReader.LocationEvent {
    BookReader.LocationEvent(e.kind, BookReader.Num(e.pageNumber as real),
                             BookReader.Box(e.position.x, e.position.y, e.position.width, e.position.height),
                             BookReader.Undefined, BookReader.Undefined, None, e.selectedText, e.content)
  }

  /** Packed by the shell, the page survives but both position fields
      receive the rectangle object rather than a number. */
  lemma PackedWithRectangle(bookId: string, kind: string, sel: Option<PdfSelection>, page: int)
    requires page >= 1 && (sel.Some? || kind == BOOKMARK)
    ensures var e := Emitted(kind, sel, page).value;
      var w := BookReader.Packed(bookId, AsLocation(e));
      w.pageNumber == BookReader.Num(page as real)
      && w.startPosition == w.endPosition
      && w.startPosition.Box?
  {
  }

  // ----------------------------------------------------------------- state

  class Reader {
    var numPages: int
    var pageNumber: int
    var selection: Option<PdfSelection>
    var showMenu: bool

    /** The document has loaded and the cursor is on one of its pages. */
    predicate InRange()
      reads this
    {
      1 <= pageNumber <= numPages
    }

    /** Nothing loaded yet: no pages, the cursor at the initial page. */
    constructor(initialPage: int)
      ensures numPages == 0 && pageNumber == initialPage && selection == None && !showMenu
    {
      numPages := 0;
      pageNumber := initialPage;
      selection := None;
      showMenu := false;
    }

    /** `onDocumentLoadSuccess`: the page count is known; the cursor is
        not moved, so an initial page beyond the end stays out of range. */
    method DocumentLoaded(n: int) returns (reported: (int, int))
      modifies this`numPages
      ensures numPages == n && reported == (pageNumber, n)
    {
      numPages := n;
      reported := (pageNumber, n);
    }

    /** `goToPrevPage`; the new page is reported when it changed. */
    method PrevPage() returns (changed: Option<int>)
      modifies this`pageNumber
      ensures pageNumber == AfterPrev(old(pageNumber))
      ensures changed.Some? <==> pageNumber != old(pageNumber)
      ensures changed.Some? ==> changed.value == pageNumber
      ensures old(InRange()) ==> InRange()
    {
      changed := None;
      if pageNumber > 1 {
        pageNumber := pageNumber - 1;
        changed := Some(pageNumber);
      }
    }

    /** `goToNextPage`. */
    method NextPage() returns (changed: Option<int>)
      modifies this`pageNumber
      ensures pageNumber == AfterNext(old(pageNumber), numPages)
      ensures changed.Some? <==> pageNumber != old(pageNumber)
      ensures changed.Some? ==> changed.value == pageNumber
      ensures old(InRange()) ==> InRange()
    {
      changed := None;
      if pageNumber < numPages {
        pageNumber := pageNumber + 1;
        changed := Some(pageNumber);
      }
    }

    /** `goToPage`; a go-to the current page is reported too. */
    method GoToPage(target: int) returns (changed: Option<int>)
      modifies this`pageNumber
      ensures pageNumber == AfterGoTo(old(pageNumber), numPages, target)
      ensures changed.Some? <==> 1 <= target <= numPages
      ensures changed.Some? ==> changed.value == pageNumber
      ensures old(InRange()) || changed.Some? ==> InRange()
    {
      changed := None;
      if 1 <= target && target <= numPages {
        pageNumber := target;
        changed := Some(target);
      }
    }

    /** The arrow keys move the cursor; the zoom keys are not modelled. */
    method KeyDown(key: string) returns (changed: Option<int>)
      modifies this`pageNumber
      ensures key == "ArrowLeft" ==> pageNumber == AfterPrev(old(pageNumber))
      ensures key == "ArrowRight" ==> pageNumber == AfterNext(old(pageNumber), numPages)
      ensures key != "ArrowLeft" && key != "ArrowRight" ==> pageNumber == old(pageNumber) && changed.None?
    {
      changed := None;
      if key == "ArrowLeft" {
        changed := PrevPage();
      } else if key == "ArrowRight" {
        changed := NextPage();
      }
    }

    /** `handleTextSelection`: a selection with non-empty trimmed text is
        recorded on the current page and opens the menu. */
    method HandleTextSelection(hasRange: bool, trimmed: string, rect: Rect)
      modifies this`selection, this`showMenu
      ensures hasRange && trimmed != "" ==> selection == Some(PdfSelection(trimmed, pageNumber, rect)) && showMenu
      ensures !(hasRange && trimmed != "") ==> selection == old(selection) && showMenu == old(showMenu)
    {
      if hasRange && trimmed != "" {
        selection := Some(PdfSelection(trimmed, pageNumber, rect));
        showMenu := true;
      }
    }

    /** `createAnnotation`: the event goes out on the current page; the menu
        closes and the selection is dropped when it did. */
    method CreateAnnotation(kind: string) returns (emitted: Option<PdfEvent>)
      modifies this`selection, this`showMenu
      ensures emitted == Emitted(kind, old(selection), pageNumber)
      ensures emitted.None? ==> selection == old(selection) && showMenu == old(showMenu)
      ensures emitted.Some? ==> selection == None && !showMenu
    {
      if selection.None? && kind != BOOKMARK {
        return None;
      }
      emitted := Some(PdfEvent(kind, pageNumber,
                               if selection.Some? then selection.value.rect else ZERO_RECT,
                               if kind == BOOKMARK || selection.None? then None else Some(selection.value.text),
                               if kind == NOTE then Some("") else None));
      showMenu := false;
      selection := None;
    }
  }
}
