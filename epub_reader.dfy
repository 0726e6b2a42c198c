/** The EPUB reader: it records the location epub.js reports after every
    page turn, remembers the selected text, and turns a menu choice into an
    annotation event located by the CFI of the current page's start. */
module EpubReader {
  import opened Wrappers
  import opened UseAnnotations
  import BookReader

  /** One end of the displayed range. */
  datatype Bound = Bound(cfi: string, percentage: real)

  datatype ReadingLocation = ReadingLocation(start: Bound, end: Bound)

  /** What `createAnnotation` hands to `onAnnotationCreate`. */
  datatype EpubEvent = EpubEvent(kind: string, cfi: string, selectedText: Option<string>, content: Option<string>)

  /** `percentage || 0`: a missing percentage counts as 0. */
  function Percentage(p: Option<real>): (r: real)
    ensures p.Some? ==> r == p.value
    ensures p.None? ==> r == 0.0
  {
    if p.Some? && p.value != 0.0 then p.value else 0.0
  }

  /** The location recorded from a `relocated` event. */
  function Relocated(startCfi: string, startPct: Option<real>, endCfi: string, endPct: Option<real>): (r: ReadingLocation)
    ensures r.start.cfi == startCfi && r.end.cfi == endCfi
    ensures r.start.percentage == (if startPct.Some? then startPct.value else 0.0)
    ensures r.end.percentage == (if endPct.Some? then endPct.value else 0.0)
  {
    ReadingLocation(Bound(startCfi, Percentage(startPct)), Bound(endCfi, Percentage(endPct)))
  }

  /** The event for a menu choice: nothing unless some text is selected and
      a location is known, for bookmarks as well. */
  function Emitted(kind: string, selectedText: string, loc: Option<ReadingLocation>): Option<EpubEvent> {
    if selectedText == "" || loc.None? then None
    else Some(EpubEvent(kind, loc.value.start.cfi,
                        if kind == BOOKMARK then None else Some(selectedText),
                        if kind == NOTE then Some("") else None))
  }

  /** An event needs both a selection and a location; it is placed at the
      start of the displayed page whatever was selected, so two selections
      on one page give events at the same CFI; a bookmark drops the text
      and only a note carries (empty) content. */
  lemma EmittedSpec(kind: string, selectedText: string, loc: Option<ReadingLocation>, other: string)
    ensures Emitted(kind, selectedText, loc).Some? <==> selectedText != "" && loc.Some?
    ensures var e := Emitted(kind, selectedText, loc);
      e.Some? ==> (e.value.kind == kind && e.value.cfi == loc.value.start.cfi
                   && (e.value.selectedText.Some? <==> kind != BOOKMARK)
                   && (e.value.selectedText.Some? ==> e.value.selectedText.value == selectedText)
                   && (e.value.content.Some? <==> kind == NOTE))
    ensures other != "" && Emitted(kind, selectedText, loc).Some? ==>
      Emitted(kind, other, loc).value.cfi == Emitted(kind, selectedText, loc).value.cfi
  {
  }

  /** The event as the reader shell sees it. */
  function AsLocation(e: EpubEvent): BookReader.LocationEvent {
    BookReader.LocationEvent(e.kind, BookReader.Undefined, BookReader.Undefined, BookReader.Undefined,
                             BookReader.Undefined, Some(e.cfi), e.selectedText, e.content)
  }

  /** Packed by the shell, every EPUB annotation sits at page 0 and
      positions 0/0: where in the book it was made is not stored. */
  lemma PackedWithoutLocation(bookId: string, e: EpubEvent, f: EpubEvent)
    requires e.kind == f.kind && e.selectedText == f.selectedText && e.content == f.content
    ensures BookReader.Packed(bookId, AsLocation(e)) == BookReader.Packed(bookId, AsLocation(f))
    ensures var w := BookReader.Packed(bookId, AsLocation(e));
      w.pageNumber == BookReader.Num(0.0) && w.startPosition == BookReader.Num(0.0) && w.endPosition == BookReader.Num(0.0)
  {
    BookReader.EpubEventLosesLocation(bookId, AsLocation(e), e.cfi, f.cfi);
  }

  class Reader {
    var currentLocation: Option<ReadingLocation>
    var selectedText: string
    var showMenu: bool

    constructor()
      ensures currentLocation == None && selectedText == "" && !showMenu
    {
      currentLocation := None;
      selectedText := "";
      showMenu := false;
    }

    /** The `relocated` handler: records the location and reports the start
        CFI and percentage. */
    method OnRelocated(startCfi: string, startPct: Option<real>, endCfi: string, endPct: Option<real>)
      returns (reported: (string, real))
      modifies this`currentLocation
      ensures currentLocation == Some(Relocated(startCfi, startPct, endCfi, endPct))
      ensures reported == (startCfi, Percentage(startPct))
    {
      var s := if startPct.Some? && startPct.value != 0.0 then startPct.value else 0.0;
      var e := if endPct.Some? && endPct.value != 0.0 then endPct.value else 0.0;
      currentLocation := Some(ReadingLocation(Bound(startCfi, s), Bound(endCfi, e)));
      reported := (startCfi, s);
    }

    /** The `selected` handler: the CFI range is ignored; a non-empty
        selection is remembered and opens the menu. */
    method OnSelected(cfiRange: string, text: string)
      modifies this`selectedText, this`showMenu
      ensures text != "" ==> selectedText == text && showMenu
      ensures text == "" ==> selectedText == old(selectedText) && showMenu == old(showMenu)
    {
      if text != "" {
        selectedText := text;
        showMenu := true;
      }
    }

    /** `createAnnotation`: after an event the menu closes and the selected
        text is reset. */
    method CreateAnnotation(kind: string) returns (emitted: Option<EpubEvent>)
      modifies this`selectedText, this`showMenu
      ensures emitted == Emitted(kind, old(selectedText), currentLocation)
      ensures emitted.None? ==> selectedText == old(selectedText) && showMenu == old(showMenu)
      ensures emitted.Some? ==> selectedText == "" && !showMenu
    {
      if selectedText == "" || currentLocation.None? {
        return None;
      }
      emitted := Some(EpubEvent(kind, currentLocation.value.start.cfi,
                                if kind == BOOKMARK then None else Some(selectedText),
                                if kind == NOTE then Some("") else None));
      showMenu := false;
      selectedText := "";
    }
  }
}
