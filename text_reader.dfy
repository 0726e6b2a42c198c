/** The plain-text reader: it captures a selection as character offsets
    into the text, turns a menu choice into an annotation event at the
    selection start (or at the scroll position for a bookmark without a
    selection), and keeps a list of bookmarked scroll positions. Scroll
    positions are percentages, so they are reals. */
module TextReader {
  import opened Wrappers
  import opened Strings
  import opened UseAnnotations
  import BookReader

  datatype TextSelection = TextSelection(text: string, start: int, end: int)

  /** What `createAnnotation` hands to `onAnnotationCreate`. */
  datatype TextEvent = TextEvent(kind: string, position: real, selectedText: Option<string>, content: Option<string>)

  /** `Math.round`: the nearest integer, halves rounded up. */
  function Round(x: real): (r: int)
    ensures x - 0.5 < r as real <= x + 0.5
  {
    (x + 0.5).Floor
  }

  /** The selection captured from the browser's selection text and the
      length of the text before it: the trimmed text from that offset on;
      nothing when the trimmed text is empty. */
  function Captured(raw: string, before: nat): (sel: Option<TextSelection>)
    ensures sel.Some? <==> Trim(raw) != ""
    ensures sel.Some? ==> sel.value.text == Trim(raw) && sel.value.start == before
    ensures sel.Some? ==> sel.value.end - sel.value.start == |sel.value.text|
  {
    var text := Trim(raw);
    if text != "" then Some(TextSelection(text, before, before + |text|)) else None
  }

  /** The event for a menu choice, or nothing when a highlight or note is
      asked for without a selection. */
  function Emitted(kind: string, sel: Option<TextSelection>, scroll: real): Option<TextEvent> {
    if sel.None? && kind != BOOKMARK then None
    else Some(TextEvent(kind,
                        if sel.Some? then sel.value.start as real else scroll,
                        if kind == BOOKMARK || sel.None? then None else Some(sel.value.text),
                        if kind == NOTE then Some("") else None))
  }

  /** Only a bookmark can be emitted without a selection, and it then sits
      at the scroll position; with a selection every kind sits at its
      start. A bookmark never carries text, a highlight or note carries the
      selection's, and only a note carries (empty) content. */
  lemma EmittedSpec(kind: string, sel: Option<TextSelection>, scroll: real)
    ensures Emitted(kind, sel, scroll).None? <==> sel.None? && kind != BOOKMARK
    ensures var e := Emitted(kind, sel, scroll);
      e.Some? ==> (e.value.kind == kind
                   && (sel.Some? ==> e.value.position == sel.value.start as real)
                   && (sel.None? ==> e.value.position == scroll)
                   && (e.value.selectedText.Some? <==> kind != BOOKMARK)
                   && (e.value.selectedText.Some? ==> e.value.selectedText.value == sel.value.text)
                   && (e.value.content.Some? <==> kind == NOTE)
                   && (e.value.content.Some? ==> e.value.content.value == ""))
  {
  }

  /** The event as the reader shell sees it. */
  function AsLocation(e: TextEvent): BookReader.LocationEvent {
    BookReader.LocationEvent(e.kind, BookReader.Undefined, BookReader.Num(e.position),
                             BookReader.Undefined, BookReader.Undefined, None, e.selectedText, e.content)
  }

  /** Packed by the shell, a selection at offset `start` is stored at
      page 0 with both ends at `start`: the selection's end is lost. A
      selection at offset 0 also packs as 0/0. */
  lemma PackedAtStart(bookId: string, kind: string, sel: TextSelection, scroll: real)
    requires kind == HIGHLIGHT || kind == NOTE
    ensures var w := BookReader.Packed(bookId, AsLocation(Emitted(kind, Some(sel), scroll).value));
      w.pageNumber == BookReader.Num(0.0)
      && w.startPosition == BookReader.Num(sel.start as real) == w.endPosition
      && w.selectedText == Some(sel.text)
  {
  }

  class Reader {
    var selection: Option<TextSelection>
    var showMenu: bool
    var bookmarks: seq<int>
    var scrollPosition: real

    /** A pending selection spans exactly its text. */
    predicate Valid()
      reads this
    {
      selection.Some? ==> selection.value.text != "" && selection.value.end - selection.value.start == |selection.value.text|
    }

    constructor()
      ensures selection == None && !showMenu && bookmarks == [] && scrollPosition == 0.0 && Valid()
    {
      selection := None;
      showMenu := false;
      bookmarks := [];
      scrollPosition := 0.0;
    }

    /** `handleScroll`, with the percentage computed by the browser. */
    method Scrolled(percentage: real)
      modifies this`scrollPosition
      ensures scrollPosition == percentage
    {
      scrollPosition := percentage;
    }

    /** `handleTextSelection`: a selection whose trimmed text is non-empty
        replaces the pending one and opens the menu; any other selection
        changes nothing. */
    method HandleTextSelection(hasRange: bool, raw: string, before: nat)
      requires Valid()
      modifies this`selection, this`showMenu
      ensures Valid()
      ensures hasRange && Trim(raw) != "" ==> selection == Captured(raw, before) && showMenu
      ensures !hasRange || Trim(raw) == "" ==> selection == old(selection) && showMenu == old(showMenu)
    {
      if !hasRange {
        return;
      }
      var text := Trim(raw);
      if text != "" {
        selection := Some(TextSelection(text, before, before + |text|));
        showMenu := true;
      }
    }

    /** `createAnnotation`: without a selection only a bookmark goes out;
        a bookmark also records the rounded scroll position; after any
        event the menu closes and the selection is dropped. */
    method CreateAnnotation(kind: string) returns (emitted: Option<TextEvent>)
      requires Valid()
      modifies this`selection, this`showMenu, this`bookmarks
      ensures Valid()
      ensures emitted == Emitted(kind, old(selection), scrollPosition)
      ensures emitted.None? ==> selection == old(selection) && showMenu == old(showMenu) && bookmarks == old(bookmarks)
      ensures emitted.Some? ==> selection == None && !showMenu
      ensures emitted.Some? ==> bookmarks == old(bookmarks) + (if kind == BOOKMARK then [Round(scrollPosition)] else [])
    {
      if selection.None? && kind != BOOKMARK {
        return None;
      }
      var position := if selection.Some? then selection.value.start as real else scrollPosition;
      emitted := Some(TextEvent(kind, position,
                                if kind == BOOKMARK || selection.None? then None else Some(selection.value.text),
                                if kind == NOTE then Some("") else None));
      if kind == BOOKMARK {
        bookmarks := bookmarks + [(scrollPosition + 0.5).Floor];
      }
      showMenu := false;
      selection := None;
    }
  }
}
