/** The reader with annotations around it: it keeps the pending text
    selection that the toolbar is shown for, turns the toolbar's request
    into the record handed to the annotations store, and draws an overlay
    for every annotation. */
module EnhancedReader {
  import opened Wrappers
  import opened Strings
  import opened Seqs
  import opened UseAnnotations
  import opened AnnotationToolbar

  /** The record `handleCreateAnnotation` gives the store: an annotation
      without id, owner and timestamps. */
  datatype NewAnnotation = NewAnnotation(
    bookId: string,
    kind: string,
    pageNumber: int,
    startPosition: int,
    endPosition: int,
    selectedText: string,
    content: Option<string>,
    color: Option<string>,
    tags: Option<seq<string>>,
    isPrivate: bool)

  /** The record built from the toolbar's request. */
  function Record(bookId: string, req: CreateRequest): NewAnnotation {
    NewAnnotation(bookId, req.kind, 0, 0, |req.selectedText|, req.selectedText,
                  req.content, req.color, req.tags, true)
  }

  /** The record always sits on page 0 and spans offsets 0 to the length of
      the selected text, is private, and carries the request's kind, text,
      content, colour and tags unchanged; so two requests give the same
      record only when they are the same request. */
  lemma RecordSpec(bookId: string, req: CreateRequest, other: CreateRequest)
    ensures var r := Record(bookId, req);
      r.pageNumber == 0 && r.startPosition == 0 && r.endPosition - r.startPosition == |req.selectedText|
      && r.isPrivate && r.bookId == bookId
      && CreateRequest(r.kind, r.selectedText, r.content, r.color, r.tags) == req
    ensures Record(bookId, req) == Record(bookId, other) ==> req == other
  {
  }

  /** Every annotation counts as visible. */
  function Visible(annotations: seq<Annotation>): (v: seq<Annotation>)
    ensures v == annotations
  {
    FilterAll(annotations, (a: Annotation) => true);
    Filter(annotations, (a: Annotation) => true)
  }

  class Reader {
    /** The trimmed text of the current selection, if any. */
    var pending: Option<string>
    var showPanel: bool
    var showOverlays: bool

    constructor()
      ensures pending == None && !showPanel && showOverlays
    {
      pending := None;
      showPanel := false;
      showOverlays := true;
    }

    /** The toolbar is drawn exactly while a selection is pending. */
    predicate ToolbarShown()
      reads this
    {
      pending.Some?
    }

    /** `handleTextSelection`: nothing without a selection range; a
        selection whose trimmed text is empty clears the pending one, any
        other replaces it with its trimmed text. */
    method HandleTextSelection(hasRange: bool, text: string)
      modifies this`pending
      ensures !hasRange ==> pending == old(pending)
      ensures hasRange && Trim(text) == "" ==> pending == None && !ToolbarShown()
      ensures hasRange && Trim(text) != "" ==> pending == Some(Trim(text)) && ToolbarShown()
      ensures hasRange && pending.Some? ==> pending.value != "" && Trim(pending.value) == pending.value
    {
      if !hasRange {
        return;
      }
      var t := Trim(text);
      TrimIdempotent(text);
      if t != "" {
        pending := Some(t);
      } else {
        pending := None;
      }
    }

    /** `handleCreateAnnotation`: the record goes to the store, which
        appends the server's copy (`response`, `None` when the call
        failed); the pending selection is cleared either way. */
    method HandleCreateAnnotation(store: Store, bookId: string, req: CreateRequest, response: Option<Annotation>)
      returns (sent: NewAnnotation)
      modifies this`pending, store
      ensures sent == Record(bookId, req)
      ensures store.annotations == if response.Some? then old(store.annotations) + [response.value] else old(store.annotations)
      ensures store.filter == old(store.filter) && store.loading == old(store.loading) && !store.creating
      ensures pending == None && !ToolbarShown()
    {
      sent := Record(bookId, req);
      var _ := store.CreateAnnotation(response);
      pending := None;
    }

    /** The toolbar's close button. */
    method CloseToolbar()
      modifies this`pending
      ensures pending == None
    {
      pending := None;
    }

    method ToggleOverlays()
      modifies this`showOverlays
      ensures showOverlays == !old(showOverlays)
    {
      showOverlays := !showOverlays;
    }

    method TogglePanel()
      modifies this`showPanel
      ensures showPanel == !old(showPanel)
    {
      showPanel := !showPanel;
    }
  }
}
