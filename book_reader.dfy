/** The reader shell of the web client: it chooses the EPUB, PDF or text
    reader by file type, packs whatever location a reader reports into the
    three numeric wire fields of a new annotation, merges partial reading
    settings, and handles the global keyboard shortcuts. */
module BookReader {
  import opened Wrappers
  import opened Strings

  // ---------------------------------------------------------------- values

  /** The JavaScript values a reader puts into a location event: nothing, a
      number, a string, or the PDF reader's selection rectangle. */
  datatype JsValue =
    | Undefined
    | Num(n: real)
    | Str(s: string)
    | Box(x: int, y: int, width: int, height: int)

  /** JavaScript truthiness: `undefined`, `0` and `""` are false; any object
      is true. Numbers are reals: the text reader reports a scroll
      percentage when nothing is selected. */
  predicate Truthy(v: JsValue) {
    match v
    case Undefined => false
    case Num(n) => n != 0.0
    case Str(s) => s != ""
    case Box(_, _, _, _) => true
  }

  /** `a || b`. */
  function Or(a: JsValue, b: JsValue): (r: JsValue)
    ensures Truthy(a) ==> r == a
    ensures !Truthy(a) ==> r == b
  {
    if Truthy(a) then a else b
  }

  /** What a reader hands to `onAnnotationCreate`, with every field it may
      or may not set. */
  datatype LocationEvent = LocationEvent(
    kind: string,
    pageNumber: JsValue,
    position: JsValue,
    start: JsValue,
    end: JsValue,
    cfi: Option<string>,
    selectedText: Option<string>,
    content: Option<string>)

  /** The record posted to the server. */
  datatype WireAnnotation = WireAnnotation(
    bookId: string,
    kind: string,
    pageNumber: JsValue,
    startPosition: JsValue,
    endPosition: JsValue,
    selectedText: Option<string>,
    content: string,
    isPrivate: bool)

  /** `handleAnnotationCreate`'s object literal. */
  function Packed(bookId: string, e: LocationEvent): WireAnnotation {
    WireAnnotation(
      bookId, e.kind,
      Or(e.pageNumber, Num(0.0)),
      Or(e.position, Or(e.start, Num(0.0))),
      Or(e.position, Or(e.end, Num(0.0))),
      e.selectedText,
      if e.content.Some? && e.content.value != "" then e.content.value else "",
      true)
  }

  /** Every location field is either truthy or exactly 0; a truthy position
      fills both ends, so start and end then coincide; otherwise the ends
      come from `start` and `end`. The record is always private, and the
      content is the event's or "". */
  lemma PackedSpec(bookId: string, e: LocationEvent)
    ensures var w := Packed(bookId, e);
      (Truthy(w.pageNumber) || w.pageNumber == Num(0.0))
      && (Truthy(w.startPosition) || w.startPosition == Num(0.0))
      && (Truthy(w.endPosition) || w.endPosition == Num(0.0))
      && (Truthy(e.position) ==> w.startPosition == e.position == w.endPosition)
      && (!Truthy(e.position) && Truthy(e.start) ==> w.startPosition == e.start)
      && (!Truthy(e.position) && Truthy(e.end) ==> w.endPosition == e.end)
      && w.isPrivate && w.bookId == bookId && w.kind == e.kind && w.selectedText == e.selectedText
      && (e.content.Some? ==> w.content == e.content.value)
      && (e.content.None? ==> w.content == "")
  {
  }

  /** The EPUB reader's event carries only a CFI: it packs to page 0 and
      positions 0/0, and the CFI is dropped, so two such events at
      different places in the book give the same record. */
  lemma EpubEventLosesLocation(bookId: string, e: LocationEvent, cfi1: string, cfi2: string)
    requires e.pageNumber == Undefined && e.position == Undefined && e.start == Undefined && e.end == Undefined
    ensures Packed(bookId, e.(cfi := Some(cfi1))) == Packed(bookId, e.(cfi := Some(cfi2)))
    ensures var w := Packed(bookId, e.(cfi := Some(cfi1)));
      w.pageNumber == Num(0.0) && w.startPosition == Num(0.0) && w.endPosition == Num(0.0)
  {
  }

  /** The text reader's character offset lands in both ends; an offset of
      0 is falsy and packs as 0 all the same. */
  lemma TextEventPacking(bookId: string, e: LocationEvent, offset: real)
    requires e.pageNumber == Undefined && e.start == Undefined && e.end == Undefined
    ensures var w := Packed(bookId, e.(position := Num(offset)));
      w.pageNumber == Num(0.0) && w.startPosition == Num(offset) && w.endPosition == Num(offset)
  {
  }

  /** The PDF reader's position is its selection rectangle: an object, so
      truthy, and the rectangle itself is what lands in both numeric
      position fields. */
  lemma PdfEventPacking(bookId: string, e: LocationEvent, page: int, x: int, y: int, w: int, h: int)
    requires page >= 1
    ensures var r := Packed(bookId, e.(pageNumber := Num(page as real), position := Box(x, y, w, h)));
      r.pageNumber == Num(page as real) && r.startPosition == Box(x, y, w, h) && r.endPosition == Box(x, y, w, h)
  {
  }

  // --------------------------------------------------------------- readers

  datatype ReaderKind = EpubReader | PdfReader | TextReader

  /** The reader for a book: by lower-cased file type, text by default. */
  function ReaderFor(fileType: string): (k: ReaderKind)
    ensures k == EpubReader <==> Lower(fileType) == "epub"
    ensures k == PdfReader <==> Lower(fileType) == "pdf"
  {
    var t := Lower(fileType);
    if t == "epub" then EpubReader else if t == "pdf" then PdfReader else TextReader
  }

  /** The file type's case does not matter. */
  lemma {:induction false} ReaderForIgnoresCase(fileType: string)
    ensures ReaderFor(Lower(fileType)) == ReaderFor(fileType)
  {
    assert Lower(Lower(fileType)) == Lower(fileType) by {
      forall i | 0 <= i < |fileType|
        ensures LowerChar(LowerChar(fileType[i])) == LowerChar(fileType[i])
      {
      }
    }
  }

  /** `initialLocation` is a string, a number or absent. */
  datatype InitialLocation = NoLocation | AtCfi(cfi: string) | AtNumber(n: int)

  /** What the chosen reader is started at: the EPUB reader takes only a
      string, the PDF reader a number or page 1, the text reader a number or
      offset 0. */
  function EpubStart(loc: InitialLocation): (r: Option<string>)
    ensures r.Some? <==> loc.AtCfi?
    ensures r.Some? ==> r.value == loc.cfi
  {
    if loc.AtCfi? then Some(loc.cfi) else None
  }

  function PdfStart(loc: InitialLocation): (page: int)
    ensures loc.AtNumber? ==> page == loc.n
    ensures !loc.AtNumber? ==> page == 1
  {
    if loc.AtNumber? then loc.n else 1
  }

  function TextStart(loc: InitialLocation): (offset: int)
    ensures loc.AtNumber? ==> offset == loc.n
    ensures !loc.AtNumber? ==> offset == 0
  {
    if loc.AtNumber? then loc.n else 0
  }

  // -------------------------------------------------------------- settings

  datatype ReadingSettings = ReadingSettings(
    theme: string,
    fontSize: int,
    fontFamily: string,
    lineHeight: real,
    columnWidth: int)

  const DEFAULT_SETTINGS := ReadingSettings("light", 16, "serif", 1.6, 70)

  /** A `Partial<ReadingSettings>`. */
  datatype SettingsPatch = SettingsPatch(
    theme: Option<string>,
    fontSize: Option<int>,
    fontFamily: Option<string>,
    lineHeight: Option<real>,
    columnWidth: Option<int>)

  const NO_SETTINGS := SettingsPatch(None, None, None, None, None)

  function Over<T>(o: Option<T>, v: T): T {
    if o.Some? then o.value else v
  }

  /** `{...settings, ...patch}`. */
  function MergeSettings(s: ReadingSettings, p: SettingsPatch): ReadingSettings {
    ReadingSettings(Over(p.theme, s.theme), Over(p.fontSize, s.fontSize), Over(p.fontFamily, s.fontFamily),
                    Over(p.lineHeight, s.lineHeight), Over(p.columnWidth, s.columnWidth))
  }

  function OrElse<T>(later: Option<T>, earlier: Option<T>): Option<T> {
    if later.Some? then later else earlier
  }

  /** Two patches applied one after the other, the later one winning. */
  function ThenPatch(p: SettingsPatch, q: SettingsPatch): SettingsPatch {
    SettingsPatch(OrElse(q.theme, p.theme), OrElse(q.fontSize, p.fontSize), OrElse(q.fontFamily, p.fontFamily),
                  OrElse(q.lineHeight, p.lineHeight), OrElse(q.columnWidth, p.columnWidth))
  }

  /** A merge sets exactly the given fields; the empty patch changes
      nothing; merging the same patch twice is merging it once; and two
      merges are one merge of the combined patch. */
  lemma MergeSettingsLaws(s: ReadingSettings, p: SettingsPatch, q: SettingsPatch)
    ensures p.theme.Some? ==> MergeSettings(s, p).theme == p.theme.value
    ensures p.theme.None? ==> MergeSettings(s, p).theme == s.theme
    ensures p.fontSize.Some? ==> MergeSettings(s, p).fontSize == p.fontSize.value
    ensures p.fontSize.None? ==> MergeSettings(s, p).fontSize == s.fontSize
    ensures MergeSettings(s, NO_SETTINGS) == s
    ensures MergeSettings(MergeSettings(s, p), p) == MergeSettings(s, p)
    ensures MergeSettings(MergeSettings(s, p), q) == MergeSettings(s, ThenPatch(p, q))
  {
  }

  // ------------------------------------------------------------- shortcuts

  datatype Shortcut = NoShortcut | EscapeKey | ToggleFullscreenKey | ToggleSettingsKey | SetTheme(theme: string)

  /** The keydown handler's switch: nothing inside an input or text area;
      Escape and F11 always; "s" only with Ctrl or Meta; "1", "2", "3" only
      with Alt. */
  function ShortcutFor(key: string, ctrl: bool, meta: bool, alt: bool, inField: bool): (s: Shortcut)
    ensures inField ==> s == NoShortcut
    ensures s.ToggleSettingsKey? <==> !inField && key == "s" && (ctrl || meta)
    ensures s.SetTheme? ==> !inField && alt && s.theme in {"light", "dark", "sepia"}
    ensures s.EscapeKey? <==> !inField && key == "Escape"
    ensures s.ToggleFullscreenKey? <==> !inField && key == "F11"
  {
    if inField then NoShortcut
    else if key == "Escape" then EscapeKey
    else if key == "F11" then ToggleFullscreenKey
    else if key == "s" then (if ctrl || meta then ToggleSettingsKey else NoShortcut)
    else if key == "1" then (if alt then SetTheme("light") else NoShortcut)
    else if key == "2" then (if alt then SetTheme("dark") else NoShortcut)
    else if key == "3" then (if alt then SetTheme("sepia") else NoShortcut)
    else NoShortcut
  }

  /** Alt with 1, 2, 3 picks light, dark, sepia. */
  lemma ThemeKeys(ctrl: bool, meta: bool)
    ensures ShortcutFor("1", ctrl, meta, true, false) == SetTheme("light")
    ensures ShortcutFor("2", ctrl, meta, true, false) == SetTheme("dark")
    ensures ShortcutFor("3", ctrl, meta, true, false) == SetTheme("sepia")
    ensures ShortcutFor("1", ctrl, meta, false, false) == NoShortcut
  {
  }

  // ----------------------------------------------------------------- state

  /** The shell. `documentFullscreen` is the browser's own fullscreen state,
      which `toggleFullscreen` consults; `isFullscreen` is the component's
      copy, which Escape consults. `saved` is what was last written to
      local storage. */
  class Reader {
    var settings: ReadingSettings
    var showSettings: bool
    var isFullscreen: bool
    var documentFullscreen: bool
    var closed: bool
    var saved: Option<ReadingSettings>

    constructor(fullscreen: bool, documentFullscreen: bool)
      ensures settings == DEFAULT_SETTINGS && !showSettings && isFullscreen == fullscreen
      ensures this.documentFullscreen == documentFullscreen && !closed && saved == None
    {
      settings := DEFAULT_SETTINGS;
      showSettings := false;
      isFullscreen := fullscreen;
      this.documentFullscreen := documentFullscreen;
      closed := false;
      saved := None;
    }

    /** The settings stored earlier are merged over the current ones; a
        missing or unreadable entry changes nothing. */
    method LoadSaved(stored: Option<SettingsPatch>)
      modifies this`settings
      ensures settings == if stored.Some? then MergeSettings(old(settings), stored.value) else old(settings)
    {
      if stored.Some? {
        settings := MergeSettings(settings, stored.value);
      }
    }

    /** `updateSettings`: merge, then store the merged settings. */
    method UpdateSettings(p: SettingsPatch)
      modifies this`settings, this`saved
      ensures settings == MergeSettings(old(settings), p) && saved == Some(settings)
    {
      settings := MergeSettings(settings, p);
      saved := Some(settings);
    }

    /** `toggleFullscreen`: leaves fullscreen when the document is in it,
        enters it otherwise, and copies the new state. */
    method ToggleFullscreen()
      modifies this`isFullscreen, this`documentFullscreen
      ensures documentFullscreen == !old(documentFullscreen) && isFullscreen == documentFullscreen
    {
      documentFullscreen := !documentFullscreen;
      isFullscreen := documentFullscreen;
    }

    /** The keydown handler. Escape toggles fullscreen while the component
        believes it is fullscreen, and closes the reader (when a close
        handler is wired) only otherwise. */
    method KeyDown(key: string, ctrl: bool, meta: bool, alt: bool, inField: bool, hasOnClose: bool)
      modifies this`settings, this`saved, this`showSettings, this`isFullscreen, this`documentFullscreen, this`closed
      ensures var k := ShortcutFor(key, ctrl, meta, alt, inField);
        closed == (old(closed) || (k.EscapeKey? && !old(isFullscreen) && hasOnClose))
      ensures var k := ShortcutFor(key, ctrl, meta, alt, inField);
        if k.ToggleFullscreenKey? || (k.EscapeKey? && old(isFullscreen))
        then documentFullscreen == !old(documentFullscreen) && isFullscreen == documentFullscreen
        else documentFullscreen == old(documentFullscreen) && isFullscreen == old(isFullscreen)
      ensures var k := ShortcutFor(key, ctrl, meta, alt, inField);
        showSettings == (if k.ToggleSettingsKey? then !old(showSettings) else old(showSettings))
      ensures var k := ShortcutFor(key, ctrl, meta, alt, inField);
        if k.SetTheme? then settings == old(settings).(theme := k.theme) && saved == Some(settings)
        else settings == old(settings) && saved == old(saved)
    {
      var k := ShortcutFor(key, ctrl, meta, alt, inField);
      match k {
        case NoShortcut =>
        case EscapeKey =>
          if isFullscreen {
            ToggleFullscreen();
          } else if hasOnClose {
            closed := true;
          }
        case ToggleFullscreenKey =>
          ToggleFullscreen();
        case ToggleSettingsKey =>
          showSettings := !showSettings;
        case SetTheme(t) =>
          UpdateSettings(SettingsPatch(Some(t), None, None, None, None));
      }
    }
  }
}
