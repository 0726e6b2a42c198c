/** The server's text extraction: the choice of reader by file type, the
    tag stripping applied to every EPUB chapter (script and style blocks
    removed, then every character between '<' and '>' dropped, runs of
    blank lines shortened once, and the ends trimmed), the word count and
    the page estimate of plain-text books. The PDF and EPUB readers
    themselves are foreign libraries; a plain-text file's contents are
    given. Texts are ASCII, so lower-casing keeps every offset. */
module TextExtraction {
  import opened Wrappers
  import opened Strings
  import opened Paging

  // -------------------------------------------------------------- dispatch

  datatype Format = Pdf | Epub | Txt

  datatype Dispatched = Extractor(format: Format) | Unsupported(message: string)

  /** `ExtractText`'s switch on the stored file type. */
  function Dispatch(fileType: string): Dispatched {
    if fileType == "pdf" then Extractor(Pdf)
    else if fileType == "epub" then Extractor(Epub)
    else if fileType == "txt" then Extractor(Txt)
    else Unsupported("unsupported file type: " + fileType)
  }

  /** Exactly the three types have a reader, each its own; every other
      type is an error that names it. */
  lemma DispatchSpec(fileType: string)
    ensures Dispatch(fileType).Extractor? <==> fileType in {"pdf", "epub", "txt"}
    ensures Dispatch(fileType).Unsupported? ==> Dispatch(fileType).message == "unsupported file type: " + fileType
    ensures Dispatch(fileType) == Extractor(Pdf) <==> fileType == "pdf"
    ensures Dispatch(fileType) == Extractor(Epub) <==> fileType == "epub"
    ensures Dispatch(fileType) == Extractor(Txt) <==> fileType == "txt"
  {
  }

  // ------------------------------------------------------ dropping tags

  /** The text written so far and whether the scan is inside a tag. */
  datatype Scan = Scan(out: string, inTag: bool)

  function ScanStep(st: Scan, c: char): Scan {
    if c == '<' then Scan(st.out, true)
    else if c == '>' then Scan(st.out, false)
    else if !st.inTag then Scan(st.out + [c], false)
    else st
  }

  /** The scan of `s` continued from state `st`. */
  function ScanFrom(st: Scan, s: string): Scan
    decreases |s|
  {
    if |s| == 0 then st else ScanFrom(ScanStep(st, s[0]), s[1..])
  }

  function StripTags(s: string): string {
    ScanFrom(Scan("", false), s).out
  }

  /** The character loop of `stripHTMLTags`. */
  method StripTagChars(html: string) returns (result: string)
    ensures result == StripTags(html)
  {
    result := "";
    var inTag := false;
    var k := 0;
    while k < |html|
      invariant 0 <= k <= |html|
      invariant ScanFrom(Scan(result, inTag), html[k..]) == ScanFrom(Scan("", false), html)
    {
      assert html[k..][1..] == html[k + 1..];
      var c := html[k];
      if c == '<' {
        inTag := true;
      } else if c == '>' {
        inTag := false;
      } else if !inTag {
        result := result + [c];
      }
      k := k + 1;
    }
  }

  /** No '<' or '>' is ever written. */
  lemma {:induction false} ScanNoBrackets(st: Scan, s: string)
    requires '<' !in st.out && '>' !in st.out
    ensures '<' !in ScanFrom(st, s).out && '>' !in ScanFrom(st, s).out
    decreases |s|
  {
    if |s| > 0 {
      ScanNoBrackets(ScanStep(st, s[0]), s[1..]);
    }
  }

  /** Outside a tag, text without brackets is copied as it is. */
  lemma {:induction false} ScanPlain(out: string, s: string)
    requires '<' !in s && '>' !in s
    ensures ScanFrom(Scan(out, false), s) == Scan(out + s, false)
    decreases |s|
  {
    if |s| > 0 {
      assert s[0] in s;
      assert forall c :: c in s[1..] ==> c in s;
      ScanPlain(out + [s[0]], s[1..]);
      assert out + [s[0]] + s[1..] == out + s;
    }
  }

  /** A tag, from its '<' to the next '>', is dropped whatever the state. */
  lemma {:induction false} ScanTag(st: Scan, body: string, rest: string)
    requires '>' !in body
    ensures ScanFrom(st, "<" + body + ">" + rest) == ScanFrom(Scan(st.out, false), rest)
    decreases |body|
  {
    var s := "<" + body + ">" + rest;
    assert s[0] == '<' && s[1..] == body + ">" + rest;
    InsideTag(st.out, body, rest);
  }

  lemma {:induction false} InsideTag(out: string, body: string, rest: string)
    requires '>' !in body
    ensures ScanFrom(Scan(out, true), body + ">" + rest) == ScanFrom(Scan(out, false), rest)
    decreases |body|
  {
    var s := body + ">" + rest;
    if |body| == 0 {
      assert s[0] == '>' && s[1..] == rest;
    } else {
      assert body[0] in body;
      assert s[0] == body[0] && s[1..] == body[1..] + ">" + rest;
      assert forall c :: c in body[1..] ==> c in body;
      InsideTag(out, body[1..], rest);
    }
  }

  /** A '>' outside any tag is dropped too. */
  lemma StrayClose(out: string, rest: string)
    ensures ScanFrom(Scan(out, false), ">" + rest) == ScanFrom(Scan(out, false), rest)
  {
    assert (">" + rest)[1..] == rest;
  }

  /** The stripped text has no brackets and gives back bracket-free text
      unchanged, so stripping twice is stripping once. */
  lemma StripTagsSpec(s: string)
    ensures '<' !in StripTags(s) && '>' !in StripTags(s)
    ensures '<' !in s && '>' !in s ==> StripTags(s) == s
    ensures StripTags(StripTags(s)) == StripTags(s)
  {
    ScanNoBrackets(Scan("", false), s);
    if '<' !in s && '>' !in s {
      ScanPlain("", s);
    }
    ScanPlain("", StripTags(s));
  }

  // --------------------------------------------- removing tag content

  /** The piece one pass of `removeTagContent` cuts: from the first
      case-insensitive "<tag" to the end of the first "</tag>" after it,
      when both are there. */
  function NextCut(html: string, tag: string): (r: Option<(nat, nat)>)
    ensures r.Some? ==> r.value.0 < r.value.1 <= |html|
  {
    match Index(Lower(html), "<" + tag)
    case None => None
    case Some(start) =>
      match Index(Lower(html[start..]), "</" + tag + ">")
      case None => None
      case Some(end) => Some((start, start + end + |"</" + tag + ">"|))
  }

  /** `removeTagContent`: cut pieces until none is left. */
  function RemoveTag(html: string, tag: string): string
    decreases |html|
  {
    match NextCut(html, tag)
    case None => html
    case Some(cut) => RemoveTag(html[..cut.0] + html[cut.1..], tag)
  }

  /** The loop of `removeTagContent`; every pass shortens the text. */
  method RemoveTagContent(html0: string, tag: string) returns (html: string)
    ensures html == RemoveTag(html0, tag)
  {
    html := html0;
    while true
      invariant RemoveTag(html, tag) == RemoveTag(html0, tag)
      decreases |html|
    {
      var cut := FindCut(html, tag);
      if cut.None? {
        break;
      }
      html := html[..cut.value.0] + html[cut.value.1..];
    }
  }

  /** The two searches of one pass. */
  method FindCut(html: string, tag: string) returns (cut: Option<(nat, nat)>)
    ensures cut == NextCut(html, tag)
  {
    var openTag := "<" + tag;
    var closeTag := "</" + tag + ">";
    var start := Index(Lower(html), openTag);
    if start.None? {
      return None;
    }
    var end := Index(Lower(html[start.value..]), closeTag);
    if end.None? {
      return None;
    }
    return Some((start.value, start.value + end.value + |closeTag|));
  }

  /** Cutting never lengthens the text and leaves no further piece to
      cut, so applying it again changes nothing. */
  lemma {:induction false} RemoveTagSpec(html: string, tag: string)
    ensures |RemoveTag(html, tag)| <= |html|
    ensures NextCut(RemoveTag(html, tag), tag).None?
    ensures RemoveTag(RemoveTag(html, tag), tag) == RemoveTag(html, tag)
    decreases |html|
  {
    match NextCut(html, tag)
    case None =>
    case Some(cut) =>
      RemoveTagSpec(html[..cut.0] + html[cut.1..], tag);
  }

  /** Without a "<tag" in any case the text is left as it is. */
  lemma RemoveTagAbsent(html: string, tag: string)
    requires !Contains(Lower(html), "<" + tag)
    ensures RemoveTag(html, tag) == html
  {
  }

  /** One pass cuts a piece that starts with "<tag" and ends with
      "</tag>", ignoring case. */
  lemma CutPiece(html: string, tag: string, start: nat, stop: nat)
    requires NextCut(html, tag) == Some((start, stop))
    ensures OccursAt(Lower(html), "<" + tag, start)
    ensures start + |"</" + tag + ">"| <= stop
    ensures OccursAt(Lower(html), "</" + tag + ">", stop - |"</" + tag + ">"|)
    ensures forall j :: 0 <= j < start ==> !OccursAt(Lower(html), "<" + tag, j)
    ensures forall j :: start <= j < stop - |"</" + tag + ">"| ==> !OccursAt(Lower(html), "</" + tag + ">", j)
  {
    var close := "</" + tag + ">";
    var end := CutFound(html, tag, start, stop);
    var low := Lower(html);
    LowerSlice(html, start, |html|);
    assert html[start..|html|] == html[start..] && low[start..|html|] == low[start..];
    FirstAfter(low, close, start, end);
  }

  /** What `NextCut` found: the first opening tag, then the first closing
      tag after it. */
  lemma CutFound(html: string, tag: string, start: nat, stop: nat) returns (end: nat)
    requires NextCut(html, tag) == Some((start, stop))
    ensures Index(Lower(html), "<" + tag) == Some(start)
    ensures start <= |html| && Index(Lower(html[start..]), "</" + tag + ">") == Some(end)
    ensures stop == start + end + |"</" + tag + ">"|
  {
    end := Index(Lower(html[start..]), "</" + tag + ">").value;
  }

  /** The first occurrence in a suffix is the first one in the whole from
      where the suffix starts. */
  lemma FirstAfter(s: string, sub: string, a: nat, end: nat)
    requires a <= |s| && Index(s[a..], sub) == Some(end)
    ensures OccursAt(s, sub, a + end)
    ensures forall j :: a <= j < a + end ==> !OccursAt(s, sub, j)
  {
    OccursShift(s, sub, a, end);
    forall j | a <= j < a + end ensures !OccursAt(s, sub, j) {
      OccursShift(s, sub, a, j - a);
    }
  }

  /** An occurrence in a suffix is an occurrence in the whole, shifted. */
  lemma OccursShift(s: string, sub: string, a: nat, j: nat)
    requires a <= |s|
    ensures OccursAt(s[a..], sub, j) <==> OccursAt(s, sub, a + j)
  {
    if j + |sub| <= |s| - a {
      assert s[a..][j..j + |sub|] == s[a + j..a + j + |sub|];
    }
  }

  // ------------------------------------------------------ stripHTMLTags

  const THREE_NL := "\n\n\n"
  const TWO_NL := "\n\n"

  /** `stripHTMLTags`. */
  function StripHtml(html: string): string {
    var text := StripTags(RemoveTag(RemoveTag(html, "script"), "style"));
    Trim(ReplaceAll(text, THREE_NL, TWO_NL))
  }

  method StripHtmlTags(html0: string) returns (text: string)
    ensures text == StripHtml(html0)
  {
    var html := RemoveTagContent(html0, "script");
    html := RemoveTagContent(html, "style");
    text := StripTagChars(html);
    text := ReplaceAll(text, THREE_NL, TWO_NL);
    text := Trim(text);
  }

  /** The result has no '<' or '>', and no white space at either end. */
  lemma StripHtmlSpec(html: string)
    ensures '<' !in StripHtml(html) && '>' !in StripHtml(html)
    ensures StripHtml(html) == [] || (!IsSpace(StripHtml(html)[0]) && !IsSpace(StripHtml(html)[|StripHtml(html)| - 1]))
  {
    var text := StripTags(RemoveTag(RemoveTag(html, "script"), "style"));
    StripTagsSpec(RemoveTag(RemoveTag(html, "script"), "style"));
    ReplaceAllChars(text, THREE_NL, TWO_NL, '<');
    ReplaceAllChars(text, THREE_NL, TWO_NL, '>');
    TrimChars(ReplaceAll(text, THREE_NL, TWO_NL));
  }

  /** The blank lines are shortened in one pass, so four newlines in a row
      come out as three. */
  lemma OnePass()
    ensures ReplaceAll("\n\n\n\n", THREE_NL, TWO_NL) == THREE_NL
  {
    var s := "\n\n\n\n";
    assert OccursAt(s, THREE_NL, 0);
    assert Index(s, THREE_NL) == Some(0);
    assert s[3..] == "\n";
    assert !OccursAt("\n", THREE_NL, 0);
    assert !Contains("\n", THREE_NL);
  }

  // ------------------------------------------------------------- words

  const WORDS_PER_PAGE := 500

  /** `countWords`. */
  function CountWords(text: string): nat {
    var t := Trim(text);
    if t == "" then 0 else |Fields(t)|
  }

  /** The count is the number of white-space separated fields, and 0
      exactly for blank text. */
  lemma CountWordsSpec(text: string)
    ensures CountWords(text) == |Fields(text)|
    ensures CountWords(text) == 0 <==> AllSpace(text)
  {
    FieldsTrim(text);
    FieldsEmptyIffBlank(text);
    if Trim(text) == "" {
      assert Fields(Trim(text)) == [];
    }
  }

  datatype Extracted = Extracted(text: string, pageCount: nat, wordCount: nat, hasImages: bool, hasToc: bool)

  /** `extractTXT` on the file's contents, or the read error; the page
      estimate is `(words + 499) / 500`. */
  function ExtractTxt(contents: Option<string>): Option<Extracted> {
    match contents
    case None => None
    case Some(text) =>
      var words := CountWords(text);
      Some(Extracted(text, TotalPages(words, WORDS_PER_PAGE), words, false, false))
  }

  /** A plain-text book is its whole file, with one page per 500 words
      started: the fewest pages of 500 words that hold every word. */
  lemma ExtractTxtSpec(text: string)
    ensures ExtractTxt(Some(text)).Some? && ExtractTxt(Some(text)).value.text == text
    ensures ExtractTxt(Some(text)).value.wordCount == |Fields(text)|
    ensures ExtractTxt(Some(text)).value.pageCount == CeilDiv(|Fields(text)|, WORDS_PER_PAGE)
    ensures ExtractTxt(Some(text)).value.pageCount == 0 <==> AllSpace(text)
  {
    CountWordsSpec(text);
    TotalPagesIsCeil(CountWords(text), WORDS_PER_PAGE);
  }
}
