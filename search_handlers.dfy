/** The helpers of the server's global search: membership in a list of
    strings, the snippet shown around the first matching query term, the
    relevance score (occurrences of the query terms in the searched texts),
    and the request defaults and page count. Texts are ASCII, so lower-
    casing keeps every offset. */
module SearchHandlers {
  import opened Wrappers
  import opened Strings
  import opened Paging

  // -------------------------------------------------------------- contains

  /** `contains(slice, item)`: a scan that stops at the first equal
      element. */
  method ContainsItem(slice: seq<string>, item: string) returns (found: bool)
    ensures found <==> item in slice
  {
    var k := 0;
    while k < |slice|
      invariant 0 <= k <= |slice|
      invariant item !in slice[..k]
    {
      if slice[k] == item {
        return true;
      }
      k := k + 1;
    }
    assert slice[..k] == slice;
    return false;
  }

  // --------------------------------------------------------------- snippet

  const CONTEXT := 50
  const PREVIEW := 100
  const ELLIPSIS := "..."

  /** The first query term, in query order, that occurs in the text, with
      the offset of its first occurrence. */
  function FirstHit(terms: seq<string>, lowerText: string): (h: Option<(string, nat)>)
    ensures h.Some? ==> h.value.0 in terms && Index(lowerText, h.value.0) == Some(h.value.1)
    ensures h.Some? ==> OccursAt(lowerText, h.value.0, h.value.1)
    ensures h.None? ==> forall t :: t in terms ==> !Contains(lowerText, t)
    decreases |terms|
  {
    if |terms| == 0 then None
    else match Index(lowerText, terms[0])
      case Some(i) => Some((terms[0], i))
      case None => FirstHit(terms[1..], lowerText)
  }

  /** A term is found first only if no earlier term occurs at all. */
  lemma {:induction false} FirstHitIsFirst(terms: seq<string>, lowerText: string)
    requires FirstHit(terms, lowerText).Some?
    ensures exists k :: (0 <= k < |terms| && terms[k] == FirstHit(terms, lowerText).value.0
                         && forall j :: 0 <= j < k ==> !Contains(lowerText, terms[j]))
    decreases |terms|
  {
    if Index(lowerText, terms[0]).None? {
      FirstHitIsFirst(terms[1..], lowerText);
      var k :| 0 <= k < |terms[1..]| && terms[1..][k] == FirstHit(terms[1..], lowerText).value.0
        && forall j :: 0 <= j < k ==> !Contains(lowerText, terms[1..][j]);
      assert terms[k + 1] == FirstHit(terms, lowerText).value.0;
      forall j | 0 <= j < k + 1
        ensures !Contains(lowerText, terms[j])
      {
        if j > 0 {
          assert terms[j] == terms[1..][j - 1];
        }
      }
    } else {
      assert terms[0] == FirstHit(terms, lowerText).value.0;
    }
  }

  /** The text from 50 before a match at `i` of length `n` to 50 after it,
      cut at the ends of the text, with "..." where it was cut. */
  function Window(text: string, i: nat, n: nat): string
    requires i + n <= |text|
  {
    var start := if i >= CONTEXT then i - CONTEXT else 0;
    var end := if i + n + CONTEXT > |text| then |text| else i + n + CONTEXT;
    (if start > 0 then ELLIPSIS else "") + text[start..end] + (if end < |text| then ELLIPSIS else "")
  }

  /** `generateSnippet`. */
  function Snippet(text: string, query: string): string {
    if text == "" || query == "" then ""
    else match FirstHit(Fields(Lower(query)), Lower(text))
      case Some(h) => Window(text, h.1, |h.0|)
      case None => if |text| > PREVIEW then text[..PREVIEW] + ELLIPSIS else text
  }

  /** Empty text or query give an empty snippet; when no term occurs the
      snippet is the text, cut to its first 100 characters plus "..." when
      longer. */
  lemma SnippetWithoutMatch(text: string, query: string)
    ensures text == "" || query == "" ==> Snippet(text, query) == ""
    ensures text != "" && query != "" && FirstHit(Fields(Lower(query)), Lower(text)).None? ==>
      (forall t :: t in Fields(Lower(query)) ==> !Contains(Lower(text), t))
      && Snippet(text, query) == (if |text| <= PREVIEW then text else text[..PREVIEW] + ELLIPSIS)
  {
  }

  /** With a match, the snippet is the text from 50 characters before the
      match to 50 after it (or to the end of the text, where that is
      nearer), marked with "..." exactly on the sides where the text goes
      on. */
  lemma SnippetAroundMatch(text: string, query: string)
    requires text != "" && query != ""
    requires FirstHit(Fields(Lower(query)), Lower(text)).Some?
    ensures var h := FirstHit(Fields(Lower(query)), Lower(text)).value;
      var term, i := h.0, h.1;
      var before := if i < CONTEXT then i else CONTEXT;
      var after := if |text| - (i + |term|) < CONTEXT then |text| - (i + |term|) else CONTEXT;
      i + |term| <= |text|
      && Lower(text[i..i + |term|]) == term
      && Snippet(text, query)
         == (if i - before > 0 then ELLIPSIS else "")
            + text[i - before..i + |term| + after]
            + (if i + |term| + after < |text| then ELLIPSIS else "")
  {
    var terms := Fields(Lower(query));
    var h := FirstHit(terms, Lower(text)).value;
    var term, i := h.0, h.1;
    assert OccursAt(Lower(text), term, i);
    assert i + |term| <= |text|;
    LowerSlice(text, i, i + |term|);
    var w := Window(text, i, |term|);
    assert Snippet(text, query) == w;
    WindowBounds(text, i, |term|);
  }

  /** The window reaches 50 characters either side of the match, or to the
      end of the text where that is nearer, and is marked where the text
      was cut. */
  lemma WindowBounds(text: string, i: nat, n: nat)
    requires i + n <= |text|
    ensures var before := if i < CONTEXT then i else CONTEXT;
      var after := if |text| - (i + n) < CONTEXT then |text| - (i + n) else CONTEXT;
      Window(text, i, n)
        == (if i - before > 0 then ELLIPSIS else "")
           + text[i - before..i + n + after]
           + (if i + n + after < |text| then ELLIPSIS else "")
  {
  }

  /** `generateSnippet` as written: the first matching term wins. */
  method GenerateSnippet(text: string, query: string) returns (snippet: string)
    ensures snippet == Snippet(text, query)
  {
    if text == "" || query == "" {
      return "";
    }
    var terms := Fields(Lower(query));
    var lowerText := Lower(text);
    var k := 0;
    while k < |terms|
      invariant 0 <= k <= |terms|
      invariant FirstHit(terms[k..], lowerText) == FirstHit(terms, lowerText)
    {
      var index := Index(lowerText, terms[k]);
      if index.Some? {
        snippet := Cut(text, index.value, |terms[k]|);
        return;
      }
      assert terms[k..][1..] == terms[k + 1..];
      k := k + 1;
    }
    if |text| > PREVIEW {
      return text[..PREVIEW] + ELLIPSIS;
    }
    return text;
  }

  /** The cut around one match, as the handler computes it. */
  method Cut(text: string, index: nat, n: nat) returns (snippet: string)
    requires index + n <= |text|
    ensures snippet == Window(text, index, n)
  {
    var start := index - CONTEXT;
    if start < 0 {
      start := 0;
    }
    var end := index + n + CONTEXT;
    if end > |text| {
      end := |text|;
    }
    snippet := text[start..end];
    if start > 0 {
      snippet := ELLIPSIS + snippet;
    }
    if end < |text| {
      snippet := snippet + ELLIPSIS;
    }
  }

  // ------------------------------------------------------------- relevance

  /** The occurrences of the terms `terms` in one lower-cased text. */
  function TermsScore(lowerText: string, terms: seq<string>): nat
    decreases |terms|
  {
    if |terms| == 0 then 0
    else TermsScore(lowerText, terms[..|terms| - 1]) + CountOcc(lowerText, terms[|terms| - 1])
  }

  /** The occurrences summed over the non-empty texts. */
  function TextsScore(texts: seq<string>, terms: seq<string>): nat
    decreases |texts|
  {
    if |texts| == 0 then 0
    else TextsScore(texts[..|texts| - 1], terms)
         + (if texts[|texts| - 1] == "" then 0 else TermsScore(Lower(texts[|texts| - 1]), terms))
  }

  /** `calculateRelevance`. */
  function Relevance(query: string, texts: seq<string>): nat {
    if query == "" then 0 else TextsScore(texts, Fields(Lower(query)))
  }

  predicate NonEmptyTerms(terms: seq<string>) {
    forall j :: 0 <= j < |terms| ==> terms[j] != ""
  }

  lemma {:induction false} TermsScorePositive(lowerText: string, terms: seq<string>)
    requires NonEmptyTerms(terms)
    ensures TermsScore(lowerText, terms) > 0 <==> exists j :: 0 <= j < |terms| && Contains(lowerText, terms[j])
    decreases |terms|
  {
    if |terms| > 0 {
      var last := |terms| - 1;
      TermsScorePositive(lowerText, terms[..last]);
      CountOccPositive(lowerText, terms[last]);
      assert forall j :: 0 <= j < last ==> terms[..last][j] == terms[j];
    }
  }

  /** Some term occurs, ignoring case, in some non-empty text. */
  predicate SomeTermOccurs(texts: seq<string>, terms: seq<string>) {
    exists k, j :: 0 <= k < |texts| && texts[k] != "" && 0 <= j < |terms| && Contains(Lower(texts[k]), terms[j])
  }

  lemma {:induction false} TextsScorePositive(texts: seq<string>, terms: seq<string>)
    requires NonEmptyTerms(terms)
    ensures TextsScore(texts, terms) > 0 <==> SomeTermOccurs(texts, terms)
    decreases |texts|
  {
    if |texts| > 0 {
      var last := |texts| - 1;
      TextsScorePositive(texts[..last], terms);
      TermsScorePositive(Lower(texts[last]), terms);
      assert forall k :: 0 <= k < last ==> texts[..last][k] == texts[k];
    }
  }

  /** The score is positive exactly when some query term occurs, ignoring
      case, in some non-empty text; an empty query scores 0. */
  lemma RelevanceSpec(query: string, texts: seq<string>)
    ensures query == "" ==> Relevance(query, texts) == 0
    ensures query != "" ==> (Relevance(query, texts) > 0 <==> SomeTermOccurs(texts, Fields(Lower(query))))
  {
    if query != "" {
      var terms := Fields(Lower(query));
      assert NonEmptyTerms(terms) by {
        forall j | 0 <= j < |terms| ensures terms[j] != "" {
          assert IsWord(terms[j]);
        }
      }
      TextsScorePositive(texts, terms);
    }
  }

  /** The nested loop of `calculateRelevance`. */
  method CalculateRelevance(query: string, texts: seq<string>) returns (score: nat)
    ensures score == Relevance(query, texts)
  {
    if query == "" {
      return 0;
    }
    var terms := Fields(Lower(query));
    score := 0;
    var k := 0;
    while k < |texts|
      invariant 0 <= k <= |texts|
      invariant score == TextsScore(texts[..k], terms)
    {
      assert texts[..k + 1][..k] == texts[..k];
      if texts[k] != "" {
        var lowerText := Lower(texts[k]);
        var textScore := TextScore(lowerText, terms);
        score := score + textScore;
      }
      k := k + 1;
    }
    assert texts[..k] == texts;
  }

  /** The inner loop over the terms for one text. */
  method TextScore(lowerText: string, terms: seq<string>) returns (score: nat)
    ensures score == TermsScore(lowerText, terms)
  {
    score := 0;
    var j := 0;
    while j < |terms|
      invariant 0 <= j <= |terms|
      invariant score == TermsScore(lowerText, terms[..j])
    {
      assert terms[..j + 1][..j] == terms[..j];
      score := score + CountOcc(lowerText, terms[j]);
      j := j + 1;
    }
    assert terms[..j] == terms;
  }

  // ------------------------------------------------------------- defaults

  const MAX_PER_PAGE := 100
  const DEFAULT_PER_PAGE := 20
  const ALL_TYPES := ["books", "annotations", "highlights", "notes"]

  datatype SearchRequest = SearchRequest(
    query: string,
    types: seq<string>,
    page: int,
    perPage: int,
    sortBy: string,
    sortOrder: string)

  /** `GlobalSearch`'s defaults. */
  function WithDefaults(r: SearchRequest): SearchRequest {
    SearchRequest(
      r.query,
      if |r.types| == 0 then ALL_TYPES else r.types,
      if r.page <= 0 then 1 else r.page,
      if r.perPage <= 0 || r.perPage > MAX_PER_PAGE then DEFAULT_PER_PAGE else r.perPage,
      if r.sortBy == "" then "relevance" else r.sortBy,
      if r.sortOrder == "" then "desc" else r.sortOrder)
  }

  predicate Normal(r: SearchRequest) {
    r.page >= 1 && 1 <= r.perPage <= MAX_PER_PAGE && |r.types| > 0 && r.sortBy != "" && r.sortOrder != ""
  }

  /** After the defaults the request is in range; a request already in
      range is kept as it is, so applying the defaults twice changes
      nothing more. Each missing parameter gets its default: all four
      result types, page 1, 20 per page, and "relevance" and "desc" for the
      sort; every parameter that is set and in range is kept. */
  lemma WithDefaultsSpec(r: SearchRequest)
    ensures Normal(WithDefaults(r))
    ensures Normal(r) ==> WithDefaults(r) == r
    ensures WithDefaults(WithDefaults(r)) == WithDefaults(r)
    ensures WithDefaults(r).query == r.query
    ensures WithDefaults(r).types == if |r.types| == 0 then ALL_TYPES else r.types
    ensures WithDefaults(r).page == if r.page <= 0 then 1 else r.page
    ensures 1 <= r.perPage <= MAX_PER_PAGE ==> WithDefaults(r).perPage == r.perPage
    ensures !(1 <= r.perPage <= MAX_PER_PAGE) ==> WithDefaults(r).perPage == DEFAULT_PER_PAGE
    ensures WithDefaults(r).sortBy == if r.sortBy == "" then "relevance" else r.sortBy
    ensures WithDefaults(r).sortOrder == if r.sortOrder == "" then "desc" else r.sortOrder
  {
  }
}
