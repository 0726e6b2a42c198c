/** `TextPaginator`: breaks a text into e-ink pages of at most
    `linesPerPage` lines, then moves orphaned first lines back and merges
    pages that are too short. A page is stored as one string whose lines
    are separated by '\n'. Paragraph splitting and the line wrapping of
    `QTextLayout` are an input here: the wrapped lines of each paragraph,
    each trimmed, non-empty and free of line breaks. */
module TextPaginator {
  import opened Wrappers
  import opened Strings

  const NL: char := '\n'

  /** A line as wrapping produces it: non-empty, trimmed, no line break. */
  predicate IsLayoutLine(l: string) {
    l != [] && NL !in l && !IsSpace(l[0]) && !IsSpace(l[|l| - 1])
  }

  /** A line of a page: a wrapped line or an empty paragraph separator. */
  predicate IsPageLine(l: string) {
    l == [] || IsLayoutLine(l)
  }

  /** The lines of the page being built: empty, or starting with text. */
  predicate Building(cur: seq<string>) {
    (cur == [] || IsLayoutLine(cur[0])) && forall k :: 0 <= k < |cur| ==> IsPageLine(cur[k])
  }

  /** Lines that end with text and hold only page lines. */
  predicate Shaped(ls: seq<string>) {
    |ls| >= 1 && IsLayoutLine(ls[|ls| - 1]) && forall k :: 0 <= k < |ls| ==> IsPageLine(ls[k])
  }

  /** A stored page within the line budget. */
  predicate Fits(page: string, linesPerPage: int) {
    var ls := Split(page, NL);
    |ls| <= linesPerPage && Shaped(ls)
  }

  predicate AllFit(pages: seq<string>, linesPerPage: int) {
    forall j :: 0 <= j < |pages| ==> Fits(pages[j], linesPerPage)
  }

  predicate AllShaped(pages: seq<string>) {
    forall j :: 0 <= j < |pages| ==> Shaped(Split(pages[j], NL))
  }

  /** No page before index `i`, other than the last, is short. */
  predicate NoShortBefore(pages: seq<string>, i: int) {
    forall j :: 0 <= j < i && j < |pages| - 1 ==> NonEmptyCount(pages[j]) >= 2
  }

  predicate AllLaid(pages: seq<string>, linesPerPage: int) {
    forall j :: 0 <= j < |pages| ==> Laid(pages[j], linesPerPage)
  }

  /** The non-empty lines stored so far, followed by those of the page
      being built, are the lines of `start` followed by `done`. */
  predicate Progress(pages: seq<string>, cur: seq<string>, start: seq<string>, done: seq<string>) {
    NonEmpty(LinesOf(pages)) + NonEmpty(cur) == NonEmpty(LinesOf(start)) + done
  }

  /** A page as `breakIntoPages` stores it: it also starts with text. */
  predicate Laid(page: string, linesPerPage: int) {
    Fits(page, linesPerPage) && IsLayoutLine(Split(page, NL)[0])
  }

  /** The lines with the empty ones skipped (`Qt::SkipEmptyParts`). */
  function NonEmpty(ls: seq<string>): seq<string> {
    if ls == [] then []
    else NonEmpty(ls[..|ls| - 1]) + (if ls[|ls| - 1] == "" then [] else [ls[|ls| - 1]])
  }

  /** Non-empty lines of a page. */
  function NonEmptyCount(page: string): nat {
    |NonEmpty(Split(page, NL))|
  }

  /** All wrapped lines, paragraph after paragraph; also the lines of a
      list of pages, page after page. */
  function Concat(parts: seq<seq<string>>): seq<string> {
    if parts == [] then [] else Concat(parts[..|parts| - 1]) + parts[|parts| - 1]
  }

  /** The lines of each page. */
  function SplitEach(pages: seq<string>): seq<seq<string>> {
    seq(|pages|, j requires 0 <= j < |pages| => Split(pages[j], NL))
  }

  /** All lines of a list of pages, page after page. */
  function LinesOf(pages: seq<string>): seq<string> {
    Concat(SplitEach(pages))
  }

  /** The lines without their trailing empty ones. */
  function StripTrailing(cur: seq<string>): seq<string> {
    if cur == [] then []
    else if cur[|cur| - 1] == "" then StripTrailing(cur[..|cur| - 1])
    else cur
  }

  /** C++ integer division, which truncates toward zero. */
  function CppDiv(a: int, b: int): (q: int)
    requires b > 0
    ensures a >= 0 ==> q * b <= a < (q + 1) * b
    ensures a < 0 ==> (q - 1) * b < a <= q * b
  {
    if a >= 0 then a / b else -((-a) / b)
  }

  // ------------------------------------------------------------ lemmas

  lemma {:induction false} NonEmptyAppend(a: seq<string>, b: seq<string>)
    ensures NonEmpty(a + b) == NonEmpty(a) + NonEmpty(b)
    decreases |b|
  {
    if b == [] {
      assert a + b == a;
    } else {
      var n := |b| - 1;
      var t := b[n];
      assert a + b == (a + b[..n]) + [t];
      assert (a + b)[..|a + b| - 1] == a + b[..n];
      NonEmptyAppend(a, b[..n]);
      calc {
        NonEmpty(a + b);
        NonEmpty(a + b[..n]) + (if t == "" then [] else [t]);
        NonEmpty(a) + NonEmpty(b[..n]) + (if t == "" then [] else [t]);
        NonEmpty(a) + NonEmpty(b);
      }
    }
  }

  lemma {:induction false} ConcatAppend(xss: seq<seq<string>>, yss: seq<seq<string>>)
    ensures Concat(xss + yss) == Concat(xss) + Concat(yss)
    decreases |yss|
  {
    if yss == [] {
      assert xss + yss == xss;
    } else {
      var n := |yss| - 1;
      assert (xss + yss)[..|xss + yss| - 1] == xss + yss[..n];
      assert (xss + yss)[|xss + yss| - 1] == yss[n];
      ConcatAppend(xss, yss[..n]);
    }
  }

  lemma LinesOfAppend(xs: seq<string>, ys: seq<string>)
    ensures LinesOf(xs + ys) == LinesOf(xs) + LinesOf(ys)
  {
    assert SplitEach(xs + ys) == SplitEach(xs) + SplitEach(ys);
    ConcatAppend(SplitEach(xs), SplitEach(ys));
  }

  lemma ConcatPrefix(paragraphs: seq<seq<string>>, i: int)
    requires 0 <= i < |paragraphs|
    ensures Concat(paragraphs[..i + 1]) == Concat(paragraphs[..i]) + paragraphs[i]
  {
    assert paragraphs[..i + 1][..i] == paragraphs[..i];
  }

  lemma LinesOfSnoc(pages: seq<string>, page: string)
    ensures LinesOf(pages + [page]) == LinesOf(pages) + Split(page, NL)
  {
    var e := SplitEach(pages + [page]);
    assert e[..|pages|] == SplitEach(pages);
  }

  /** Trailing empty lines carry no text. */
  lemma {:induction false} StripTrailingNonEmpty(cur: seq<string>)
    ensures NonEmpty(StripTrailing(cur)) == NonEmpty(cur)
    decreases |cur|
  {
    if cur != [] && cur[|cur| - 1] == "" {
      StripTrailingNonEmpty(cur[..|cur| - 1]);
    }
  }

  /** `trimmed()` of the joined lines of a page under construction drops
      exactly its trailing separators. */
  lemma {:induction false} TrimRightJoin(cur: seq<string>)
    requires cur != [] && Building(cur)
    ensures StripTrailing(cur) != [] && Building(StripTrailing(cur))
    ensures IsLayoutLine(StripTrailing(cur)[|StripTrailing(cur)| - 1])
    ensures |StripTrailing(cur)| <= |cur| && StripTrailing(cur)[0] == cur[0]
    ensures TrimRight(Join(cur, [NL])) == Join(StripTrailing(cur), [NL])
    decreases |cur|
  {
    var n := |cur| - 1;
    if cur[n] == "" {
      var init := cur[..n];
      assert init[0] == cur[0];
      assert Building(init);
      assert cur == init + [""];
      JoinSnoc(init, "", [NL]);
      assert Join(cur, [NL]) == Join(init, [NL]) + [NL];
      TrimRightSpaceSnoc(Join(init, [NL]), NL);
      TrimRightJoin(init);
    } else {
      JoinLast(cur, [NL]);
    }
  }

  /** Storing the page under construction: its trimmed text is the join
      of its lines up to the last text line, which splits back into those
      lines and is not blank. */
  lemma FlushPage(cur: seq<string>, linesPerPage: int)
    requires cur != [] && Building(cur) && |cur| <= linesPerPage
    ensures Trim(Join(cur, [NL])) == Join(StripTrailing(cur), [NL])
    ensures Laid(Trim(Join(cur, [NL])), linesPerPage)
    ensures Split(Trim(Join(cur, [NL])), NL) == StripTrailing(cur)
    ensures !IsBlank(Trim(Join(cur, [NL])))
  {
    var j := Join(cur, [NL]);
    var s := StripTrailing(cur);
    JoinHead(cur, [NL]);
    assert TrimLeft(j) == j;
    TrimRightJoin(cur);
    SplitJoin(s, NL);
    JoinHead(s, [NL]);
  }

  /** Appending a line to the page under construction, as the source
      does: a '\n' first unless the page is still empty. */
  lemma AddLine(cur: seq<string>, line: string)
    requires Building(cur) && IsPageLine(line) && (cur == [] ==> IsLayoutLine(line))
    ensures Building(cur + [line])
    ensures Join(cur, [NL]) == "" <==> cur == []
    ensures Join(cur + [line], [NL]) ==
      (if Join(cur, [NL]) == "" then line else Join(cur, [NL]) + [NL] + line)
  {
    if cur != [] {
      JoinHead(cur, [NL]);
      JoinSnoc(cur, line, [NL]);
    }
  }

  lemma AddLineText(lines: seq<string>, pages: seq<string>, cur: seq<string>, line: string, prior: seq<string>)
    requires NonEmpty(LinesOf(pages)) + NonEmpty(cur) == prior
    requires line != ""
    ensures NonEmpty(LinesOf(pages)) + NonEmpty(cur + [line]) == prior + [line]
  {
    assert (cur + [line])[..|cur|] == cur;
  }

  lemma AddSeparatorText(pages: seq<string>, cur: seq<string>)
    ensures NonEmpty(cur + [""]) == NonEmpty(cur)
  {
    assert (cur + [""])[..|cur|] == cur;
  }

  /** Storing the page under construction moves its text, unchanged,
      from the page to the stored pages. */
  lemma FlushText(pages: seq<string>, cur: seq<string>, linesPerPage: int)
    requires cur != [] && Building(cur) && |cur| <= linesPerPage
    ensures NonEmpty(LinesOf(pages + [Trim(Join(cur, [NL]))])) == NonEmpty(LinesOf(pages)) + NonEmpty(cur)
  {
    FlushPage(cur, linesPerPage);
    LinesOfSnoc(pages, Trim(Join(cur, [NL])));
    NonEmptyAppend(LinesOf(pages), StripTrailing(cur));
    StripTrailingNonEmpty(cur);
  }

  /** Moving the first line of `cur` to the end of `prev`. */
  lemma MoveFirstLine(prev: string, cur: string, linesPerPage: int)
    requires Fits(prev, linesPerPage) && Laid(cur, linesPerPage)
    requires |Split(cur, NL)| > 1 && |Split(prev, NL)| < linesPerPage - 1
    ensures var first := Split(cur, NL)[0];
      var rest := Split(cur, NL)[1..];
      Split(prev + "\n" + first, NL) == Split(prev, NL) + [first]
      && Split(Join(rest, "\n"), NL) == rest
      && Fits(prev + "\n" + first, linesPerPage)
      && Fits(Join(rest, "\n"), linesPerPage)
  {
    var first := Split(cur, NL)[0];
    var rest := Split(cur, NL)[1..];
    SplitConcat(prev, first, NL);
    assert Split(first, NL) == [first];
    assert prev + "\n" + first == prev + [NL] + first;
    SplitJoin(rest, NL);
  }

  lemma Concat3(front: seq<seq<string>>, mid: seq<seq<string>>, back: seq<seq<string>>)
    ensures Concat(front + mid + back) == Concat(front) + Concat(mid) + Concat(back)
  {
    ConcatAppend(front + mid, back);
    ConcatAppend(front, mid);
  }

  lemma ConcatPair(x: seq<string>, y: seq<string>)
    ensures Concat([x, y]) == x + y
  {
    assert [x][..0] == [];
    assert Concat([x]) == x;
    assert [x, y][..1] == [x];
  }

  lemma NonEmpty3(a: seq<string>, b: seq<string>, c: seq<string>)
    ensures NonEmpty(a + b + c) == NonEmpty(a) + NonEmpty(b) + NonEmpty(c)
  {
    NonEmptyAppend(a + b, c);
    NonEmptyAppend(a, b);
  }

  /** An empty line between two runs of lines adds no text. */
  lemma NonEmptyGap(x: seq<string>, y: seq<string>)
    ensures NonEmpty(x + [""] + y) == NonEmpty(x + y)
  {
    NonEmpty3(x, [""], y);
    NonEmptyAppend(x, y);
    assert NonEmpty([""]) == [];
  }

  /** Storing a full page: the trimmed page is laid out and not blank,
      and no line is lost. */
  lemma FlushStep(pages: seq<string>, cur: seq<string>, linesPerPage: int, start: seq<string>, done: seq<string>)
    requires cur != [] && Building(cur) && |cur| <= linesPerPage
    requires AllLaid(pages, linesPerPage) && Progress(pages, cur, start, done)
    ensures Trim(Join(cur, [NL])) != ""
    ensures AllLaid(pages + [Trim(Join(cur, [NL]))], linesPerPage)
    ensures Progress(pages + [Trim(Join(cur, [NL]))], [], start, done)
    ensures Building([]) && Join([], [NL]) == ""
  {
    var page := Trim(Join(cur, [NL]));
    FlushPage(cur, linesPerPage);
    FlushText(pages, cur, linesPerPage);
    NotBlankNonEmpty(page);
    LaidSnoc(pages, page, linesPerPage);
    RightUnit(NonEmpty(LinesOf(pages + [page])));
  }

  lemma NotBlankNonEmpty(s: string)
    requires !IsBlank(s)
    ensures s != ""
  {
  }

  lemma RightUnit(xs: seq<string>)
    ensures xs + NonEmpty([]) == xs
  {
    assert NonEmpty([]) == [];
  }

  lemma LaidSnoc(pages: seq<string>, page: string, linesPerPage: int)
    requires AllLaid(pages, linesPerPage) && Laid(page, linesPerPage)
    ensures AllLaid(pages + [page], linesPerPage)
  {
    var q := pages + [page];
    forall j | 0 <= j < |q| ensures Laid(q[j], linesPerPage) {
      if j < |pages| {
        assert q[j] == pages[j];
      }
    }
  }

  /** Adding a wrapped line to the page being built. */
  lemma LineStep(pages: seq<string>, cur: seq<string>, line: string, start: seq<string>, done: seq<string>)
    requires Building(cur) && IsLayoutLine(line) && Progress(pages, cur, start, done)
    ensures Building(cur + [line]) && Progress(pages, cur + [line], start, done + [line])
    ensures Join(cur, [NL]) == "" <==> cur == []
    ensures Join(cur + [line], [NL]) ==
      (if Join(cur, [NL]) != "" then Join(cur, [NL]) + "\n" else Join(cur, [NL])) + line
  {
    AddLine(cur, line);
    AddLineText([], pages, cur, line, NonEmpty(LinesOf(start)) + done);
    if Join(cur, [NL]) == "" {
      assert Join(cur, [NL]) + line == line;
    }
  }

  lemma TakeSnoc<T>(pre: seq<T>, s: seq<T>, k: int)
    requires 0 <= k < |s|
    ensures pre + s[..k] + [s[k]] == pre + s[..k + 1]
  {
    assert s[..k + 1] == s[..k] + [s[k]];
  }

  /** A paragraph's lines, all taken, complete the next prefix of paragraphs. */
  lemma ParagraphDone(paragraphs: seq<seq<string>>, i: int, k: int)
    requires 0 <= i < |paragraphs| && k == |paragraphs[i]|
    ensures Concat(paragraphs[..i]) + paragraphs[i][..k] == Concat(paragraphs[..i + 1])
  {
    ConcatPrefix(paragraphs, i);
    assert paragraphs[i][..k] == paragraphs[i];
  }

  lemma TakeAll<T>(s: seq<T>, i: int)
    requires i == |s|
    ensures s[..i] == s
  {
  }

  /** Adding the empty separator line between paragraphs. */
  lemma SeparatorStep(pages: seq<string>, cur: seq<string>, start: seq<string>, done: seq<string>)
    requires cur != [] && Building(cur) && Progress(pages, cur, start, done)
    ensures Building(cur + [""]) && Progress(pages, cur + [""], start, done)
    ensures Join(cur + [""], [NL]) == Join(cur, [NL]) + "\n"
  {
    AddLine(cur, "");
    AddSeparatorText(pages, cur);
  }

  /** One step of the orphan pass: page `i - 1` takes the first line of
      page `i`. All pages still fit, every line stays in place in the
      concatenation, and no other page changes. */
  lemma MoveStep(pages: seq<string>, i: int, linesPerPage: int, previousPage: string, currentPage: string)
    requires 1 <= i < |pages| && AllFit(pages, linesPerPage) && Laid(pages[i], linesPerPage)
    requires |Split(pages[i], NL)| > 1 && |Split(pages[i - 1], NL)| < linesPerPage - 1
    requires previousPage == pages[i - 1] + "\n" + Split(pages[i], NL)[0]
    requires currentPage == Join(Split(pages[i], NL)[1..], "\n")
    ensures var q := pages[i - 1 := previousPage][i := currentPage];
      AllFit(q, linesPerPage) && LinesOf(q) == LinesOf(pages)
  {
    var prev := Split(pages[i - 1], NL);
    var cur := Split(pages[i], NL);
    assert Fits(pages[i - 1], linesPerPage);
    MoveFirstLine(pages[i - 1], pages[i], linesPerPage);
    MovedHead(prev, cur);
    ReplacePair(pages, i, previousPage, currentPage);
    FitReplace(pages, i, previousPage, currentPage, linesPerPage);
  }

  /** Moving the head of `y` onto the end of `x` keeps the concatenation. */
  lemma MovedHead<T>(x: seq<T>, y: seq<T>)
    requires |y| >= 1
    ensures (x + [y[0]]) + y[1..] == x + y
  {
  }

  /** Two fitting pages written over a fitting neighbourhood keep every page fitting. */
  lemma FitReplace(pages: seq<string>, i: int, a: string, b: string, linesPerPage: int)
    requires 1 <= i < |pages| && AllFit(pages, linesPerPage)
    requires Fits(a, linesPerPage) && Fits(b, linesPerPage)
    ensures AllFit(pages[i - 1 := a][i := b], linesPerPage)
  {
    var q := pages[i - 1 := a][i := b];
    forall j | 0 <= j < |q| ensures Fits(q[j], linesPerPage) {
      if j != i - 1 && j != i {
        assert q[j] == pages[j];
      }
    }
  }

  /** Rewriting two neighbouring pages keeps every line when their lines,
      taken together, are unchanged. */
  lemma ReplacePair(pages: seq<string>, i: int, a: string, b: string)
    requires 1 <= i < |pages|
    requires Split(a, NL) + Split(b, NL) == Split(pages[i - 1], NL) + Split(pages[i], NL)
    ensures LinesOf(pages[i - 1 := a][i := b]) == LinesOf(pages)
  {
    var front := pages[..i - 1];
    var back := pages[i + 1..];
    AroundPair(pages, i, a, b);
    LinesOf3(front, [a, b], back);
    LinesOf3(front, [pages[i - 1], pages[i]], back);
    LinesOfPair(a, b);
    LinesOfPair(pages[i - 1], pages[i]);
  }

  /** A list around two neighbouring positions, before and after they
      are rewritten. */
  lemma AroundPair<T>(s: seq<T>, i: int, x: T, y: T)
    requires 1 <= i < |s|
    ensures s == s[..i - 1] + [s[i - 1], s[i]] + s[i + 1..]
    ensures s[i - 1 := x][i := y] == s[..i - 1] + [x, y] + s[i + 1..]
  {
  }

  lemma LinesOf3(front: seq<string>, mid: seq<string>, back: seq<string>)
    ensures LinesOf(front + mid + back) == LinesOf(front) + LinesOf(mid) + LinesOf(back)
  {
    LinesOfAppend(front + mid, back);
    LinesOfAppend(front, mid);
  }

  lemma LinesOfPair(a: string, b: string)
    ensures LinesOf([a, b]) == Split(a, NL) + Split(b, NL)
  {
    assert SplitEach([a, b]) == [Split(a, NL), Split(b, NL)];
    ConcatPair(Split(a, NL), Split(b, NL));
  }

  /** The page `page + "\n\n" + next` has the lines of both with an empty
      line between them. */
  lemma MergeLines(page: string, next: string)
    requires Shaped(Split(page, NL)) && Shaped(Split(next, NL))
    ensures Split(page + "\n\n" + next, NL) == Split(page, NL) + [""] + Split(next, NL)
    ensures Shaped(Split(page + "\n\n" + next, NL))
  {
    assert page + "\n\n" + next == page + [NL] + ([] + [NL] + next);
    SplitConcat(page, [] + [NL] + next, NL);
    SplitConcat([], next, NL);
    assert Split([], NL) == [""];
  }

  /** Replacing parts `i` and `i + 1` by one part holding both, with an
      empty line between, keeps the non-empty lines. */
  lemma ConcatMerge(xss: seq<seq<string>>, i: int, m: seq<string>)
    requires 0 <= i < |xss| - 1 && m == xss[i] + [""] + xss[i + 1]
    ensures NonEmpty(Concat(xss[..i] + [m] + xss[i + 2..])) == NonEmpty(Concat(xss))
  {
    var front := xss[..i];
    var back := xss[i + 2..];
    assert xss == front + [xss[i], xss[i + 1]] + back;
    Concat3(front, [m], back);
    Concat3(front, [xss[i], xss[i + 1]], back);
    ConcatPair(xss[i], xss[i + 1]);
    assert Concat([m]) == m;
    NonEmptyGap(xss[i], xss[i + 1]);
    NonEmpty3(Concat(front), m, Concat(back));
    NonEmpty3(Concat(front), xss[i] + xss[i + 1], Concat(back));
  }

  /** Merging page `i` into page `i + 1` and removing page `i` keeps the
      text of every page, in order. */
  lemma MergeText(pages: seq<string>, i: int, merged: string)
    requires 0 <= i < |pages| - 1
    requires Split(merged, NL) == Split(pages[i], NL) + [""] + Split(pages[i + 1], NL)
    ensures var q := pages[i + 1 := merged];
      NonEmpty(LinesOf(q[..i] + q[i + 1..])) == NonEmpty(LinesOf(pages))
  {
    var q := pages[i + 1 := merged];
    var e := SplitEach(pages);
    assert SplitEach(q[..i] + q[i + 1..]) == e[..i] + [Split(merged, NL)] + e[i + 2..];
    ConcatMerge(e, i, Split(merged, NL));
  }

  /** One merge of the short-page pass: page `i` is prepended to page
      `i + 1` and removed. Every page stays shaped, the non-empty lines
      keep their order and the pages before `i` are untouched. */
  lemma MergeStep(pages: seq<string>, i: int)
    requires 0 <= i < |pages| - 1 && AllShaped(pages) && NoShortBefore(pages, i)
    ensures var q := pages[i + 1 := pages[i] + "\n\n" + pages[i + 1]];
      var r := q[..i] + q[i + 1..];
      |r| == |pages| - 1 && AllShaped(r) && NoShortBefore(r, i)
      && NonEmpty(LinesOf(r)) == NonEmpty(LinesOf(pages))
  {
    var merged := pages[i] + "\n\n" + pages[i + 1];
    MergeLines(pages[i], pages[i + 1]);
    MergeText(pages, i, merged);
    var q := pages[i + 1 := merged];
    var r := q[..i] + q[i + 1..];
    RemoveAtShape(pages, i, merged);
    forall j | 0 <= j < |r| ensures Shaped(Split(r[j], NL)) {
      if j != i {
        assert r[j] == pages[j + 1] || r[j] == pages[j];
      }
    }
  }

  /** Element facts for writing `x` at `i + 1` and then removing index `i`. */
  lemma RemoveAtShape<T>(s: seq<T>, i: int, x: T)
    requires 0 <= i < |s| - 1
    ensures var r := s[i + 1 := x][..i] + s[i + 1 := x][i + 1..];
      |r| == |s| - 1 && r[i] == x
      && (forall j :: 0 <= j < i ==> r[j] == s[j])
      && (forall j :: i < j < |r| ==> r[j] == s[j + 1])
  {
  }

  /** A page that ends with text is not blank. */
  lemma ShapedNotBlank(page: string)
    requires Shaped(Split(page, NL))
    ensures !IsBlank(page)
  {
    var ls := Split(page, NL);
    JoinSplit(page, NL);
    JoinLast(ls, [NL]);
  }

  // ---------------------------------------------------------- the paginator

  class Paginator {
    var sourceText: string
    var textAreaWidth: int
    var textAreaHeight: int
    var lineHeight: int
    var linesPerPage: int
    var pages: seq<string>
    var isPaginating: bool

    constructor()
      ensures pages == [] && !isPaginating && lineHeight == 0 && linesPerPage == 0
    {
      sourceText := "";
      textAreaWidth := 0;
      textAreaHeight := 0;
      lineHeight := 0;
      linesPerPage := 0;
      pages := [];
      isPaginating := false;
    }

    /** `paginateText`: ignored while a pagination is in progress;
        otherwise stores the text, clears the pages, marks the pagination
        as running and sets the text area to the page size less the
        margins. The pagination itself runs later, in
        `PerformPagination`. */
    method PaginateText(text: string, pageWidth: int, pageHeight: int,
                        left: int, top: int, right: int, bottom: int)
      modifies this
      ensures old(isPaginating) ==> unchanged(this)
      ensures !old(isPaginating) ==>
        sourceText == text && pages == [] && isPaginating
        && textAreaWidth == pageWidth - left - right
        && textAreaHeight == pageHeight - top - bottom
        && lineHeight == old(lineHeight) && linesPerPage == old(linesPerPage)
    {
      if isPaginating {
        return;
      }
      sourceText := text;
      pages := [];
      isPaginating := true;
      textAreaWidth := pageWidth - left - right;
      textAreaHeight := pageHeight - top - bottom;
    }

    /** `performPagination`: metrics, page breaking, the e-ink pass, and
        the end of the pagination. `lineHeight` is the font height scaled
        by the line spacing; `paragraphs` holds the wrapped lines of each
        paragraph of the text. The pages then carry every wrapped line,
        in order; none is blank; all but the last hold two text lines or
        more. */
    method PerformPagination(fontLineHeight: int, paragraphs: seq<seq<string>>)
      requires pages == [] && fontLineHeight > 0
      requires forall p, k :: 0 <= p < |paragraphs| && 0 <= k < |paragraphs[p]| ==>
        IsLayoutLine(paragraphs[p][k])
      modifies this
      ensures !isPaginating && lineHeight == fontLineHeight
      ensures linesPerPage == CppDiv(textAreaHeight, fontLineHeight)
      ensures sourceText == old(sourceText) && textAreaHeight == old(textAreaHeight)
      ensures sourceText == "" || linesPerPage <= 0 ==> pages == []
      ensures sourceText != "" && linesPerPage > 0 ==> NonEmpty(LinesOf(pages)) == Concat(paragraphs)
      ensures forall j :: 0 <= j < |pages| ==> !IsBlank(pages[j])
      ensures forall j :: 0 <= j < |pages| - 1 ==> NonEmptyCount(pages[j]) >= 2
    {
      CalculateTextMetrics(fontLineHeight);
      BreakIntoPages(paragraphs);
      OptimizeForEInk();
      isPaginating := false;
    }

    /** `calculateTextMetrics`, for the line count only: the text area's
        height divided by the line height. */
    method CalculateTextMetrics(fontLineHeight: int)
      requires fontLineHeight > 0
      modifies this`lineHeight, this`linesPerPage
      ensures lineHeight == fontLineHeight
      ensures linesPerPage == CppDiv(textAreaHeight, fontLineHeight)
      ensures linesPerPage > 0 ==> linesPerPage * lineHeight <= textAreaHeight
    {
      lineHeight := fontLineHeight;
      linesPerPage := CppDiv(textAreaHeight, lineHeight);
    }

    /** `breakIntoPages`: lines fill a page until it holds `linesPerPage`
        lines, an empty line separates paragraphs when there is room, and
        each full page is stored trimmed unless blank. */
    method BreakIntoPages(paragraphs: seq<seq<string>>)
      requires forall p, k :: 0 <= p < |paragraphs| && 0 <= k < |paragraphs[p]| ==>
        IsLayoutLine(paragraphs[p][k])
      requires AllLaid(pages, linesPerPage)
      modifies this`pages
      ensures sourceText == "" || linesPerPage <= 0 ==> pages == old(pages)
      ensures sourceText != "" && linesPerPage > 0 ==>
        NonEmpty(LinesOf(pages)) == NonEmpty(LinesOf(old(pages))) + Concat(paragraphs)
      ensures AllLaid(pages, linesPerPage)
    {
      if sourceText == "" || linesPerPage <= 0 {
        return;
      }
      ghost var start := pages;
      var currentPage := "";
      var currentPageLines := 0;
      ghost var cur: seq<string> := [];
      assert NonEmpty([]) == [] && paragraphs[..0] == [];
      var i := 0;
      while i < |paragraphs|
        invariant 0 <= i <= |paragraphs|
        invariant currentPageLines == |cur| <= linesPerPage
        invariant Building(cur) && currentPage == Join(cur, [NL])
        invariant AllLaid(pages, linesPerPage)
        invariant Progress(pages, cur, start, Concat(paragraphs[..i]))
      {
        var wrappedLines := paragraphs[i];
        ghost var before := Concat(paragraphs[..i]);
        var k := 0;
        while k < |wrappedLines|
          invariant 0 <= k <= |wrappedLines|
          invariant currentPageLines == |cur| <= linesPerPage
          invariant Building(cur) && currentPage == Join(cur, [NL])
          invariant AllLaid(pages, linesPerPage)
          invariant Progress(pages, cur, start, before + wrappedLines[..k])
        {
          var line := wrappedLines[k];
          currentPage, currentPageLines, cur :=
            PlaceLine(line, currentPage, currentPageLines, cur, start, before + wrappedLines[..k]);
          TakeSnoc(before, wrappedLines, k);
          k := k + 1;
        }
        ParagraphDone(paragraphs, i, k);
        if i < |paragraphs| - 1 && currentPageLines < linesPerPage && currentPage != "" {
          SeparatorStep(pages, cur, start, Concat(paragraphs[..i + 1]));
          currentPage := currentPage + "\n";
          currentPageLines := currentPageLines + 1;
          cur := cur + [""];
        }
        i := i + 1;
      }
      TakeAll(paragraphs, i);
      StorePage(currentPage, cur, start, Concat(paragraphs));
      RightUnit(NonEmpty(LinesOf(pages)));
    }

    /** The body of the line loop of `breakIntoPages`: a full page is
        stored first, then the line goes on the page being built, after a
        newline unless the page is empty. */
    method PlaceLine(line: string, currentPage: string, currentPageLines: int,
                     ghost cur: seq<string>, ghost start: seq<string>, ghost done: seq<string>)
      returns (page: string, pageLines: int, ghost next: seq<string>)
      requires IsLayoutLine(line) && linesPerPage > 0
      requires currentPageLines == |cur| <= linesPerPage
      requires Building(cur) && currentPage == Join(cur, [NL])
      requires AllLaid(pages, linesPerPage) && Progress(pages, cur, start, done)
      modifies this`pages
      ensures pageLines == |next| <= linesPerPage
      ensures Building(next) && page == Join(next, [NL])
      ensures AllLaid(pages, linesPerPage) && Progress(pages, next, start, done + [line])
    {
      page, pageLines, next := currentPage, currentPageLines, cur;
      if pageLines >= linesPerPage {
        StorePage(page, next, start, done);
        page := "";
        pageLines := 0;
        next := [];
      }
      LineStep(pages, next, line, start, done);
      if page != "" {
        page := page + "\n";
      }
      page := page + line;
      pageLines := pageLines + 1;
      next := next + [line];
    }

    /** Stores the page being built, trimmed, unless it is blank (the
        step shared by a full page and the last page). */
    method StorePage(currentPage: string, ghost cur: seq<string>, ghost start: seq<string>, ghost done: seq<string>)
      requires Building(cur) && |cur| <= linesPerPage && currentPage == Join(cur, [NL])
      requires AllLaid(pages, linesPerPage) && Progress(pages, cur, start, done)
      modifies this`pages
      ensures AllLaid(pages, linesPerPage) && Progress(pages, [], start, done)
      ensures cur != [] ==> pages == old(pages) + [Trim(currentPage)]
      ensures cur == [] ==> pages == old(pages)
    {
      if cur != [] {
        FlushStep(pages, cur, linesPerPage, start, done);
      } else {
        assert Trim(currentPage) == "";
      }
      if Trim(currentPage) != "" {
        pages := pages + [Trim(currentPage)];
      }
    }

    /** `optimizeForEInk`: the orphan pass, then the merge pass. */
    method OptimizeForEInk()
      requires AllLaid(pages, linesPerPage)
      modifies this`pages
      ensures |pages| <= |old(pages)|
      ensures NonEmpty(LinesOf(pages)) == NonEmpty(LinesOf(old(pages)))
      ensures forall j :: 0 <= j < |pages| ==> !IsBlank(pages[j])
      ensures forall j :: 0 <= j < |pages| - 1 ==> NonEmptyCount(pages[j]) >= 2
    {
      MoveOrphans();
      assert AllShaped(pages) by {
        forall j | 0 <= j < |pages| ensures Shaped(Split(pages[j], NL)) {
          assert Fits(pages[j], linesPerPage);
        }
      }
      MergeShortPages();
      forall j | 0 <= j < |pages| ensures !IsBlank(pages[j]) {
        ShapedNotBlank(pages[j]);
      }
    }

    /** The first pass of `optimizeForEInk`: a page of more than one line
        gives its first line to the previous page when that page has fewer
        than `linesPerPage - 1` lines. Every line stays, in order, and no
        page exceeds `linesPerPage` lines. */
    method MoveOrphans()
      requires AllLaid(pages, linesPerPage)
      modifies this`pages
      ensures |pages| == |old(pages)|
      ensures LinesOf(pages) == LinesOf(old(pages))
      ensures AllFit(pages, linesPerPage)
    {
      var i := 1;
      while i < |pages|
        invariant 1 <= i <= |pages| + 1
        invariant |pages| == |old(pages)|
        invariant forall j :: i <= j < |pages| ==> pages[j] == old(pages)[j]
        invariant AllFit(pages, linesPerPage)
        invariant LinesOf(pages) == LinesOf(old(pages))
      {
        var currentLines := Split(pages[i], NL);
        var previousLines := Split(pages[i - 1], NL);
        if |currentLines| > 1 && |previousLines| < linesPerPage - 1 {
          var firstLine := currentLines[0];
          currentLines := currentLines[1..];
          var previousPage := pages[i - 1] + "\n" + firstLine;
          var currentPage := Join(currentLines, "\n");
          MoveStep(pages, i, linesPerPage, previousPage, currentPage);
          pages := pages[i - 1 := previousPage][i := currentPage];
        }
        i := i + 1;
      }
    }

    /** The second pass of `optimizeForEInk`: a page with fewer than two
        non-empty lines, other than the last, is put in front of the next
        page with an empty line between, and removed. */
    method MergeShortPages()
      requires AllShaped(pages)
      modifies this`pages
      ensures |pages| <= |old(pages)|
      ensures AllShaped(pages)
      ensures NonEmpty(LinesOf(pages)) == NonEmpty(LinesOf(old(pages)))
      ensures forall j :: 0 <= j < |pages| - 1 ==> NonEmptyCount(pages[j]) >= 2
    {
      var i := 0;
      while i < |pages|
        invariant 0 <= i <= |pages| <= |old(pages)|
        invariant AllShaped(pages)
        invariant NonEmpty(LinesOf(pages)) == NonEmpty(LinesOf(old(pages)))
        invariant NoShortBefore(pages, i)
        decreases |pages| - i
      {
        var page := pages[i];
        var lines := NonEmpty(Split(page, NL));
        if |lines| < 2 && i < |pages| - 1 {
          if i + 1 < |pages| {
            MergeStep(pages, i);
            pages := pages[i + 1 := page + "\n\n" + pages[i + 1]];
            pages := pages[..i] + pages[i + 1..];
            i := i - 1;
          }
        }
        i := i + 1;
      }
    }

    /** `getPage`: the page at a zero-based index, or the empty string
        outside `[0, getTotalPages())`. */
    function GetPage(pageIndex: int): (r: string)
      reads this
      ensures 0 <= pageIndex < |pages| ==> r == pages[pageIndex]
      ensures !(0 <= pageIndex < |pages|) ==> r == ""
    {
      if 0 <= pageIndex < |pages| then pages[pageIndex] else ""
    }

    /** `getTotalPages`. */
    function GetTotalPages(): (n: int)
      reads this
      ensures n == |pages| && n >= 0
    {
      |pages|
    }

    function GetPages(): seq<string>
      reads this
    {
      pages
    }

    function IsPaginating(): bool
      reads this
    {
      isPaginating
    }

    function GetLineHeight(): int
      reads this
    {
      lineHeight
    }
  }
}
