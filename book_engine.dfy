/** The device's `BookEngine`, for the parts that are not I/O: the page
    cursor over the paginated book (`setCurrentPage`, `turnPage`,
    `goToPage`), the restore of saved progress when pagination completes,
    the author/title heuristic on a file's base name, the supported
    formats and the line-ending clean-up of extracted text. The database
    behind `getProgress` is an input. */
module BookEngine {
  import opened Wrappers
  import opened Strings

  const SEPARATOR: string := " - "

  /** The saved reading position read back by `getProgress`; `None` when
      the database has no row for the book. */
  datatype BookProgress = BookProgress(bookId: string, currentPage: int)

  // ------------------------------------------------------ progress restore

  /** The page `onPaginationComplete` opens at: the saved page when the
      saved row is this book's and does not lie past the end, page 1
      otherwise. There is no lower-bound check. */
  function RestoredPage(progress: Option<BookProgress>, bookId: string, totalPages: int): (page: int)
    ensures page == 1 || page <= totalPages
    ensures (progress.Some? && progress.value.bookId == bookId && progress.value.currentPage <= totalPages)
      ==> page == progress.value.currentPage
    ensures !(progress.Some? && progress.value.bookId == bookId && progress.value.currentPage <= totalPages)
      ==> page == 1
  {
    match progress
    case Some(p) => if p.bookId == bookId && p.currentPage <= totalPages then p.currentPage else 1
    case None => 1
  }

  /** A saved page of 0 or less is restored as it is, so the engine can
      end up on a page that does not exist. */
  lemma RestoreHasNoLowerBound(bookId: string, totalPages: int, saved: int)
    requires saved <= 0 && saved <= totalPages
    ensures RestoredPage(Some(BookProgress(bookId, saved)), bookId, totalPages) == saved
    ensures !(1 <= RestoredPage(Some(BookProgress(bookId, saved)), bookId, totalPages))
  {
  }

  /** The restored page is a real page whenever the book has pages and no
      saved row points below page 1. */
  lemma RestoredInRange(progress: Option<BookProgress>, bookId: string, totalPages: int)
    requires totalPages >= 1
    requires progress.Some? && progress.value.bookId == bookId ==> progress.value.currentPage >= 1
    ensures 1 <= RestoredPage(progress, bookId, totalPages) <= totalPages
  {
  }

  // --------------------------------------------------------- author, title

  /** What `addBook` takes from a file's base name. */
  datatype NameParts = NameParts(author: string, title: string)

  /** The second part of `s.split(" - ")`: from the end of the first
      separator up to the next one, or to the end. */
  function SecondPart(rest: string): (r: string)
    ensures |r| <= |rest| && r == rest[..|r|]
    ensures !Contains(r, SEPARATOR)
    ensures r == rest || OccursAt(rest, SEPARATOR, |r|)
  {
    match Index(rest, SEPARATOR)
    case None => rest
    case Some(j) =>
      var r := rest[..j];
      assert !Contains(r, SEPARATOR) by {
        forall i | 0 <= i <= |r| ensures !OccursAt(r, SEPARATOR, i) {
          if i + |SEPARATOR| <= |r| {
            assert rest[i..i + |SEPARATOR|] == r[i..i + |SEPARATOR|];
            assert !OccursAt(rest, SEPARATOR, i);
          }
        }
      }
      r
  }

  /** `addBook`'s heuristic: a base name containing " - " is read as
      "author - title", both parts trimmed; any other name is the title
      and the author stays empty. */
  function ParseBaseName(baseName: string): (r: NameParts)
    ensures !Contains(baseName, SEPARATOR) ==> r == NameParts("", baseName)
    ensures Contains(baseName, SEPARATOR) ==>
      |r.author| + |SEPARATOR| + |r.title| <= |baseName|
      && !Contains(r.author, SEPARATOR)
  {
    match Index(baseName, SEPARATOR)
    case None => NameParts("", baseName)
    case Some(i) =>
      var first := baseName[..i];
      assert !Contains(first, SEPARATOR) by {
        forall k | 0 <= k <= |first| ensures !OccursAt(first, SEPARATOR, k) {
          if k + |SEPARATOR| <= |first| {
            assert baseName[k..k + |SEPARATOR|] == first[k..k + |SEPARATOR|];
            assert !OccursAt(baseName, SEPARATOR, k);
          }
        }
      }
      TrimKeepsOut(first);
      NameParts(Trim(first), Trim(SecondPart(baseName[i + |SEPARATOR|..])))
  }

  /** Trimming cannot create an occurrence of the separator. */
  lemma TrimKeepsOut(s: string)
    requires !Contains(s, SEPARATOR)
    ensures !Contains(Trim(s), SEPARATOR)
  {
    TrimLeftIsSuffix(s);
    var l := TrimLeft(s);
    SliceKeepsOut(s, |s| - |l|, |s|);
    TrimRightIsPrefix(l);
    SliceKeepsOut(l, 0, |TrimRight(l)|);
  }

  lemma TrimLeftIsSuffix(s: string)
    ensures TrimLeft(s) == s[|s| - |TrimLeft(s)|..|s|]
  {
  }

  lemma TrimRightIsPrefix(l: string)
    ensures TrimRight(l) == l[0..|TrimRight(l)|]
  {
  }

  /** A slice of a string without the separator has none either. */
  lemma SliceKeepsOut(s: string, lo: int, hi: int)
    requires 0 <= lo <= hi <= |s| && !Contains(s, SEPARATOR)
    ensures !Contains(s[lo..hi], SEPARATOR)
  {
    var t := s[lo..hi];
    forall k | 0 <= k <= |t| ensures !OccursAt(t, SEPARATOR, k) {
      if k + 3 <= |t| {
        assert |t| == hi - lo;
        var a, b := t[k..k + 3], s[lo + k..lo + k + 3];
        forall m | 0 <= m < 3 ensures a[m] == b[m] {
          assert t[k + m] == s[lo + k + m];
        }
        assert a == b;
        assert !OccursAt(s, SEPARATOR, lo + k);
      }
    }
  }

  /** A part that may stand before the first separator: it holds no
      separator and does not end in " -", which would form one with the
      separator's leading space. */
  predicate Leading(a: string) {
    !Contains(a, SEPARATOR) && !(|a| >= 2 && a[|a| - 2..] == " -")
  }

  /** In a + " - " + b with a leading part a, the first separator is the
      one after a. */
  lemma FirstSeparator(a: string, b: string)
    requires Leading(a)
    ensures Index(a + SEPARATOR + b, SEPARATOR) == Some(|a|)
  {
    var s := a + SEPARATOR + b;
    var n := |a|;
    assert OccursAt(s, SEPARATOR, n) by {
      assert s[n..n + 3] == SEPARATOR;
    }
    forall j | 0 <= j < n ensures !OccursAt(s, SEPARATOR, j) {
      if j + 3 <= n {
        assert s[j..j + 3] == a[j..j + 3];
        assert !OccursAt(a, SEPARATOR, j);
      } else if j == n - 1 {
        assert s[j + 1] == ' ';
        assert s[j..j + 3][1] == s[j + 1];
      } else {
        assert s[j..j + 3][..2] == a[n - 2..];
      }
    }
  }

  /** The text before a name's first separator is a leading part. */
  lemma BeforeFirstIsLeading(baseName: string, i: nat)
    requires Index(baseName, SEPARATOR) == Some(i)
    ensures i + |SEPARATOR| <= |baseName| && Leading(baseName[..i])
  {
    var a := baseName[..i];
    assert OccursAt(baseName, SEPARATOR, i);
    forall k | 0 <= k <= |a| ensures !OccursAt(a, SEPARATOR, k) {
      if k + 3 <= |a| {
        assert baseName[k..k + 3] == a[k..k + 3];
        assert !OccursAt(baseName, SEPARATOR, k);
      }
    }
    if |a| >= 2 {
      assert !OccursAt(baseName, SEPARATOR, i - 2);
      assert baseName[i] == ' ' by {
        assert baseName[i..i + 3] == SEPARATOR;
      }
      assert baseName[i - 2..i + 1] == a[|a| - 2..] + [baseName[i]];
    }
  }

  /** Splitting a + " - " + b, for a leading part a: the author is a
      trimmed and the title is b up to its first separator, trimmed. */
  lemma ParseBaseNameSplit(a: string, b: string)
    requires Leading(a)
    ensures ParseBaseName(a + SEPARATOR + b) == NameParts(Trim(a), Trim(SecondPart(b)))
  {
    var s := a + SEPARATOR + b;
    FirstSeparator(a, b);
    assert s[..|a|] == a;
    assert s[|a| + |SEPARATOR|..] == b;
  }

  /** Every name with a separator is a leading part, the separator and a
      rest, and is split there. */
  lemma ParseBaseNameParts(baseName: string)
    requires Contains(baseName, SEPARATOR)
    ensures exists a, b ::
      && Leading(a)
      && baseName == a + SEPARATOR + b
      && ParseBaseName(baseName) == NameParts(Trim(a), Trim(SecondPart(b)))
  {
    var i := Index(baseName, SEPARATOR).value;
    BeforeFirstIsLeading(baseName, i);
    var a, b := baseName[..i], baseName[i + |SEPARATOR|..];
    assert baseName == a + SEPARATOR + b;
    ParseBaseNameSplit(a, b);
  }

  /** A name built as author + " - " + title is read back as that author
      and title, trimmed, whenever the author is a leading part and the
      title holds no separator; dashes elsewhere are fine. */
  lemma ParseNameRoundTrip(author: string, title: string)
    requires Leading(author) && !Contains(title, SEPARATOR)
    ensures ParseBaseName(author + SEPARATOR + title) == NameParts(Trim(author), Trim(title))
  {
    ParseBaseNameSplit(author, title);
  }

  // ------------------------------------------------------------- formats

  /** `isFormatSupported`: "txt" or "epub" in any letter case. */
  function IsFormatSupported(format: string): (b: bool)
    ensures b ==> |format| == 3 || |format| == 4
  {
    Lower(format) == "txt" || Lower(format) == "epub"
  }

  lemma LowerIdempotent(s: string)
    ensures Lower(Lower(s)) == Lower(s)
  {
    assert forall i :: 0 <= i < |s| ==> LowerChar(LowerChar(s[i])) == LowerChar(s[i]);
  }

  /** The check ignores letter case. */
  lemma FormatCaseInsensitive(format: string)
    ensures IsFormatSupported(Lower(format)) == IsFormatSupported(format)
  {
    LowerIdempotent(format);
  }

  /** "TXT", "Epub" and the like are accepted; "pdf" is not. */
  lemma FormatExamples()
    ensures IsFormatSupported("TXT") && IsFormatSupported("Epub") && IsFormatSupported("txt")
    ensures !IsFormatSupported("pdf") && !IsFormatSupported("")
  {
    assert Lower("TXT") == "txt";
    assert Lower("Epub") == "epub";
    assert Lower("pdf") == "pdf";
  }

  // ------------------------------------------------------ text clean-up

  const NL: char := '\n'

  /** Every '\r' becomes '\n'. */
  function CarriageReturnsToNewlines(s: string): (r: string)
    ensures |r| == |s| && '\r' !in r
    ensures forall i :: 0 <= i < |s| ==> r[i] == (if s[i] == '\r' then NL else s[i])
  {
    seq(|s|, i requires 0 <= i < |s| => if s[i] == '\r' then NL else s[i])
  }

  /** The number of newlines `s` starts with. */
  function NewlineRun(s: string): (n: nat)
    ensures n <= |s|
    ensures forall i :: 0 <= i < n ==> s[i] == NL
    ensures n == |s| || s[n] != NL
  {
    if |s| == 0 || s[0] != NL then 0 else 1 + NewlineRun(s[1..])
  }

  /** Every maximal run of three or more newlines becomes two, as
      replacing the pattern `\n{3,}` by "\n\n" does. */
  function Collapse(s: string): string
    decreases |s|
  {
    if |s| == 0 then []
    else if s[0] != NL then [s[0]] + Collapse(s[1..])
    else
      var n := NewlineRun(s);
      (if n >= 3 then "\n\n" else s[..n]) + Collapse(s[n..])
  }

  /** `extractText`'s clean-up of line endings. */
  function NormalizeText(s: string): string {
    Collapse(CarriageReturnsToNewlines(s))
  }

  /** No three newlines in a row. */
  predicate NoTripleNewline(s: string) {
    forall i :: 0 <= i < |s| - 2 ==> !(s[i] == NL && s[i + 1] == NL && s[i + 2] == NL)
  }

  /** The characters other than newlines. */
  function Unlined(s: string): (r: string)
    ensures NL !in r
  {
    if |s| == 0 then [] else (if s[0] == NL then [] else [s[0]]) + Unlined(s[1..])
  }

  lemma {:induction false} UnlinedAppend(a: string, b: string)
    ensures Unlined(a + b) == Unlined(a) + Unlined(b)
    decreases |a|
  {
    if |a| == 0 {
      assert a + b == b;
    } else {
      assert (a + b)[1..] == a[1..] + b;
      UnlinedAppend(a[1..], b);
    }
  }

  lemma {:induction false} UnlinedNewlines(s: string)
    requires forall i :: 0 <= i < |s| ==> s[i] == NL
    ensures Unlined(s) == []
    decreases |s|
  {
    if |s| > 0 {
      UnlinedNewlines(s[1..]);
    }
  }

  /** A collapsed string starts as its input does when that is not a newline. */
  lemma CollapseStart(s: string)
    requires |s| > 0 && s[0] != NL
    ensures |Collapse(s)| > 0 && Collapse(s)[0] == s[0]
  {
  }

  /** Collapsing leaves no run of three newlines. */
  lemma {:induction false} CollapseNoTriple(s: string)
    ensures NoTripleNewline(Collapse(s))
    decreases |s|
  {
    if |s| == 0 {
    } else if s[0] != NL {
      CollapseNoTriple(s[1..]);
      var r := Collapse(s[1..]);
      assert Collapse(s) == [s[0]] + r;
    } else {
      var n := NewlineRun(s);
      var p: string := if n >= 3 then "\n\n" else s[..n];
      var r := Collapse(s[n..]);
      CollapseNoTriple(s[n..]);
      if |s[n..]| > 0 {
        CollapseStart(s[n..]);
      }
      var c := p + r;
      assert Collapse(s) == c;
      assert |p| <= 2;
      forall i | 0 <= i < |c| - 2 ensures !(c[i] == NL && c[i + 1] == NL && c[i + 2] == NL) {
        if i >= |p| {
          assert c[i] == r[i - |p|] && c[i + 1] == r[i + 1 - |p|] && c[i + 2] == r[i + 2 - |p|];
        } else {
          assert c[|p|] == r[0];
        }
      }
    }
  }

  /** Collapsing keeps every character other than newlines, in order. */
  lemma {:induction false} CollapseKeepsText(s: string)
    ensures Unlined(Collapse(s)) == Unlined(s)
    decreases |s|
  {
    if |s| == 0 {
    } else if s[0] != NL {
      CollapseKeepsText(s[1..]);
      UnlinedAppend([s[0]], Collapse(s[1..]));
      assert s == [s[0]] + s[1..];
      UnlinedAppend([s[0]], s[1..]);
    } else {
      var n := NewlineRun(s);
      CollapseKeepsText(s[n..]);
      RunKeepsText(s, n, Collapse(s[n..]));
    }
  }

  /** One run of newlines, collapsed or not, adds no other character. */
  lemma RunKeepsText(s: string, n: nat, rest: string)
    requires 0 < n <= |s| && forall i :: 0 <= i < n ==> s[i] == NL
    requires Unlined(rest) == Unlined(s[n..])
    ensures Unlined((if n >= 3 then "\n\n" else s[..n]) + rest) == Unlined(s)
  {
    var p: string := if n >= 3 then "\n\n" else s[..n];
    NewlinesThen(p, rest);
    NewlinesThen(s[..n], s[n..]);
    assert s[..n] + s[n..] == s;
  }

  /** Leading newlines do not show in `Unlined`. */
  lemma NewlinesThen(p: string, rest: string)
    requires forall i :: 0 <= i < |p| ==> p[i] == NL
    ensures Unlined(p + rest) == Unlined(rest)
  {
    UnlinedAppend(p, rest);
    UnlinedNewlines(p);
  }

  /** Text that has no run of three newlines is left as it is. */
  lemma {:induction false} CollapseClean(s: string)
    requires NoTripleNewline(s)
    ensures Collapse(s) == s
    decreases |s|
  {
    if |s| == 0 {
    } else if s[0] != NL {
      assert NoTripleNewline(s[1..]) by {
        forall i | 0 <= i < |s[1..]| - 2
          ensures !(s[1..][i] == NL && s[1..][i + 1] == NL && s[1..][i + 2] == NL)
        {
          assert s[1..][i] == s[i + 1] && s[1..][i + 1] == s[i + 2] && s[1..][i + 2] == s[i + 3];
        }
      }
      CollapseClean(s[1..]);
      assert s == [s[0]] + s[1..];
    } else {
      var n := NewlineRun(s);
      if n >= 3 {
        assert false;
      }
      var t := s[n..];
      assert NoTripleNewline(t) by {
        forall i | 0 <= i < |t| - 2 ensures !(t[i] == NL && t[i + 1] == NL && t[i + 2] == NL) {
          assert t[i] == s[n + i] && t[i + 1] == s[n + i + 1] && t[i + 2] == s[n + i + 2];
        }
      }
      CollapseClean(t);
      assert s == s[..n] + t;
    }
  }

  /** The clean-up leaves no '\r' and no run of three newlines, keeps
      every other character in order, and a second pass changes nothing. */
  lemma NormalizeTextSpec(s: string)
    ensures NoTripleNewline(NormalizeText(s))
    ensures Unlined(NormalizeText(s)) == Unlined(CarriageReturnsToNewlines(s))
    ensures NormalizeText(NormalizeText(s)) == NormalizeText(s)
  {
    var m := CarriageReturnsToNewlines(s);
    CollapseNoTriple(m);
    CollapseKeepsText(m);
    var r := Collapse(m);
    CollapseNoCarriageReturn(m);
    assert CarriageReturnsToNewlines(r) == r;
    CollapseClean(r);
  }

  /** Collapsing introduces no '\r'. */
  lemma {:induction false} CollapseNoCarriageReturn(s: string)
    requires '\r' !in s
    ensures '\r' !in Collapse(s)
    decreases |s|
  {
    if |s| == 0 {
    } else if s[0] != NL {
      CollapseNoCarriageReturn(s[1..]);
    } else {
      var n := NewlineRun(s);
      assert '\r' !in s[n..];
      CollapseNoCarriageReturn(s[n..]);
      assert '\r' !in s[..n];
    }
  }

  /** A string read piece by piece: each character other than a newline,
      and each maximal run of newlines with its length. */
  datatype Piece = Char(c: char) | Run(k: nat)

  function Pieces(s: string): seq<Piece>
    decreases |s|
  {
    if |s| == 0 then []
    else if s[0] != NL then [Char(s[0])] + Pieces(s[1..])
    else
      var n := NewlineRun(s);
      [Run(n)] + Pieces(s[n..])
  }

  /** `k` newlines. */
  function Newlines(k: nat): (r: string)
    ensures |r| == k && forall i :: 0 <= i < k ==> r[i] == NL
  {
    seq(k, _ => NL)
  }

  /** The string the pieces spell. */
  function Render(ps: seq<Piece>): string {
    if |ps| == 0 then [] else Spelled(ps[0]) + Render(ps[1..])
  }

  function Spelled(p: Piece): string {
    match p
    case Char(c) => [c]
    case Run(k) => Newlines(k)
  }

  lemma RenderCons(p: Piece, ps: seq<Piece>)
    ensures Render([p] + ps) == Spelled(p) + Render(ps)
  {
    assert ([p] + ps)[1..] == ps;
  }

  /** The clean-up's rule on pieces: a run of k newlines keeps min(k, 2)
      of them and every other piece stays. */
  function Clamped(ps: seq<Piece>): seq<Piece> {
    seq(|ps|, i requires 0 <= i < |ps| => Clamp(ps[i]))
  }

  function Clamp(p: Piece): Piece {
    if p.Run? && p.k > 2 then Run(2) else p
  }

  lemma ClampedCons(p: Piece, ps: seq<Piece>)
    ensures Clamped([p] + ps) == [Clamp(p)] + Clamped(ps)
  {
  }

  /** A string's leading run has length m when its first m characters are
      newlines and the next one, if any, is not. */
  lemma {:induction false} NewlineRunIs(s: string, m: nat)
    requires m <= |s| && forall i :: 0 <= i < m ==> s[i] == NL
    requires m == |s| || s[m] != NL
    ensures NewlineRun(s) == m
    decreases m
  {
    if m > 0 {
      NewlineRunIs(s[1..], m - 1);
    }
  }

  /** Reading a string as pieces loses nothing. */
  lemma {:induction false} RenderPieces(s: string)
    ensures Render(Pieces(s)) == s
    decreases |s|
  {
    if |s| == 0 {
    } else if s[0] != NL {
      RenderPieces(s[1..]);
      RenderCons(Char(s[0]), Pieces(s[1..]));
      assert s == [s[0]] + s[1..];
    } else {
      var n := NewlineRun(s);
      RenderPieces(s[n..]);
      RenderCons(Run(n), Pieces(s[n..]));
      assert Newlines(n) == s[..n];
      assert s == s[..n] + s[n..];
    }
  }

  /** A run of newlines followed by a string that does not start with one
      is read as that run, then the rest. */
  lemma PiecesAfterRun(p: string, c: string)
    requires |p| >= 1 && forall i :: 0 <= i < |p| ==> p[i] == NL
    requires c == [] || c[0] != NL
    ensures Pieces(p + c) == [Run(|p|)] + Pieces(c)
  {
    var s := p + c;
    NewlineRunIs(s, |p|);
    assert s[|p|..] == c;
  }

  /** Collapsing clamps every newline run to at most two and leaves every
      other character where it is. */
  lemma {:induction false} CollapsePieces(s: string)
    ensures Pieces(Collapse(s)) == Clamped(Pieces(s))
    decreases |s|
  {
    if |s| == 0 {
    } else if s[0] != NL {
      CollapsePieces(s[1..]);
      var c := Collapse(s[1..]);
      assert Collapse(s) == [s[0]] + c;
      assert ([s[0]] + c)[1..] == c;
      ClampedCons(Char(s[0]), Pieces(s[1..]));
    } else {
      var n := NewlineRun(s);
      var t := s[n..];
      var p: string := if n >= 3 then "\n\n" else s[..n];
      CollapsePieces(t);
      var c := Collapse(t);
      if |t| > 0 {
        CollapseStart(t);
      }
      assert Collapse(s) == p + c;
      PiecesAfterRun(p, c);
      ClampedCons(Run(n), Pieces(t));
    }
  }

  /** The clean-up as a rule on runs: after '\r' becomes '\n', every
      maximal run of k newlines becomes min(k, 2) newlines and every other
      character is kept in place; `NormalizeText(s)` is exactly the string
      that rule spells. */
  lemma NormalizeTextRuns(s: string)
    ensures Pieces(NormalizeText(s)) == Clamped(Pieces(CarriageReturnsToNewlines(s)))
    ensures NormalizeText(s) == Render(Clamped(Pieces(CarriageReturnsToNewlines(s))))
  {
    var m := CarriageReturnsToNewlines(s);
    CollapsePieces(m);
    RenderPieces(Collapse(m));
  }

  // ------------------------------------------------------------ the cursor

  class Engine {
    var currentBookId: string
    var currentBookPages: seq<string>
    var totalPages: int
    var currentPage: int
    var currentPageText: string

    /** The cursor shows a real page of the book. */
    predicate Showing()
      reads this
    {
      totalPages == |currentBookPages| && 1 <= currentPage <= totalPages
      && currentPageText == currentBookPages[currentPage - 1]
    }

    constructor()
      ensures currentPage == 0 && totalPages == 0 && currentBookPages == []
      ensures currentBookId == "" && currentPageText == ""
    {
      currentBookId := "";
      currentBookPages := [];
      totalPages := 0;
      currentPage := 0;
      currentPageText := "";
    }

    /** `onPaginationComplete`: takes the paginator's pages and opens the
        restored page; the page text changes only when that page exists. */
    method OnPaginationComplete(pages: seq<string>, progress: Option<BookProgress>)
      modifies this
      ensures currentBookId == old(currentBookId)
      ensures currentBookPages == pages && totalPages == |pages|
      ensures currentPage == RestoredPage(progress, currentBookId, |pages|)
      ensures 1 <= currentPage <= totalPages ==> Showing()
      ensures !(1 <= currentPage <= totalPages) ==> currentPageText == old(currentPageText)
    {
      currentBookPages := pages;
      totalPages := |currentBookPages|;
      if progress.Some? && progress.value.bookId == currentBookId && progress.value.currentPage <= totalPages {
        currentPage := progress.value.currentPage;
      } else {
        currentPage := 1;
      }
      if currentPage > 0 && currentPage <= totalPages {
        currentPageText := currentBookPages[currentPage - 1];
      }
    }

    /** `setCurrentPage`: a page outside `[1, totalPages]`, or the current
        page, is ignored; otherwise the cursor moves there and shows that
        page's text when the page list has it. */
    method SetCurrentPage(page: int)
      modifies this`currentPage, this`currentPageText
      ensures (page < 1 || page > totalPages || page == old(currentPage)) ==>
        currentPage == old(currentPage) && currentPageText == old(currentPageText)
      ensures !(page < 1 || page > totalPages || page == old(currentPage)) ==>
        currentPage == page
        && currentPageText == (if page <= |currentBookPages| then currentBookPages[page - 1]
                               else old(currentPageText))
      ensures old(Showing()) ==> Showing()
      ensures totalPages == |currentBookPages| && 1 <= page <= totalPages && page != old(currentPage) ==>
        Showing() && currentPage == page
    {
      if page < 1 || page > totalPages || page == currentPage {
        return;
      }
      currentPage := page;
      if |currentBookPages| != 0 && page <= |currentBookPages| {
        currentPageText := currentBookPages[page - 1];
      }
    }

    /** `turnPage`: nothing happens in an empty book; otherwise the cursor
        moves by `direction` when the target page exists. */
    method TurnPage(direction: int)
      modifies this`currentPage, this`currentPageText
      ensures totalPages == 0 || !(1 <= old(currentPage) + direction <= totalPages) ==>
        currentPage == old(currentPage) && currentPageText == old(currentPageText)
      ensures old(Showing()) ==> Showing()
      ensures totalPages != 0 && 1 <= old(currentPage) + direction <= totalPages ==>
        currentPage == old(currentPage) + direction
    {
      if totalPages == 0 {
        return;
      }
      var newPage := currentPage + direction;
      if newPage >= 1 && newPage <= totalPages {
        SetCurrentPage(newPage);
      }
    }

    /** `goToPage` is `setCurrentPage`. */
    method GoToPage(pageNumber: int)
      modifies this`currentPage, this`currentPageText
      ensures old(Showing()) ==> Showing()
      ensures totalPages == |currentBookPages| && 1 <= pageNumber <= totalPages ==> currentPage == pageNumber
      ensures totalPages == |currentBookPages| && 1 <= pageNumber <= totalPages && pageNumber != old(currentPage) ==>
        Showing()
      ensures !(1 <= pageNumber <= totalPages) ==>
        currentPage == old(currentPage) && currentPageText == old(currentPageText)
    {
      SetCurrentPage(pageNumber);
    }
  }
}
