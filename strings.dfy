/** String helpers shared by every layer of the model: ASCII case folding,
    white-space trimming, substring search (Go's `strings.Index`/`Count`,
    JavaScript's `includes`, Qt's `contains`), splitting into fields and
    the `split`/`join` pair used to store tag lists. Strings are
    `seq<char>`; case folding covers ASCII letters only. */
module Strings {
  import opened Wrappers

  /** The ASCII white-space characters, on which Go's `unicode.IsSpace`,
      Qt's `QChar::isSpace` and JavaScript's `trim` agree. */
  predicate IsSpace(c: char) {
    c == ' ' || c == '\t' || c == '\n' || c == '\r' || c == '\U{000B}' || c == '\U{000C}'
  }

  predicate AllSpace(s: string) {
    forall i :: 0 <= i < |s| ==> IsSpace(s[i])
  }

  /** A string that is blank once trimmed, as `!x.trim()` tests it. */
  predicate IsBlank(s: string) {
    AllSpace(s)
  }

  function LowerChar(c: char): char {
    if 'A' <= c <= 'Z' then (c as int + 32) as char else c
  }

  function Lower(s: string): (r: string)
    ensures |r| == |s|
    ensures forall i :: 0 <= i < |s| ==> r[i] == LowerChar(s[i])
  {
    seq(|s|, i requires 0 <= i < |s| => LowerChar(s[i]))
  }

  /** Lower-casing commutes with taking a slice. */
  lemma LowerSlice(text: string, a: nat, b: nat)
    requires a <= b <= |text|
    ensures Lower(text[a..b]) == Lower(text)[a..b]
  {
  }

  // ---------------------------------------------------------------- trimming

  /** The number of white-space characters at the start. */
  function LeadingSpaces(s: string): (n: nat)
    ensures n <= |s|
    ensures forall i :: 0 <= i < n ==> IsSpace(s[i])
    ensures n == |s| || !IsSpace(s[n])
  {
    if |s| > 0 && IsSpace(s[0]) then 1 + LeadingSpaces(s[1..]) else 0
  }

  /** The number of white-space characters at the end. */
  function TrailingSpaces(s: string): (n: nat)
    ensures n <= |s|
    ensures forall i :: |s| - n <= i < |s| ==> IsSpace(s[i])
    ensures n == |s| || !IsSpace(s[|s| - n - 1])
  {
    if |s| > 0 && IsSpace(s[|s| - 1]) then 1 + TrailingSpaces(s[..|s| - 1]) else 0
  }

  function TrimLeft(s: string): (r: string)
    ensures |r| <= |s| && r == s[|s| - |r|..]
    ensures AllSpace(s[..|s| - |r|])
    ensures r == [] || !IsSpace(r[0])
  {
    s[LeadingSpaces(s)..]
  }

  function TrimRight(s: string): (r: string)
    ensures |r| <= |s| && r == s[..|r|]
    ensures AllSpace(s[|r|..])
    ensures r == [] || !IsSpace(r[|r| - 1])
  {
    s[..|s| - TrailingSpaces(s)]
  }

  /** White space removed at both ends (`trimmed()`, `trim()`,
      `strings.TrimSpace`). */
  function Trim(s: string): (r: string)
    ensures |r| <= |s|
    ensures r == [] || (!IsSpace(r[0]) && !IsSpace(r[|r| - 1]))
    ensures r == [] <==> AllSpace(s)
  {
    var l := TrimLeft(s);
    var r := TrimRight(l);
    if r == [] then
      assert l[|r|..] == l;
      assert s == s[..|s| - |l|] + l;
      r
    else
      assert r[0] == l[0];
      assert s[|s| - |l|] == l[0];
      r
  }

  /** Trimming only removes characters: every character of the result is
      one of the input's. */
  lemma TrimChars(s: string)
    ensures forall c :: c in Trim(s) ==> c in s
  {
    var l := TrimLeft(s);
    var r := TrimRight(l);
    var lo := |s| - |l|;
    assert r == s[lo..lo + |r|] by {
      assert l == s[lo..];
      assert r == l[..|r|];
    }
    forall c | c in r
      ensures c in s
    {
      var i :| 0 <= i < |r| && r[i] == c;
      assert s[lo + i] == c;
    }
  }

  /** A string without white space at either end is its own trim. */
  lemma TrimUntrimmed(s: string)
    requires s == [] || (!IsSpace(s[0]) && !IsSpace(s[|s| - 1]))
    ensures Trim(s) == s
  {
  }

  lemma {:induction false} TrimIdempotent(s: string)
    ensures Trim(Trim(s)) == Trim(s)
  {
    var t := Trim(s);
    if t != [] {
      assert TrimLeft(t) == t;
      assert TrimRight(t) == t;
    }
  }

  // ------------------------------------------------------- substring search

  /** `sub` occurs in `s` at position `i`. */
  predicate OccursAt(s: string, sub: string, i: int) {
    0 <= i && i + |sub| <= |s| && s[i..i + |sub|] == sub
  }

  predicate Contains(s: string, sub: string) {
    exists i :: 0 <= i <= |s| && OccursAt(s, sub, i)
  }

  function IndexFrom(s: string, sub: string, i: nat): (r: Option<nat>)
    requires i <= |s|
    ensures r.Some? ==> i <= r.value && OccursAt(s, sub, r.value)
    ensures r.Some? ==> forall j :: i <= j < r.value ==> !OccursAt(s, sub, j)
    ensures r.None? ==> forall j :: i <= j ==> !OccursAt(s, sub, j)
    decreases |s| - i
  {
    if i + |sub| > |s| then None
    else if OccursAt(s, sub, i) then Some(i)
    else IndexFrom(s, sub, i + 1)
  }

  /** The first occurrence of `sub` in `s` (Go's `strings.Index`, with
      `None` for -1). */
  function Index(s: string, sub: string): (r: Option<nat>)
    ensures r.Some? ==> OccursAt(s, sub, r.value)
    ensures r.Some? ==> forall j :: 0 <= j < r.value ==> !OccursAt(s, sub, j)
    ensures r.Some? <==> Contains(s, sub)
  {
    IndexFrom(s, sub, 0)
  }

  /** Non-overlapping occurrences counted left to right (Go's
      `strings.Count`; an empty `sub` counts the gaps, length + 1). */
  function CountOcc(s: string, sub: string): nat
    decreases |s|
  {
    if |sub| == 0 then |s| + 1
    else
      match Index(s, sub)
      case None => 0
      case Some(i) => 1 + CountOcc(s[i + |sub|..], sub)
  }

  /** A non-empty `sub` is counted at least once exactly when it occurs. */
  lemma CountOccPositive(s: string, sub: string)
    requires |sub| > 0
    ensures CountOcc(s, sub) > 0 <==> Contains(s, sub)
  {
  }

  /** The counted occurrences of a non-empty `sub` fit in `s` side by side. */
  lemma {:induction false} CountOccFits(s: string, sub: string)
    requires |sub| > 0
    ensures CountOcc(s, sub) * |sub| <= |s|
    decreases |s|
  {
    match Index(s, sub)
    case None =>
    case Some(i) =>
      var rest := s[i + |sub|..];
      var m := CountOcc(rest, sub);
      CountOccFits(rest, sub);
      assert CountOcc(s, sub) == 1 + m;
      MulSucc(m, |sub|);
  }

  lemma MulSucc(m: int, k: int)
    ensures (1 + m) * k == k + m * k
  {
  }

  /** Left-to-right replacement of every non-overlapping occurrence
      (Go's `strings.ReplaceAll` for a non-empty pattern). */
  function ReplaceAll(s: string, pat: string, rep: string): (r: string)
    requires |pat| > 0
    ensures !Contains(s, pat) ==> r == s
    decreases |s|
  {
    match Index(s, pat)
    case None => s
    case Some(i) => s[..i] + rep + ReplaceAll(s[i + |pat|..], pat, rep)
  }

  predicate StartsWith(s: string, prefix: string) {
    |prefix| <= |s| && s[..|prefix|] == prefix
  }

  // ----------------------------------------------------------------- fields

  /** A non-empty run of non-space characters. */
  predicate IsWord(w: string) {
    |w| > 0 && forall i :: 0 <= i < |w| ==> !IsSpace(w[i])
  }

  function WordLen(s: string): (n: nat)
    ensures n <= |s|
    ensures forall i :: 0 <= i < n ==> !IsSpace(s[i])
    ensures n == |s| || IsSpace(s[n])
  {
    if |s| == 0 || IsSpace(s[0]) then 0 else 1 + WordLen(s[1..])
  }

  /** The maximal runs of non-space characters, in order (Go's
      `strings.Fields`). */
  function Fields(s: string): (r: seq<string>)
    ensures forall k :: 0 <= k < |r| ==> IsWord(r[k])
    decreases |s|
  {
    if |s| == 0 then []
    else if IsSpace(s[0]) then Fields(s[1..])
    else
      var n := WordLen(s);
      var w := s[..n];
      assert IsWord(w) by {
        forall i | 0 <= i < |w| ensures !IsSpace(w[i]) {
          assert w[i] == s[i];
        }
      }
      [w] + Fields(s[n..])
  }

  lemma {:induction false} WordLenSnocSpace(s: string, c: char)
    requires IsSpace(c)
    ensures WordLen(s + [c]) == WordLen(s)
    decreases |s|
  {
    if |s| > 0 && !IsSpace(s[0]) {
      assert (s + [c])[1..] == s[1..] + [c];
      WordLenSnocSpace(s[1..], c);
    }
  }

  /** A trailing white-space character adds no field. */
  lemma {:induction false} FieldsSnocSpace(s: string, c: char)
    requires IsSpace(c)
    ensures Fields(s + [c]) == Fields(s)
    decreases |s|
  {
    var t := s + [c];
    if |s| == 0 {
      assert t[1..] == [];
    } else if IsSpace(s[0]) {
      assert t[1..] == s[1..] + [c];
      FieldsSnocSpace(s[1..], c);
    } else {
      var n := WordLen(s);
      WordLenSnocSpace(s, c);
      assert t[..n] == s[..n];
      assert t[n..] == s[n..] + [c];
      FieldsSnocSpace(s[n..], c);
    }
  }

  /** Trimming does not change the fields. */
  lemma {:induction false} FieldsTrimRight(s: string)
    ensures Fields(TrimRight(s)) == Fields(s)
    decreases |s|
  {
    if |s| > 0 && IsSpace(s[|s| - 1]) {
      var init := s[..|s| - 1];
      assert s == init + [s[|s| - 1]];
      TrimRightSpaceSnoc(init, s[|s| - 1]);
      FieldsSnocSpace(init, s[|s| - 1]);
      FieldsTrimRight(init);
    } else {
      assert TrimRight(s) == s;
    }
  }

  lemma {:induction false} FieldsTrimLeft(s: string)
    ensures Fields(TrimLeft(s)) == Fields(s)
    decreases |s|
  {
    if |s| > 0 && IsSpace(s[0]) {
      assert TrimLeft(s) == TrimLeft(s[1..]) by {
        assert LeadingSpaces(s) == 1 + LeadingSpaces(s[1..]);
        assert s[LeadingSpaces(s)..] == s[1..][LeadingSpaces(s[1..])..];
      }
      FieldsTrimLeft(s[1..]);
    } else {
      assert TrimLeft(s) == s;
    }
  }

  lemma FieldsTrim(s: string)
    ensures Fields(Trim(s)) == Fields(s)
  {
    FieldsTrimLeft(s);
    FieldsTrimRight(TrimLeft(s));
  }

  /** `ReplaceAll` brings in no character that is in neither the text nor
      the replacement. */
  lemma {:induction false} ReplaceAllChars(s: string, pat: string, rep: string, c: char)
    requires |pat| > 0 && c !in s && c !in rep
    ensures c !in ReplaceAll(s, pat, rep)
    decreases |s|
  {
    match Index(s, pat)
    case None =>
    case Some(i) =>
      var rest := s[i + |pat|..];
      assert c !in rest by {
        assert forall k :: 0 <= k < |rest| ==> rest[k] == s[i + |pat| + k];
      }
      assert c !in s[..i] by {
        assert forall k :: 0 <= k < i ==> s[..i][k] == s[k];
      }
      ReplaceAllChars(rest, pat, rep, c);
      assert ReplaceAll(s, pat, rep) == s[..i] + rep + ReplaceAll(rest, pat, rep);
  }

  /** A string has no fields exactly when it is all white space. */
  lemma {:induction false} FieldsEmptyIffBlank(s: string)
    ensures Fields(s) == [] <==> AllSpace(s)
    decreases |s|
  {
    if |s| > 0 && IsSpace(s[0]) {
      FieldsEmptyIffBlank(s[1..]);
      assert AllSpace(s) <==> AllSpace(s[1..]) by {
        assert forall i :: 0 < i < |s| ==> s[i] == s[1..][i - 1];
      }
    }
  }

  // --------------------------------------------------------- split and join

  /** Parts glued with `sep` between neighbours (`QStringList::join`,
      `Array.join`, `strings.Join`). */
  function Join(parts: seq<string>, sep: string): string {
    if |parts| == 0 then ""
    else if |parts| == 1 then parts[0]
    else parts[0] + sep + Join(parts[1..], sep)
  }

  function FirstIndexOf(s: string, c: char): (i: nat)
    requires c in s
    ensures i < |s|
  {
    if s[0] == c then 0 else 1 + FirstIndexOf(s[1..], c)
  }

  /** `FirstIndexOf` finds the first occurrence. */
  lemma {:induction false} FirstIndexOfSpec(s: string, c: char)
    requires c in s
    ensures s[FirstIndexOf(s, c)] == c && c !in s[..FirstIndexOf(s, c)]
  {
    if s[0] != c {
      var i := FirstIndexOf(s, c);
      FirstIndexOfSpec(s[1..], c);
      assert s[..i] == [s[0]] + s[1..][..i - 1];
    }
  }

  lemma {:induction false} FirstIndexOfAfter(a: string, b: string, c: char)
    requires c !in a
    ensures FirstIndexOf(a + [c] + b, c) == |a|
  {
    if a != [] {
      assert (a + [c] + b)[1..] == a[1..] + [c] + b;
      FirstIndexOfAfter(a[1..], b, c);
    }
  }

  lemma {:induction false} FirstIndexOfPrefix(a: string, x: string, c: char)
    requires c in a
    ensures FirstIndexOf(a + x, c) == FirstIndexOf(a, c)
  {
    if a[0] != c {
      assert (a + x)[1..] == a[1..] + x;
      FirstIndexOfPrefix(a[1..], x, c);
    }
  }

  /** Pieces between separators, empty pieces kept (`QString::split(c)`,
      JavaScript `split(c)`): always at least one piece, none holding `c`. */
  function Split(s: string, c: char): seq<string>
    decreases |s|
  {
    if c in s then
      var i := FirstIndexOf(s, c);
      [s[..i]] + Split(s[i + 1..], c)
    else [s]
  }

  lemma {:induction false} SplitParts(s: string, c: char)
    ensures |Split(s, c)| >= 1
    ensures forall k :: 0 <= k < |Split(s, c)| ==> c !in Split(s, c)[k]
    decreases |s|
  {
    if c in s {
      var i := FirstIndexOf(s, c);
      FirstIndexOfSpec(s, c);
      SplitParts(s[i + 1..], c);
    }
  }

  /** Joining the pieces of a split gives the string back. */
  lemma {:induction false} JoinSplit(s: string, c: char)
    ensures Join(Split(s, c), [c]) == s
    decreases |s|
  {
    if c in s {
      var i := FirstIndexOf(s, c);
      var rest := Split(s[i + 1..], c);
      FirstIndexOfSpec(s, c);
      JoinSplit(s[i + 1..], c);
      assert Split(s, c) == [s[..i]] + rest;
      assert s == s[..i] + [c] + s[i + 1..];
    }
  }

  /** Splitting a join gives the parts back when no part holds the
      separator. */
  lemma {:induction false} SplitJoin(parts: seq<string>, c: char)
    requires |parts| >= 1
    requires forall k :: 0 <= k < |parts| ==> c !in parts[k]
    ensures Split(Join(parts, [c]), c) == parts
    decreases |parts|
  {
    if |parts| > 1 {
      var tail := Join(parts[1..], [c]);
      var s := parts[0] + [c] + tail;
      assert Join(parts, [c]) == s;
      assert s[|parts[0]|] == c;
      FirstIndexOfAfter(parts[0], tail, c);
      assert s[..|parts[0]|] == parts[0];
      assert s[|parts[0]| + 1..] == tail;
      assert Split(s, c) == [parts[0]] + Split(tail, c);
      SplitJoin(parts[1..], c);
      assert parts == [parts[0]] + parts[1..];
    }
  }

  /** Splitting at a separator splits the two sides independently. */
  lemma {:induction false} SplitConcat(a: string, b: string, c: char)
    ensures Split(a + [c] + b, c) == Split(a, c) + Split(b, c)
    decreases |a|
  {
    var s := a + [c] + b;
    if c in a {
      var i := FirstIndexOf(a, c);
      FirstIndexOfPrefix(a, [c] + b, c);
      assert a + [c] + b == a + ([c] + b);
      assert s[..i] == a[..i];
      assert s[i + 1..] == a[i + 1..] + [c] + b;
      SplitConcat(a[i + 1..], b, c);
    } else {
      FirstIndexOfAfter(a, b, c);
      assert s[..|a|] == a;
      assert s[|a| + 1..] == b;
    }
  }

  lemma {:induction false} JoinSnoc(parts: seq<string>, x: string, sep: string)
    requires |parts| >= 1
    ensures Join(parts + [x], sep) == Join(parts, sep) + sep + x
    decreases |parts|
  {
    if |parts| > 1 {
      assert (parts + [x])[1..] == parts[1..] + [x];
      JoinSnoc(parts[1..], x, sep);
    }
  }

  /** A join begins with the first part's first character. */
  lemma {:induction false} JoinHead(parts: seq<string>, sep: string)
    requires |parts| >= 1 && parts[0] != ""
    ensures Join(parts, sep) != "" && Join(parts, sep)[0] == parts[0][0]
  {
  }

  /** A join ends with the last part's last character. */
  lemma {:induction false} JoinLast(parts: seq<string>, sep: string)
    requires |parts| >= 1 && parts[|parts| - 1] != ""
    ensures var j := Join(parts, sep);
      j != "" && j[|j| - 1] == parts[|parts| - 1][|parts[|parts| - 1]| - 1]
  {
    if |parts| > 1 {
      var n := |parts| - 1;
      assert parts == parts[..n] + [parts[n]];
      JoinSnoc(parts[..n], parts[n], sep);
    }
  }

  /** A trailing space does not survive `TrimRight`. */
  lemma TrimRightSpaceSnoc(s: string, c: char)
    requires IsSpace(c)
    ensures TrimRight(s + [c]) == TrimRight(s)
  {
    assert (s + [c])[..|s|] == s;
  }

  // ------------------------------------------------------- decimal numbers

  function DigitChar(d: nat): char
    requires d < 10
  {
    ('0' as int + d) as char
  }

  predicate IsDigit(c: char) {
    '0' <= c <= '9'
  }

  /** Decimal digits of a natural number, most significant first. */
  function NatToString(n: nat): (s: string)
    ensures |s| >= 1
    ensures forall i :: 0 <= i < |s| ==> IsDigit(s[i])
  {
    if n < 10 then [DigitChar(n)] else NatToString(n / 10) + [DigitChar(n % 10)]
  }

  /** `QString::arg(int)` / `strconv.Itoa`: optional '-' then the digits. */
  function IntToString(i: int): string {
    if i < 0 then "-" + NatToString(-i) else NatToString(i)
  }

  predicate AllDigits(s: string) {
    forall i :: 0 <= i < |s| ==> IsDigit(s[i])
  }

  /** The value of a string of decimal digits. */
  function DigitsValue(s: string): nat
    requires AllDigits(s)
  {
    if |s| == 0 then 0
    else DigitsValue(s[..|s| - 1]) * 10 + (s[|s| - 1] as int - '0' as int)
  }

  const MIN_INT64 := -0x8000_0000_0000_0000
  const MAX_INT64 := 0x7FFF_FFFF_FFFF_FFFF

  /** Go's `strconv.Atoi` on a 64-bit server: an optional sign, then one or
      more decimal digits, with a value that fits 64 bits; anything else is
      an error. */
  function ParseInt(s: string): (r: Option<int>)
    ensures r.Some? ==> MIN_INT64 <= r.value <= MAX_INT64
  {
    if |s| == 0 then None
    else if s[0] == '+' then ParseDigits(false, s[1..])
    else if s[0] == '-' then ParseDigits(true, s[1..])
    else ParseDigits(false, s)
  }

  /** The digits after the sign: at least one, all decimal, in range. */
  function ParseDigits(negative: bool, digits: string): (r: Option<int>)
    ensures r.Some? ==> MIN_INT64 <= r.value <= MAX_INT64
  {
    if |digits| == 0 || !AllDigits(digits) then None
    else
      var n: int := DigitsValue(digits);
      var v := if negative then -n else n;
      if v < MIN_INT64 || v > MAX_INT64 then None else Some(v)
  }

  lemma {:induction false} DigitsValueOfNat(n: nat)
    ensures AllDigits(NatToString(n)) && DigitsValue(NatToString(n)) == n
    decreases n
  {
    var s := NatToString(n);
    if n >= 10 {
      DigitsValueOfNat(n / 10);
      assert s[..|s| - 1] == NatToString(n / 10);
    }
  }

  /** Parsing gives back every 64-bit integer that `IntToString` prints. */
  lemma ParseIntToString(i: int)
    requires MIN_INT64 <= i <= MAX_INT64
    ensures ParseInt(IntToString(i)) == Some(i)
  {
    if i < 0 {
      var digits := NatToString(-i);
      DigitsValueOfNat(-i);
      assert ParseDigits(true, digits) == Some(i);
      assert IntToString(i) == "-" + digits;
      assert ("-" + digits)[1..] == digits;
    } else {
      var digits := NatToString(i);
      DigitsValueOfNat(i);
      assert ParseDigits(false, digits) == Some(i);
      assert IsDigit(digits[0]);
    }
  }
}
