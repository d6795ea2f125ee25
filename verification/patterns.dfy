/**
 * Prefix matchers for the six shapes of regular expression that occur in the
 * scanner's rule table. Each answers what `re.match(pattern, s)` answers: the
 * length of the matched prefix of `s`, or `None`. Each matcher's contract
 * says when it matches and how long the match is; what the matched text looks
 * like is stated by a lemma beside it.
 */
module Patterns {
  import opened Opt
  import opened Chars

  datatype Pattern =
    | Blanks               // [ \t\n]+
    | LineComment          // //.*
    | Literal(text: string) // a fixed string such as == or \(
    | Number               // \d+(\.\d+)?
    | Keyword(word: string) // \bword\b
    | Identifier           // [a-zA-Z_][a-zA-Z0-9_]*

  /** A pattern that can only match non-empty text. */
  predicate NonEmptyMatches(p: Pattern) {
    match p
    case Literal(t) => t != []
    case Keyword(w) => w != []
    case _ => true
  }

  predicate AllDigits(x: string) {
    x != [] && forall i :: 0 <= i < |x| ==> IsDigit(x[i])
  }

  /** The language of `\d+(\.\d+)?`. */
  predicate IsNumeral(x: string) {
    || AllDigits(x)
    || exists i :: 0 < i < |x| && AllDigits(x[..i]) && x[i] == '.' && AllDigits(x[i + 1..])
  }

  /** Whether position `i` of `s` holds a word character; positions outside `s` do not. */
  predicate WordAt(s: string, i: int) {
    0 <= i < |s| && IsWordChar(s[i])
  }

  /** The assertion `\b` at position `i`: a word character on exactly one side. */
  predicate Boundary(s: string, i: int) {
    WordAt(s, i - 1) != WordAt(s, i)
  }

  function MatchBlanks(s: string): (r: Option<nat>)
    ensures r.Some? <==> s != [] && IsBlank(s[0])
    ensures r.Some? ==> 0 < r.value <= |s|
  {
    var n := Span(s, IsBlank);
    if n == 0 then None else Some(n)
  }

  /** `[ \t\n]+` takes the whole run of blanks. */
  lemma BlanksMatchIsMaximal(s: string)
    requires MatchBlanks(s).Some?
    ensures forall i :: 0 <= i < MatchBlanks(s).value ==> IsBlank(s[i])
    ensures MatchBlanks(s).value == |s| || !IsBlank(s[MatchBlanks(s).value])
  {
    SpanIsLongestRun(s, IsBlank);
  }

  function MatchComment(s: string): (r: Option<nat>)
    ensures r.Some? <==> |s| >= 2 && s[0] == '/' && s[1] == '/'
    ensures r.Some? ==> 2 <= r.value <= |s|
  {
    if |s| >= 2 && s[0] == '/' && s[1] == '/' then Some(2 + Span(s[2..], NotNewline)) else None
  }

  /** `//.*` runs to the end of its line, since `.` does not match a line feed. */
  lemma CommentMatchEndsAtLineEnd(s: string)
    requires MatchComment(s).Some?
    ensures '\n' !in s[..MatchComment(s).value]
    ensures MatchComment(s).value == |s| || s[MatchComment(s).value] == '\n'
  {
    var n := MatchComment(s).value;
    SpanIsLongestRun(s[2..], NotNewline);
    assert forall i :: 0 <= i < n ==> s[..n][i] != '\n' by {
      forall i | 0 <= i < n ensures s[..n][i] != '\n' {
        if i >= 2 { assert s[i] == s[2..][i - 2]; }
      }
    }
    if n < |s| {
      assert s[n] == s[2..][n - 2];
    }
  }

  function MatchLiteral(text: string, s: string): (r: Option<nat>)
    ensures r.Some? <==> |text| <= |s| && s[..|text|] == text
    ensures r.Some? ==> r.value == |text|
  {
    if |text| <= |s| && s[..|text|] == text then Some(|text|) else None
  }

  function MatchNumber(s: string): (r: Option<nat>)
    ensures r.Some? <==> s != [] && IsDigit(s[0])
    ensures r.Some? ==> 0 < r.value <= |s|
  {
    var d := Span(s, IsDigit);
    if d == 0 then None
    else if d + 1 < |s| && s[d] == '.' && IsDigit(s[d + 1]) then
      Some(d + 1 + Span(s[d + 1..], IsDigit))
    else Some(d)
  }

  /**
   * `\d+(\.\d+)?` is greedy: it takes a numeral that no further digit extends,
   * and takes the fraction whenever a `.` and a digit follow the integer part.
   */
  lemma NumberMatchIsGreedy(s: string)
    requires MatchNumber(s).Some?
    ensures IsNumeral(s[..MatchNumber(s).value])
    ensures forall i :: 0 <= i < MatchNumber(s).value ==> IsDigit(s[i]) || s[i] == '.'
    ensures MatchNumber(s).value == |s| || !IsDigit(s[MatchNumber(s).value])
    ensures '.' !in s[..MatchNumber(s).value] ==>
      !(MatchNumber(s).value + 1 < |s| && s[MatchNumber(s).value] == '.' && IsDigit(s[MatchNumber(s).value + 1]))
  {
    var d := Span(s, IsDigit);
    SpanIsLongestRun(s, IsDigit);
    assert AllDigits(s[..d]);
    if d + 1 < |s| && s[d] == '.' && IsDigit(s[d + 1]) {
      var f := Span(s[d + 1..], IsDigit);
      SpanIsLongestRun(s[d + 1..], IsDigit);
      var n := d + 1 + f;
      assert s[..n][..d] == s[..d];
      assert s[..n][d + 1..] == s[d + 1..][..f];
      assert AllDigits(s[..n][d + 1..]);
      assert forall i :: d + 1 <= i < n ==> s[i] == s[d + 1..][i - d - 1];
      assert n == |s| || s[n] == s[d + 1..][f];
    } else {
      assert '.' !in s[..d];
    }
  }

  function MatchKeyword(word: string, s: string): (r: Option<nat>)
    ensures r.Some? <==> |word| <= |s| && s[..|word|] == word && Boundary(s, 0) && Boundary(s, |word|)
    ensures r.Some? ==> r.value == |word|
  {
    if |word| <= |s| && s[..|word|] == word && Boundary(s, 0) && Boundary(s, |word|) then Some(|word|) else None
  }

  function MatchIdentifier(s: string): (r: Option<nat>)
    ensures r.Some? <==> s != [] && IsIdentStart(s[0])
    ensures r.Some? ==> 0 < r.value <= |s|
  {
    if s != [] && IsIdentStart(s[0]) then Some(1 + Span(s[1..], IsWordChar)) else None
  }

  /** `[a-zA-Z_][a-zA-Z0-9_]*` takes the whole word. */
  lemma IdentifierMatchIsMaximal(s: string)
    requires MatchIdentifier(s).Some?
    ensures forall i :: 0 <= i < MatchIdentifier(s).value ==> IsWordChar(s[i])
    ensures MatchIdentifier(s).value == |s| || !IsWordChar(s[MatchIdentifier(s).value])
  {
    var n := MatchIdentifier(s).value;
    SpanIsLongestRun(s[1..], IsWordChar);
    assert forall i :: 1 <= i < n ==> s[i] == s[1..][i - 1];
    if n < |s| {
      assert s[n] == s[1..][n - 1];
    }
  }

  /** What `re.match(p, s)` returns, as the length of `match.group(0)`. */
  function Match(p: Pattern, s: string): (r: Option<nat>)
    ensures r.Some? ==> r.value <= |s|
    ensures r.Some? && NonEmptyMatches(p) ==> r.value > 0
  {
    match p
    case Blanks => MatchBlanks(s)
    case LineComment => MatchComment(s)
    case Literal(t) => MatchLiteral(t, s)
    case Number => MatchNumber(s)
    case Keyword(w) => MatchKeyword(w, s)
    case Identifier => MatchIdentifier(s)
  }

  /** Whether pattern `p` can match text that starts with `c`. */
  predicate Admits(p: Pattern, c: char) {
    match p
    case Blanks => IsBlank(c)
    case LineComment => c == '/'
    case Literal(t) => t == [] || t[0] == c
    case Number => IsDigit(c)
    case Keyword(w) => w == [] || w[0] == c
    case Identifier => IsIdentStart(c)
  }

  /** A pattern matches only text whose first character it admits. */
  lemma MatchNeedsStart(p: Pattern, s: string)
    requires s != [] && Match(p, s).Some?
    ensures Admits(p, s[0])
  {
    match p
    case Literal(t) => if t != [] { assert s[..|t|][0] == s[0]; }
    case Keyword(w) => if w != [] { assert s[..|w|][0] == s[0]; }
    case _ =>
  }

  /**
   * On text that starts with a word, `\bw\b` for a keyword `w` matches exactly
   * when the whole word (the identifier match) is `w`.
   */
  lemma KeywordMatchesWholeWord(w: string, s: string)
    requires w != [] && forall i :: 0 <= i < |w| ==> IsWordChar(w[i])
    requires s != [] && IsIdentStart(s[0])
    ensures Match(Keyword(w), s).Some? <==> s[..MatchIdentifier(s).value] == w
  {
    var n := MatchIdentifier(s).value;
    IdentifierMatchIsMaximal(s);
    if Match(Keyword(w), s).Some? {
      assert s[..|w|] == w;
      assert forall i :: 0 <= i < |w| ==> IsWordChar(s[i]) by {
        forall i | 0 <= i < |w| ensures IsWordChar(s[i]) {
          assert s[..|w|][i] == s[i];
        }
      }
      assert !WordAt(s, |w|) by {
        assert WordAt(s, |w| - 1) by { assert s[..|w|][|w| - 1] == s[|w| - 1]; }
      }
      assert n == |w|;
    }
    if s[..n] == w {
      assert s[..|w|] == w;
      assert WordAt(s, 0);
      assert WordAt(s, |w| - 1);
      assert !WordAt(s, |w|);
    }
  }
}
