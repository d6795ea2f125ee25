/**
 * Character classes and counting helpers shared by the scanner.
 * Only ASCII classes are modelled: `\d`, `\w` and `\b` are read as their
 * ASCII meaning, which is what they match on ASCII source text.
 */
module Chars {

  /** The three characters the scanner's skip loop and `[ \t\n]` accept. */
  predicate IsBlank(c: char) {
    c == ' ' || c == '\t' || c == '\n'
  }

  predicate IsDigit(c: char) {
    '0' <= c <= '9'
  }

  predicate IsLetter(c: char) {
    ('a' <= c <= 'z') || ('A' <= c <= 'Z')
  }

  /** `[a-zA-Z_]`, the first character of an identifier. */
  predicate IsIdentStart(c: char) {
    IsLetter(c) || c == '_'
  }

  /** `[a-zA-Z0-9_]`, which is also the word class `\w` used by `\b`. */
  predicate IsWordChar(c: char) {
    IsIdentStart(c) || IsDigit(c)
  }

  predicate NotNewline(c: char) {
    c != '\n'
  }

  /** Number of line feeds in `s`. */
  function CountNewlines(s: string): (n: nat)
    ensures n <= |s|
  {
    if s == [] then 0
    else (if s[0] == '\n' then 1 else 0) + CountNewlines(s[1..])
  }

  /** A text has no line feed to count exactly when it holds none. */
  lemma {:induction false} CountNewlinesZero(s: string)
    ensures CountNewlines(s) == 0 <==> '\n' !in s
  {
    if s != [] {
      CountNewlinesZero(s[1..]);
      assert s == [s[0]] + s[1..];
    }
  }

  lemma {:induction false} CountNewlinesAppend(a: string, b: string)
    ensures CountNewlines(a + b) == CountNewlines(a) + CountNewlines(b)
  {
    if a == [] {
      assert a + b == b;
    } else {
      assert (a + b)[1..] == a[1..] + b;
      CountNewlinesAppend(a[1..], b);
    }
  }

  /** Length of the longest prefix of `s` whose every character satisfies `p`. */
  function Span(s: string, p: char -> bool): (n: nat)
    ensures n <= |s|
  {
    if s == [] || !p(s[0]) then 0 else 1 + Span(s[1..], p)
  }

  /** `Span` measures a run of `p` characters that cannot be extended. */
  lemma {:induction false} SpanIsLongestRun(s: string, p: char -> bool)
    ensures forall i :: 0 <= i < Span(s, p) ==> p(s[i])
    ensures Span(s, p) == |s| || !p(s[Span(s, p)])
  {
    if s != [] && p(s[0]) {
      SpanIsLongestRun(s[1..], p);
      assert forall i :: 1 <= i < Span(s, p) ==> s[i] == s[1..][i - 1];
    }
  }
}
