/**
 * What one call of the scanner's `token` does to its input: it consumes a
 * layout prefix and then exactly the returned lexeme's text, counts every line
 * feed it passes, reports the end of input exactly when only layout is left,
 * and raises its error at the current line when no rule matches.
 */
module ScanFacts {
  import opened Opt
  import opened Chars
  import opened Lexemes
  import opened Patterns
  import opened Layout
  import opened Scanner

  /** After the blanks, the search chooses a layout match, on which `token` calls itself again. */
  predicate IgnoreAhead(t: Scanner, search: string -> Option<Choice>)
    requires Valid(t)
  {
    t.pos < |t.input| && search(t.input[t.pos..]).Some? && search(t.input[t.pos..]).value.token == Ignore
  }

  /** Dropping a layout match keeps every line feed counted. */
  lemma ResumeKeepsStartLine(t: Scanner, n: nat)
    requires t.pos + n <= |t.input|
    ensures StartLine(Resume(t, n)) == StartLine(t)
  {
    CountNewlinesSplit(t.input, t.pos, t.pos + n);
  }

  /**
   * The position at which a call of `token` stops passing over layout: after
   * the blanks and after every layout match, where it returns a lexeme,
   * reports the end of input or raises its error.
   */
  function AnswerPos(sc: Scanner, search: string -> Option<Choice>): (p: nat)
    requires Valid(sc) && ValidSearch(search)
    decreases |sc.input| - sc.pos
    ensures sc.pos <= p <= |sc.input|
  {
    var t := SkipBlanks(sc);
    if IgnoreAhead(t, search) then
      AnswerPos(Resume(t, search(t.input[t.pos..]).value.length), search)
    else
      t.pos
  }

  /** Where no layout match comes next, a lexeme is returned right after the blanks, at the current line. */
  lemma StopEmit(t: Scanner, search: string -> Option<Choice>)
    requires Valid(t) && ValidSearch(search) && !IgnoreAhead(t, search) && ScanAfterBlanks(t, search).Emit?
    ensures var r := ScanAfterBlanks(t, search);
      && search(t.input[t.pos..]).Some?
      && search(t.input[t.pos..]).value.token == r.lexeme.token
      && search(t.input[t.pos..]).value.length == r.next.pos - t.pos
      && r.lexeme.value == t.input[t.pos..r.next.pos]
      && r.next.line == t.line
  {
    var c := search(t.input[t.pos..]).value;
    var end := t.pos + c.length;
    assert Apply(c.action, Lexeme(c.token, t.input[t.pos..end])) == Lexeme(c.token, t.input[t.pos..end]) by {
      match c.action case Idy =>
    }
  }

  /**
   * Whatever the search, a returned lexeme is what the search chose at the
   * answer position, and the line counter is the starting line plus the line
   * feeds before that position.
   */
  lemma {:induction false} ScanEmitAt(sc: Scanner, search: string -> Option<Choice>)
    requires Valid(sc) && ValidSearch(search) && Scan(sc, search).Emit?
    decreases |sc.input| - sc.pos
    ensures var p := AnswerPos(sc, search); var r := Scan(sc, search);
      && p < r.next.pos
      && search(sc.input[p..]).Some?
      && search(sc.input[p..]).value.token == r.lexeme.token
      && search(sc.input[p..]).value.length == r.next.pos - p
      && r.lexeme.value == sc.input[p..r.next.pos]
      && r.next.line == StartLine(sc) + CountNewlines(sc.input[..p])
  {
    var t := SkipBlanks(sc);
    SkipBlanksKeepsStartLine(sc);
    if IgnoreAhead(t, search) {
      var n := search(t.input[t.pos..]).value.length;
      ScanAfterLayout(t, search);
      ResumeKeepsStartLine(t, n);
      ScanEmitAt(Resume(t, n), search);
    } else {
      StopEmit(t, search);
    }
  }

  /** Whatever the search, the end of input is reported at the end of the text, with every line feed counted. */
  lemma {:induction false} ScanExhaustedAt(sc: Scanner, search: string -> Option<Choice>)
    requires Valid(sc) && ValidSearch(search) && Scan(sc, search).Exhausted?
    decreases |sc.input| - sc.pos
    ensures AnswerPos(sc, search) == |sc.input|
    ensures StartLine(Scan(sc, search).next) == StartLine(sc)
  {
    var t := SkipBlanks(sc);
    SkipBlanksKeepsStartLine(sc);
    if IgnoreAhead(t, search) {
      var n := search(t.input[t.pos..]).value.length;
      ScanAfterLayout(t, search);
      ResumeKeepsStartLine(t, n);
      ScanExhaustedAt(Resume(t, n), search);
    }
  }

  /**
   * Whatever the search, the scanner error is raised at the answer position,
   * where the search finds nothing, carrying the line reached there.
   */
  lemma {:induction false} ScanFailedAt(sc: Scanner, search: string -> Option<Choice>)
    requires Valid(sc) && ValidSearch(search) && Scan(sc, search).Failed?
    decreases |sc.input| - sc.pos
    ensures var p := AnswerPos(sc, search);
      && p < |sc.input|
      && search(sc.input[p..]).None?
      && Scan(sc, search).line == StartLine(sc) + CountNewlines(sc.input[..p])
  {
    var t := SkipBlanks(sc);
    SkipBlanksKeepsStartLine(sc);
    if IgnoreAhead(t, search) {
      var n := search(t.input[t.pos..]).value.length;
      ScanAfterLayout(t, search);
      ResumeKeepsStartLine(t, n);
      ScanFailedAt(Resume(t, n), search);
    }
  }

  /** Layout between `i` and `j` and layout between `j` and `k` make layout between `i` and `k`. */
  lemma LayoutJoin(s: string, i: nat, j: nat, k: nat)
    requires i <= j <= k <= |s| && IsLayout(s[i..j]) && IsLayout(s[j..k])
    ensures IsLayout(s[i..k])
  {
    LayoutAppend(s[i..j], s[j..k]);
    assert s[i..k] == s[i..j] + s[j..k];
  }

  /** The skip loop passes over a run of blanks, which is layout. */
  lemma SkipBlanksTakesLayout(sc: Scanner)
    requires Valid(sc)
    ensures IsLayout(sc.input[sc.pos..SkipBlanks(sc).pos])
  {
    var t := SkipBlanks(sc);
    SkipBlanksSkipsRun(sc);
    BlankStretchIsLayout(sc.input, sc.pos, t.pos);
  }

  /** A search whose layout choices take only layout. */
  ghost predicate LayoutIgnored(search: string -> Option<Choice>)
    requires ValidSearch(search)
  {
    forall s {:trigger IsLayout(s[..search(s).value.length])} :: search(s).Some? && search(s).value.token == Ignore ==> IsLayout(s[..search(s).value.length])
  }

  /** A search whose other choices take text without a line feed. */
  ghost predicate TokensSingleLine(search: string -> Option<Choice>)
    requires ValidSearch(search)
  {
    forall s {:trigger CountNewlines(s[..search(s).value.length])} :: search(s).Some? && search(s).value.token != Ignore ==> CountNewlines(s[..search(s).value.length]) == 0
  }

  /** A layout match ahead covers layout text. */
  lemma IgnoredIsLayout(t: Scanner, search: string -> Option<Choice>)
    requires Valid(t) && ValidSearch(search) && LayoutIgnored(search) && IgnoreAhead(t, search)
    ensures IsLayout(t.input[t.pos..t.pos + search(t.input[t.pos..]).value.length])
  {
    var u := t.input[t.pos..];
    var n := search(u).value.length;
    assert IsLayout(u[..n]);
    assert u[..n] == t.input[t.pos..t.pos + n];
  }

  /** What a call of `token` passes over is layout, when the search's layout choices are. */
  lemma {:induction false} SkippedIsLayout(sc: Scanner, search: string -> Option<Choice>)
    requires Valid(sc) && ValidSearch(search) && LayoutIgnored(search)
    decreases |sc.input| - sc.pos
    ensures IsLayout(sc.input[sc.pos..AnswerPos(sc, search)])
  {
    var t := SkipBlanks(sc);
    SkipBlanksTakesLayout(sc);
    if IgnoreAhead(t, search) {
      var n := search(t.input[t.pos..]).value.length;
      var r := Resume(t, n);
      IgnoredIsLayout(t, search);
      LayoutJoin(sc.input, sc.pos, t.pos, t.pos + n);
      SkippedIsLayout(r, search);
      assert AnswerPos(sc, search) == AnswerPos(r, search);
      LayoutJoin(sc.input, sc.pos, t.pos + n, AnswerPos(sc, search));
    }
  }

  /** A returned lexeme holds no line feed when the search's other choices are single-line. */
  lemma ScanEmitSingleLine(sc: Scanner, search: string -> Option<Choice>)
    requires Valid(sc) && ValidSearch(search) && TokensSingleLine(search) && Scan(sc, search).Emit?
    ensures CountNewlines(Scan(sc, search).lexeme.value) == 0
  {
    ScanEmitAt(sc, search);
    var u := sc.input[AnswerPos(sc, search)..];
    assert u[..search(u).value.length] == Scan(sc, search).lexeme.value;
  }

  /** A returned lexeme starts where the skipped layout ends, and the line counter has grown by the line feeds skipped. */
  lemma ScanEmitAfterLayout(sc: Scanner, search: string -> Option<Choice>)
    requires Valid(sc) && ValidSearch(search) && LayoutIgnored(search) && Scan(sc, search).Emit?
    ensures var k := AnswerPos(sc, search); var r := Scan(sc, search);
      && k < r.next.pos
      && IsLayout(sc.input[sc.pos..k])
      && r.lexeme.value == sc.input[k..r.next.pos]
      && r.next.line == sc.line + CountNewlines(sc.input[sc.pos..k])
  {
    ScanEmitAt(sc, search);
    SkippedIsLayout(sc, search);
    CountNewlinesSplit(sc.input, sc.pos, AnswerPos(sc, search));
  }

  /** A suffix cut at two positions. */
  lemma SliceThree(s: string, i: nat, j: nat, k: nat)
    requires i <= j <= k <= |s|
    ensures s[i..] == s[i..j] + s[j..k] + s[k..]
  {
  }

  /** Line feeds of skipped text followed by a lexeme without any. */
  lemma CountNewlinesLexeme(skipped: string, value: string)
    requires CountNewlines(value) == 0
    ensures CountNewlines(skipped + value) == CountNewlines(skipped)
  {
    CountNewlinesAppend(skipped, value);
  }

  /** The text a call of `token` passes over before it answers. */
  function Skipped(sc: Scanner, search: string -> Option<Choice>): string
    requires Valid(sc) && ValidSearch(search)
  {
    sc.input[sc.pos..AnswerPos(sc, search)]
  }

  /** Skipped text, the lexeme's value and the new remainder make up the old remainder. */
  lemma ScanEmitSplitsRest(sc: Scanner, search: string -> Option<Choice>)
    requires Valid(sc) && ValidSearch(search) && Scan(sc, search).Emit?
    ensures Rest(sc) == Skipped(sc, search) + Scan(sc, search).lexeme.value + Rest(Scan(sc, search).next)
  {
    ScanEmitAt(sc, search);
    SliceThree(sc.input, sc.pos, AnswerPos(sc, search), Scan(sc, search).next.pos);
  }

  /** The line counter grows by the line feeds skipped, the lexeme adding none. */
  lemma ScanEmitCountsLines(sc: Scanner, search: string -> Option<Choice>)
    requires Valid(sc) && ValidSearch(search) && TokensSingleLine(search) && Scan(sc, search).Emit?
    ensures var r := Scan(sc, search);
      && r.next.line == sc.line + CountNewlines(Skipped(sc, search))
      && r.next.line == sc.line + CountNewlines(Skipped(sc, search) + r.lexeme.value)
      && CountNewlines(r.lexeme.value) == 0
  {
    ScanEmitAt(sc, search);
    CountNewlinesSplit(sc.input, sc.pos, AnswerPos(sc, search));
    ScanEmitSingleLine(sc, search);
    CountNewlinesLexeme(Skipped(sc, search), Scan(sc, search).lexeme.value);
  }

  /**
   * Whatever the search, a returned lexeme follows skipped layout: skipped
   * text, the lexeme's value and the new remainder make up the old remainder;
   * the line counter grows by the line feeds consumed, and the lexeme holds
   * none when the search's other choices are single-line.
   */
  lemma ScanConsumes(sc: Scanner, search: string -> Option<Choice>)
    requires Valid(sc) && ValidSearch(search) && LayoutIgnored(search) && TokensSingleLine(search)
    ensures var r := Scan(sc, search); var skipped := Skipped(sc, search);
      r.Emit? ==>
        && IsLayout(skipped)
        && Rest(sc) == skipped + r.lexeme.value + Rest(r.next)
        && r.next.line == sc.line + CountNewlines(skipped)
        && r.next.line == sc.line + CountNewlines(skipped + r.lexeme.value)
        && CountNewlines(r.lexeme.value) == 0
  {
    if Scan(sc, search).Emit? {
      SkippedIsLayout(sc, search);
      ScanEmitSplitsRest(sc, search);
      ScanEmitCountsLines(sc, search);
    }
  }

  /** Whatever the search, the end of input is reported only on layout, after counting its line feeds. */
  lemma ScanExhaustedOnLayout(sc: Scanner, search: string -> Option<Choice>)
    requires Valid(sc) && ValidSearch(search) && LayoutIgnored(search)
    ensures var r := Scan(sc, search);
      r.Exhausted? ==> IsLayout(Rest(sc)) && Rest(r.next) == [] && r.next.line == sc.line + CountNewlines(Rest(sc))
  {
    var r := Scan(sc, search);
    if r.Exhausted? {
      ScanExhaustedAt(sc, search);
      SkippedIsLayout(sc, search);
      CountNewlinesSplit(sc.input, sc.pos, |sc.input|);
      assert sc.input[..|sc.input|] == sc.input;
    }
  }

  /** Whatever the search, the scanner error is raised after the skipped layout, where the search finds nothing. */
  lemma ScanFailsAfterLayout(sc: Scanner, search: string -> Option<Choice>)
    requires Valid(sc) && ValidSearch(search) && LayoutIgnored(search) && Scan(sc, search).Failed?
    ensures var k := AnswerPos(sc, search);
      && k < |sc.input|
      && IsLayout(sc.input[sc.pos..k])
      && search(sc.input[k..]).None?
      && Scan(sc, search).line == sc.line + CountNewlines(sc.input[sc.pos..k])
  {
    ScanFailedAt(sc, search);
    SkippedIsLayout(sc, search);
    CountNewlinesSplit(sc.input, sc.pos, AnswerPos(sc, search));
  }

  /** Where no blank comes first and the search chooses a token, that token is returned at once. */
  lemma ScanEmitsHere(sc: Scanner, search: string -> Option<Choice>, token: Token, n: nat)
    requires Valid(sc) && ValidSearch(search) && sc.pos < |sc.input| && !IsBlank(sc.input[sc.pos])
    requires token != Ignore && search(Rest(sc)) == Some(Choice(token, Idy, n))
    ensures sc.pos + n <= |sc.input|
    ensures Scan(sc, search) == Emit(Lexeme(token, sc.input[sc.pos..sc.pos + n]), Scanner(sc.input, sc.pos + n, sc.line))
  {
    assert SkipBlanks(sc) == sc;
    assert Scan(sc, search) == ScanAfterBlanks(sc, search);
  }

  /** Where no blank comes first and the search finds nothing, the scanner error is raised at once, at the current line. */
  lemma ScanFailsHere(sc: Scanner, search: string -> Option<Choice>)
    requires Valid(sc) && ValidSearch(search) && sc.pos < |sc.input| && !IsBlank(sc.input[sc.pos])
    requires search(sc.input[sc.pos..]).None?
    ensures Scan(sc, search) == Failed(sc.line)
  {
  }

  /** Blanks skipped from layout leave layout. */
  lemma {:induction false} SkipBlanksKeepsLayout(sc: Scanner)
    requires Valid(sc) && IsLayout(Rest(sc))
    decreases |sc.input| - sc.pos
    ensures IsLayout(Rest(SkipBlanks(sc)))
  {
    if sc.pos < |sc.input| && IsBlank(sc.input[sc.pos]) {
      DropBlank(Rest(sc));
      assert Rest(sc)[1..] == sc.input[sc.pos + 1..];
      SkipBlanksKeepsLayout(Scanner(sc.input, sc.pos + 1, if sc.input[sc.pos] == '\n' then sc.line + 1 else sc.line));
    }
  }

  /** A search that takes every comment whole, as layout. */
  ghost predicate CommentsIgnored(search: string -> Option<Choice>) {
    forall s :: |s| >= 2 && s[0] == '/' && s[1] == '/' ==> search(s) == Some(Choice(Ignore, Idy, MatchComment(s).value))
  }

  /**
   * Layout that does not start with a blank starts with a comment, which the
   * search takes whole as layout, leaving layout behind it.
   */
  lemma CommentAhead(t: Scanner, search: string -> Option<Choice>)
    requires Valid(t) && ValidSearch(search) && CommentsIgnored(search) && IsLayout(Rest(t))
    requires t.pos < |t.input| && !IsBlank(t.input[t.pos])
    ensures IgnoreAhead(t, search)
    ensures IsLayout(Rest(Resume(t, search(t.input[t.pos..]).value.length)))
  {
    var u := Rest(t);
    StartsWithComment(u);
    var n := MatchComment(u).value;
    assert search(u) == Some(Choice(Ignore, Idy, n));
    CommentMatchEndsAtLineEnd(u);
    CutAtLineEnd(u, n);
    assert u[n..] == t.input[t.pos + n..];
  }

  /** On a remainder that is only layout, a scan whose search takes comments whole reports the end of input. */
  lemma {:induction false} LayoutExhaustsScan(sc: Scanner, search: string -> Option<Choice>)
    requires Valid(sc) && ValidSearch(search) && CommentsIgnored(search) && IsLayout(Rest(sc))
    decreases |sc.input| - sc.pos
    ensures Scan(sc, search).Exhausted?
  {
    var t := SkipBlanks(sc);
    SkipBlanksKeepsLayout(sc);
    SkipBlanksSkipsRun(sc);
    if t.pos < |t.input| {
      CommentAhead(t, search);
      ScanAfterLayout(t, search);
      LayoutExhaustsScan(Resume(t, search(t.input[t.pos..]).value.length), search);
    }
  }
}
