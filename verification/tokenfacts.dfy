/**
 * The facts about one call of `token` on the source's own rule table: what it
 * consumes, which rule it follows, when it reports the end of input and when
 * it raises its error.
 */
module TokenFacts {
  import opened Opt
  import opened Chars
  import opened Lexemes
  import opened Patterns
  import opened Layout
  import opened Scanner
  import opened ScanFacts

  /**
   * Where one call of `token` stops passing over layout: the position of the
   * lexeme it returns, or of the text on which it raises its error.
   */
  function TokenStart(sc: Scanner): (k: nat)
    requires Valid(sc)
    ensures sc.pos <= k <= |sc.input|
  {
    TableSearchIsValid();
    AnswerPos(sc, TableSearch)
  }

  /** The layout one call of `token` passes over. */
  function SkippedText(sc: Scanner): string
    requires Valid(sc)
  {
    sc.input[sc.pos..TokenStart(sc)]
  }

  /** Only the two layout rules of the table carry the token `IGNORE`. */
  lemma IgnoreRules(i: nat)
    requires i < |Rules| && Rules[i].token == Ignore
    ensures Rules[i].pattern == Blanks || Rules[i].pattern == LineComment
  {
  }

  /** A layout rule of the table takes layout. */
  lemma TableLayoutChoice(s: string)
    requires TableSearch(s).Some? && TableSearch(s).value.token == Ignore
    ensures IsLayout(s[..TableSearch(s).value.length])
  {
    var h := FirstMatch(Rules, s, 0).value;
    var u := s[..h.length];
    FirstMatchMatches(Rules, s, 0);
    IgnoreRules(h.rule);
    if Rules[h.rule].pattern == Blanks {
      BlanksMatchIsMaximal(s);
      assert forall i :: 0 <= i < |u| ==> u[i] == s[i];
      BlanksAreLayout(u);
    } else {
      CommentMatchEndsAtLineEnd(s);
      assert u[0] == '/' && u[1] == '/';
      PieceIsLayout(u);
    }
  }

  /** Any other rule of the table takes text without a line feed. */
  lemma TableTokenChoice(s: string)
    requires TableSearch(s).Some? && TableSearch(s).value.token != Ignore
    ensures CountNewlines(s[..TableSearch(s).value.length]) == 0
  {
    var h := FirstMatch(Rules, s, 0).value;
    FirstMatchMatches(Rules, s, 0);
    TokenRuleIsSingleLine(h.rule);
    SingleLineMatch(Rules[h.rule].pattern, s, h.length);
    CountNewlinesZero(s[..h.length]);
  }

  lemma TableSearchIgnoresLayout()
    ensures ValidSearch(TableSearch) && LayoutIgnored(TableSearch)
  {
    TableSearchIsValid();
    forall s | TableSearch(s).Some? && TableSearch(s).value.token == Ignore
      ensures IsLayout(s[..TableSearch(s).value.length])
    {
      TableLayoutChoice(s);
    }
  }

  lemma TableSearchSingleLine()
    ensures ValidSearch(TableSearch) && TokensSingleLine(TableSearch)
  {
    TableSearchIsValid();
    forall s | TableSearch(s).Some? && TableSearch(s).value.token != Ignore
      ensures CountNewlines(s[..TableSearch(s).value.length]) == 0
    {
      TableTokenChoice(s);
    }
  }

  /**
   * One call of `token` returns the text that follows a layout prefix,
   * unchanged by `idy`: skipped layout, then the lexeme's value, then the new
   * remainder make up the old remainder; the line counter grows by the line
   * feeds consumed, and the lexeme itself holds none.
   */
  lemma NextTokenConsumes(sc: Scanner)
    requires Valid(sc)
    ensures var r := NextToken(sc); var skipped := SkippedText(sc);
      r.Emit? ==>
        && IsLayout(skipped)
        && Rest(sc) == skipped + r.lexeme.value + Rest(r.next)
        && r.next.line == sc.line + CountNewlines(skipped)
        && r.next.line == sc.line + CountNewlines(skipped + r.lexeme.value)
        && CountNewlines(r.lexeme.value) == 0
  {
    TableSearchIgnoresLayout();
    TableSearchSingleLine();
    ScanConsumes(sc, TableSearch);
  }

  /** The first rule of the table, in table order, that matches `s` carries `token` and matches `n` characters. */
  predicate FirstRuleGives(s: string, token: Token, n: nat) {
    && FirstMatch(Rules, s, 0).Some?
    && Rules[FirstMatch(Rules, s, 0).value.rule].token == token
    && FirstMatch(Rules, s, 0).value.length == n
  }

  /** A search whose every choice is what the first matching rule of the table gives. */
  ghost predicate FollowsRules(search: string -> Option<Choice>) {
    forall s {:trigger FirstRuleGives(s, search(s).value.token, search(s).value.length)} :: search(s).Some? ==> FirstRuleGives(s, search(s).value.token, search(s).value.length)
  }

  lemma FollowsRulesAt(search: string -> Option<Choice>, s: string)
    requires FollowsRules(search) && search(s).Some?
    ensures FirstRuleGives(s, search(s).value.token, search(s).value.length)
  {
  }

  /** The source's search chooses what the first matching rule gives. */
  lemma TableSearchFollowsRules()
    ensures FollowsRules(TableSearch)
  {
  }

  /**
   * Whatever search follows the table, a returned lexeme carries the token
   * of the first rule that matches where the skipped layout ends, and that
   * rule's match is the lexeme's text.
   */
  lemma ScanFollowsRules(sc: Scanner, search: string -> Option<Choice>)
    requires Valid(sc) && ValidSearch(search) && LayoutIgnored(search) && FollowsRules(search)
    ensures var r := Scan(sc, search); var k := AnswerPos(sc, search);
      r.Emit? ==>
        && sc.pos <= k < r.next.pos
        && IsLayout(sc.input[sc.pos..k])
        && FirstRuleGives(sc.input[k..], r.lexeme.token, r.next.pos - k)
        && r.lexeme.value == sc.input[k..r.next.pos]
  {
    var r := Scan(sc, search);
    if r.Emit? {
      var k := AnswerPos(sc, search);
      var s := sc.input[k..];
      ScanEmitAt(sc, search);
      SkippedIsLayout(sc, search);
      FollowsRulesAt(search, s);
      assert search(s).value.token == r.lexeme.token && search(s).value.length == r.next.pos - k;
    }
  }

  /**
   * The lexeme returned carries the token of the first rule, in table order,
   * that matches where the skipped layout ends, and that rule's match is the
   * lexeme's text.
   */
  lemma NextTokenFollowsTable(sc: Scanner)
    requires Valid(sc)
    ensures var r := NextToken(sc); var k := TokenStart(sc);
      r.Emit? ==>
        && sc.pos <= k < r.next.pos
        && IsLayout(sc.input[sc.pos..k])
        && FirstRuleGives(sc.input[k..], r.lexeme.token, r.next.pos - k)
        && r.lexeme.value == sc.input[k..r.next.pos]
  {
    TableSearchIgnoresLayout();
    TableSearchFollowsRules();
    ScanFollowsRules(sc, TableSearch);
  }

  /** `None` is returned only when nothing but layout is left, after counting its line feeds. */
  lemma ExhaustedMeansLayout(sc: Scanner)
    requires Valid(sc)
    ensures var r := NextToken(sc);
      r.Exhausted? ==> IsLayout(Rest(sc)) && Rest(r.next) == [] && r.next.line == sc.line + CountNewlines(Rest(sc))
  {
    TableSearchIgnoresLayout();
    ScanExhaustedOnLayout(sc, TableSearch);
  }

  /** No rule of the table matches at the head of `s`. */
  predicate NoRuleMatches(s: string) {
    forall i :: 0 <= i < |Rules| ==> Match(Rules[i].pattern, s).None?
  }

  /** A search that finds nothing only where no rule of the table matches. */
  ghost predicate MissesOnlyUnmatched(search: string -> Option<Choice>) {
    forall s {:trigger NoRuleMatches(s)} :: search(s).None? ==> NoRuleMatches(s)
  }

  lemma MissesOnlyUnmatchedAt(search: string -> Option<Choice>, s: string)
    requires MissesOnlyUnmatched(search) && search(s).None?
    ensures NoRuleMatches(s)
  {
  }

  /** The source's search finds nothing only where no rule matches. */
  lemma TableSearchMissesOnlyUnmatched()
    ensures MissesOnlyUnmatched(TableSearch)
  {
    forall s | TableSearch(s).None? ensures NoRuleMatches(s) {
      FirstMatchIsFirst(Rules, s, 0);
    }
  }

  /** Whatever such search, the scanner error is raised after a layout prefix, where no rule matches. */
  lemma ScanFailsWhereNoRule(sc: Scanner, search: string -> Option<Choice>)
    requires Valid(sc) && ValidSearch(search) && LayoutIgnored(search) && MissesOnlyUnmatched(search)
    ensures var r := Scan(sc, search); var k := AnswerPos(sc, search);
      r.Failed? ==>
        && sc.pos <= k < |sc.input|
        && IsLayout(sc.input[sc.pos..k])
        && NoRuleMatches(sc.input[k..])
        && r.line == sc.line + CountNewlines(sc.input[sc.pos..k])
  {
    var r := Scan(sc, search);
    if r.Failed? {
      var k := AnswerPos(sc, search);
      ScanFailsAfterLayout(sc, search);
      MissesOnlyUnmatchedAt(search, sc.input[k..]);
      assert r.line == sc.line + CountNewlines(sc.input[sc.pos..k]);
    }
  }

  /**
   * The scanner error is raised after a layout prefix, where no rule of the
   * table matches, and carries the line reached.
   */
  lemma FailedMeansNoRule(sc: Scanner)
    requires Valid(sc)
    ensures var r := NextToken(sc); var k := TokenStart(sc);
      r.Failed? ==>
        && sc.pos <= k < |sc.input|
        && IsLayout(sc.input[sc.pos..k])
        && NoRuleMatches(sc.input[k..])
        && r.line == sc.line + CountNewlines(sc.input[sc.pos..k])
  {
    TableSearchIgnoresLayout();
    TableSearchMissesOnlyUnmatched();
    ScanFailsWhereNoRule(sc, TableSearch);
  }

  /** A comment is taken by the comment rule, as layout. */
  lemma TableSearchOnComment(s: string)
    requires |s| >= 2 && s[0] == '/' && s[1] == '/'
    ensures TableSearch(s) == Some(Choice(Ignore, Idy, MatchComment(s).value))
  {
    FirstMatchPasses(Rules, s, 0);
  }

  /**
   * A comment at the cursor is dropped and `token` starts over right after it,
   * on the same line: whatever follows the comment decides the result.
   */
  lemma NextTokenSkipsComment(sc: Scanner)
    requires Valid(sc) && sc.pos + 1 < |sc.input| && sc.input[sc.pos] == '/' && sc.input[sc.pos + 1] == '/'
    ensures var n := MatchComment(Rest(sc)).value;
      && sc.pos + n <= |sc.input|
      && NextToken(sc) == NextToken(Scanner(sc.input, sc.pos + n, sc.line))
  {
    var s := Rest(sc);
    assert s[0] == '/' && s[1] == '/';
    var n := MatchComment(s).value;
    CommentKeepsLine(sc);
    TableSearchOnComment(s);
    TableSearchIsValid();
    ScanDropsLayoutHere(sc, TableSearch, n);
  }

  /** Where the search finds layout right at the cursor, the scan starts over after it. */
  lemma ScanDropsLayoutHere(sc: Scanner, search: string -> Option<Choice>, n: nat)
    requires Valid(sc) && ValidSearch(search) && sc.pos < |sc.input| && !IsBlank(sc.input[sc.pos])
    requires search(Rest(sc)) == Some(Choice(Ignore, Idy, n))
    ensures sc.pos + n <= |sc.input|
    ensures Scan(sc, search) == Scan(Resume(sc, n), search)
  {
    assert SkipBlanks(sc) == sc;
    ScanAfterLayout(sc, search);
  }

  /** Dropping a comment leaves the line counter as it was. */
  lemma CommentKeepsLine(sc: Scanner)
    requires Valid(sc) && sc.pos + 1 < |sc.input| && sc.input[sc.pos] == '/' && sc.input[sc.pos + 1] == '/'
    ensures var n := MatchComment(Rest(sc)).value;
      sc.pos + n <= |sc.input| && Resume(sc, n) == Scanner(sc.input, sc.pos + n, sc.line)
  {
    var s := Rest(sc);
    assert s[0] == '/' && s[1] == '/';
    var n := MatchComment(s).value;
    CommentMatchEndsAtLineEnd(s);
    assert sc.input[sc.pos..sc.pos + n] == s[..n];
    CountNewlinesZero(s[..n]);
  }

  /** On a remainder that is only layout, `token` returns `None`. */
  lemma LayoutExhausts(sc: Scanner)
    requires Valid(sc) && IsLayout(Rest(sc))
    ensures NextToken(sc).Exhausted?
  {
    TableSearchIsValid();
    forall s | |s| >= 2 && s[0] == '/' && s[1] == '/'
      ensures TableSearch(s) == Some(Choice(Ignore, Idy, MatchComment(s).value))
    {
      TableSearchOnComment(s);
    }
    LayoutExhaustsScan(sc, TableSearch);
  }

  /** The end of input is reported exactly when the remainder is layout. */
  lemma ExhaustedIffLayout(sc: Scanner)
    requires Valid(sc)
    ensures NextToken(sc).Exhausted? <==> IsLayout(Rest(sc))
  {
    ExhaustedMeansLayout(sc);
    if IsLayout(Rest(sc)) {
      LayoutExhausts(sc);
    }
  }

  /** A character no rule of the table can start with. */
  predicate Stray(c: char) {
    forall i :: 0 <= i < |Rules| ==> !Admits(Rules[i].pattern, c)
  }

  /** Text whose next character is stray raises the scanner error at the current line. */
  lemma StrayFails(sc: Scanner)
    requires Valid(sc) && sc.pos < |sc.input| && Stray(sc.input[sc.pos])
    ensures NextToken(sc) == Failed(sc.line)
  {
    TableSearchIsValid();
    assert !Admits(Rules[0].pattern, sc.input[sc.pos]);
    FirstMatchSkips(Rules, sc.input[sc.pos..], 0, |Rules|);
    ScanFailsHere(sc, TableSearch);
  }
}
