/**
 * How the rule table decides particular inputs: which rule wins where several
 * could, how keywords need a word boundary, how the number rule is greedy, and
 * which characters raise the scanner error.
 */
module ScanExamples {
  import opened Opt
  import opened Chars
  import opened Lexemes
  import opened Patterns
  import opened Scanner
  import opened ScanFacts
  import opened TokenFacts
  import opened LongestMatch

  /** On `=`, the table gives `EQ` for "==" and `ASSIGN` for a lone "=": the rule for "==" is tried first. */
  lemma TableSearchOnEquals(s: string)
    requires s != [] && s[0] == '='
    ensures TableSearch(s) == if |s| >= 2 && s[1] == '=' then Some(Choice(Eq, Idy, 2)) else Some(Choice(Assign, Idy, 1))
  {
    FirstMatchOnEquals(s);
    EqualsRules();
  }

  /** Where the table picks a token at the current position, `token` returns it with the text it covers. */
  lemma NextTokenWhere(sc: Scanner, token: Token, n: nat)
    requires Valid(sc) && sc.pos < |sc.input| && !IsBlank(sc.input[sc.pos]) && token != Ignore
    requires TableSearch(Rest(sc)) == Some(Choice(token, Idy, n))
    ensures sc.pos + n <= |sc.input|
    ensures NextToken(sc) == Emit(Lexeme(token, sc.input[sc.pos..sc.pos + n]), Scanner(sc.input, sc.pos + n, sc.line))
  {
    TableSearchIsValid();
    ScanEmitsHere(sc, TableSearch, token, n);
  }

  /** On `=`, one call of `token` returns "==" as `EQ`, else "=" as `ASSIGN`. */
  lemma NextTokenOnEquals(sc: Scanner)
    requires Valid(sc) && sc.pos < |sc.input| && sc.input[sc.pos] == '='
    ensures sc.pos + 1 < |sc.input| && sc.input[sc.pos + 1] == '=' ==>
      NextToken(sc) == Emit(Lexeme(Eq, sc.input[sc.pos..sc.pos + 2]), Scanner(sc.input, sc.pos + 2, sc.line))
    ensures !(sc.pos + 1 < |sc.input| && sc.input[sc.pos + 1] == '=') ==>
      NextToken(sc) == Emit(Lexeme(Assign, sc.input[sc.pos..sc.pos + 1]), Scanner(sc.input, sc.pos + 1, sc.line))
  {
    if sc.pos + 1 < |sc.input| && sc.input[sc.pos + 1] == '=' {
      assert TableSearch(Rest(sc)) == Some(Choice(Eq, Idy, 2)) by {
        TableSearchOnEquals(Rest(sc));
      }
      NextTokenWhere(sc, Eq, 2);
    } else {
      assert TableSearch(Rest(sc)) == Some(Choice(Assign, Idy, 1)) by {
        TableSearchOnEquals(Rest(sc));
      }
      NextTokenWhere(sc, Assign, 1);
    }
  }

  /**
   * On a word, the table takes the whole word (`[a-zA-Z_][a-zA-Z0-9_]*`), as
   * the keyword it spells or else as `ID`.
   */
  lemma TableSearchOnWord(s: string)
    requires s != [] && IsIdentStart(s[0])
    ensures var n := MatchIdentifier(s).value;
      TableSearch(s) == Some(Choice(Reclassify(Id, s[..n]), Idy, n))
  {
    FirstMatchOnWord(s);
    WordRuleToken(s[..MatchIdentifier(s).value]);
  }

  /** The text starts with the word `w`, and no word character follows it. */
  predicate WordAt(s: string, w: string) {
    |w| <= |s| && s[..|w|] == w && (|s| == |w| || !IsWordChar(s[|w|]))
  }

  /** A word standing alone at the head of the text is taken whole, as the keyword it spells or else as `ID`. */
  lemma TableSearchOnWholeWord(s: string, w: string)
    requires w != [] && IsIdentStart(w[0]) && (forall i :: 0 <= i < |w| ==> IsWordChar(w[i]))
    requires WordAt(s, w)
    ensures TableSearch(s) == Some(Choice(Reclassify(Id, w), Idy, |w|))
  {
    assert s[0] == w[0];
    var n := MatchIdentifier(s).value;
    IdentifierMatchIsMaximal(s);
    assert s[..n] == w;
    TableSearchOnWord(s);
  }

  lemma ReclassifyExamples()
    ensures Reclassify(Id, "for") == For && Reclassify(Id, "int") == Int
    ensures Reclassify(Id, "forward") == Id && Reclassify(Id, "int_x") == Id
  {
  }

  /** "for" and "int" are keywords, but "forward" and "int_x" are identifiers: a keyword is the whole word or nothing. */
  lemma KeywordsAreWholeWords(s: string)
    ensures WordAt(s, "for") ==> TableSearch(s) == Some(Choice(For, Idy, 3))
    ensures WordAt(s, "int") ==> TableSearch(s) == Some(Choice(Int, Idy, 3))
    ensures WordAt(s, "forward") ==> TableSearch(s) == Some(Choice(Id, Idy, 7))
    ensures WordAt(s, "int_x") ==> TableSearch(s) == Some(Choice(Id, Idy, 5))
  {
    ReclassifyExamples();
    if WordAt(s, "for") {
      TableSearchOnWholeWord(s, "for");
    }
    if WordAt(s, "int") {
      TableSearchOnWholeWord(s, "int");
    }
    if WordAt(s, "forward") {
      TableSearchOnWholeWord(s, "forward");
    }
    if WordAt(s, "int_x") {
      TableSearchOnWholeWord(s, "int_x");
    }
  }

  /** On a word standing alone, one call of `token` returns it whole, as its keyword or as `ID`. */
  lemma NextTokenOnWholeWord(sc: Scanner, w: string)
    requires Valid(sc) && w != [] && IsIdentStart(w[0]) && (forall i :: 0 <= i < |w| ==> IsWordChar(w[i]))
    requires WordAt(Rest(sc), w)
    ensures sc.pos + |w| <= |sc.input|
    ensures NextToken(sc) == Emit(Lexeme(Reclassify(Id, w), w), Scanner(sc.input, sc.pos + |w|, sc.line))
  {
    assert sc.input[sc.pos] == w[0];
    TableSearchOnWholeWord(Rest(sc), w);
    NextTokenWhere(sc, Reclassify(Id, w), |w|);
    assert sc.input[sc.pos..sc.pos + |w|] == Rest(sc)[..|w|];
  }

  lemma DigitRule(s: string)
    requires s != [] && IsDigit(s[0])
    ensures FirstMatch(Rules, s, 0) == Some(Hit(14, MatchNumber(s).value))
  {
    assert SoleRule(s[0]) == Some(14) by {
      var c := s[0];
      assert IsDigit(c);
    }
    FirstMatchOnSoleRule(s);
    assert Rules[14].pattern == Number;
  }

  /** On a digit, the table gives `NUM` with the number rule's greedy match. */
  lemma TableSearchOnDigit(s: string)
    requires s != [] && IsDigit(s[0])
    ensures TableSearch(s) == Some(Choice(Num, Idy, MatchNumber(s).value))
  {
    DigitRule(s);
    assert Rules[14] == Rule(Num, Number, Idy);
  }

  /** On a digit, one call of `token` returns the longest numeral there as `NUM`. */
  lemma NextTokenOnDigit(sc: Scanner)
    requires Valid(sc) && sc.pos < |sc.input| && IsDigit(sc.input[sc.pos])
    ensures var n := MatchNumber(Rest(sc)).value;
      && sc.pos + n <= |sc.input|
      && NextToken(sc) == Emit(Lexeme(Num, sc.input[sc.pos..sc.pos + n]), Scanner(sc.input, sc.pos + n, sc.line))
  {
    var n := MatchNumber(Rest(sc)).value;
    assert TableSearch(Rest(sc)) == Some(Choice(Num, Idy, n)) by {
      TableSearchOnDigit(Rest(sc));
    }
    NextTokenWhere(sc, Num, n);
  }

  /** "3.14" is one numeral; in "3." and "3.x" the numeral is "3", since a fraction needs a digit after the point. */
  lemma NumbersAreGreedy()
    ensures MatchNumber("3.14") == Some(4)
    ensures MatchNumber("3.") == Some(1)
    ensures MatchNumber("3.x") == Some(1)
    ensures MatchNumber("42;") == Some(2)
  {
    assert Span("3.14", IsDigit) == 1;
    assert "3.14"[2..] == "14";
    assert Span("14", IsDigit) == 2;
  }

  /** A character that is not `=`, starts no word and has no rule of its own is stray. */
  lemma NoSoleRuleIsStray(c: char)
    requires c != '=' && !IsIdentStart(c) && SoleRule(c).None?
    ensures Stray(c)
  {
    SoleRuleIsSole(c);
  }

  /** No rule starts with `.`, `!`, `&`, `"` or a carriage return. */
  lemma SomeStrayCharacters()
    ensures Stray('.') && Stray('!') && Stray('&') && Stray('"') && Stray('\r')
  {
    NoSoleRuleIsStray('\r');
    NoSoleRuleIsStray('.');
    NoSoleRuleIsStray('!');
    NoSoleRuleIsStray('&');
    NoSoleRuleIsStray('"');
  }

  /** After the numeral "3" of "3.", the point raises the scanner error at the current line. */
  lemma PointAfterNumeralFails(sc: Scanner)
    requires Valid(sc) && Rest(sc) == "3."
    ensures NextToken(sc) == Emit(Lexeme(Num, "3"), Scanner(sc.input, sc.pos + 1, sc.line))
    ensures NextToken(NextToken(sc).next) == Failed(sc.line)
  {
    assert sc.input[sc.pos] == Rest(sc)[0];
    NextTokenOnDigit(sc);
    NumbersAreGreedy();
    var t := NextToken(sc).next;
    assert t.input[t.pos] == Rest(sc)[1];
    SomeStrayCharacters();
    StrayFails(t);
  }

  /** A `/` not followed by another `/` starts no comment, and no other rule takes it. */
  lemma LoneSlashFails(sc: Scanner)
    requires Valid(sc) && sc.pos < |sc.input| && sc.input[sc.pos] == '/'
    requires sc.pos + 1 == |sc.input| || sc.input[sc.pos + 1] != '/'
    ensures NextToken(sc) == Failed(sc.line)
  {
    assert TableSearch(Rest(sc)).None? by {
      var c := Rest(sc)[0];
      assert SoleRule(c) == Some(1);
      FirstMatchOnSoleRule(Rest(sc));
    }
    TableSearchIsValid();
    ScanFailsHere(sc, TableSearch);
  }
}
