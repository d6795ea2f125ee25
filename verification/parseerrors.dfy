/**
 * How the parser of parser.py fails: which error each kind of unexpected
 * lookahead produces, with the line, the lexeme and the expected tokens it
 * reports.
 */
module ParseErrors {
  import opened Opt
  import opened Lexemes
  import opened Streams
  import opened Syntax
  import opened Parser
  import opened ParseSteps

  /**
   * `_match` reports a wrong lookahead at its own line with `[expected]`, the
   * end of input as `Lexeme(ID, "EOF")` at the end line, and a scanner error
   * right after the matched lexeme as a lexical error; nothing else fails.
   */
  lemma {:induction false} MatchFails(s: Stream, p: nat, t: Token)
    requires At(s, p)
    ensures p < |s.items| && s.items[p].lexeme.token != t ==>
      Match(s, p, t) == Fail(SyntaxError(s.items[p].line, s.items[p].lexeme, [t]))
    ensures p == |s.items| ==> Match(s, p, t) == Fail(SyntaxError(s.end.line, Lexeme(Id, "EOF"), [t]))
    ensures Match(s, p, t).Fail? && Match(s, p, t).error.LexicalError? ==>
      p + 1 == |s.items| && s.items[p].lexeme.token == t && s.end.AtError? && Match(s, p, t).error.line == s.end.line
  {
  }

  /**
   * `_stmt` at the end of input reads a token off a missing lookahead; on a
   * lookahead no statement starts with it reports the five tokens that can.
   */
  lemma {:induction false} StmtFails(s: Stream, p: nat)
    requires At(s, p)
    ensures p == |s.items| ==> ParseStmt(s, p) == Fail(NoLookahead)
    ensures p < |s.items| && !StartsStmt(Next(s, p)) ==>
      ParseStmt(s, p) == Fail(SyntaxError(s.items[p].line, s.items[p].lexeme, [Int, Id, If, For, LBrace]))
  {
  }

  /** `_factor` likewise, with the three tokens a factor can start with. */
  lemma {:induction false} FactorFails(s: Stream, p: nat)
    requires At(s, p)
    ensures p == |s.items| ==> ParseFactor(s, p) == Fail(NoLookahead)
    ensures p < |s.items| && s.items[p].lexeme.token !in {Num, Id, LPar} ==>
      ParseFactor(s, p) == Fail(SyntaxError(s.items[p].line, s.items[p].lexeme, [Num, Id, LPar]))
  {
  }

  /** `_stmt_list` stops without reading anything exactly when the lookahead cannot start a statement. */
  lemma {:induction false} StmtListStops(s: Stream, p: nat)
    requires At(s, p)
    ensures ParseStmtList(s, p) == Ok([], p) <==> !StartsStmt(Next(s, p))
  {
    if StartsStmt(Next(s, p)) {
      assert ParseStmtList(s, p).Ok? ==> ParseStmtList(s, p).tree != [];
    }
  }

  /** After `INT ID`, anything but `;` is reported with `[SEMI]`: "int x x;" is rejected at the second `x`. */
  lemma {:induction false} DeclExpectsSemi(s: Stream, p: nat)
    requires p + 2 < |s.items|
    requires Next(s, p) == Some(Int) && Next(s, p + 1) == Some(Id) && Next(s, p + 2) != Some(Semi)
    ensures ParseDecl(s, p) == Fail(SyntaxError(s.items[p + 2].line, s.items[p + 2].lexeme, [Semi]))
  {
    MatchOk(s, p, Int);
    MatchOk(s, p + 1, Id);
  }

  /**
   * An expression holds at most one `==` or `<`: after a comparison, a second
   * relational operator is where `expr ;` fails, expecting `;`.
   */
  lemma {:induction false} ChainedComparisonFails(s: Stream, p: nat, q: nat, e: Expr)
    requires At(s, p) && ParseExpr(s, p) == Ok(e, q)
    requires q < |s.items| && s.items[q].lexeme.token in {Eq, Lt}
    ensures e.comparison.Some?
    ensures ParseExprSemi(s, p) == Fail(SyntaxError(s.items[q].line, s.items[q].lexeme, [Semi]))
  {
  }

  /**
   * The first `assign` of a `for` header ends in its own `;` and another `;`
   * must follow: the C form `for (i = 0; i < n; ...)` fails at the condition,
   * expecting `;`.
   */
  lemma {:induction false} ForNeedsDoubleSemi(s: Stream, p: nat, m: nat, init: Assignment)
    requires Next(s, p) == Some(For) && Next(s, p + 1) == Some(LPar)
    requires At(s, p + 2) && ParseAssignment(s, p + 2) == Ok(init, m)
    requires m < |s.items| && s.items[m].lexeme.token != Semi
    ensures ParseFor(s, p) == Fail(SyntaxError(s.items[m].line, s.items[m].lexeme, [Semi]))
  {
    MatchOk(s, p, For);
    MatchOk(s, p + 1, LPar);
    assert ParseForRest(s, m) == Fail(SyntaxError(s.items[m].line, s.items[m].lexeme, [Semi]));
    assert ParseForHead(s, p) == Fail(SyntaxError(s.items[m].line, s.items[m].lexeme, [Semi]));
  }
}
