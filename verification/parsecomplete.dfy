/**
 * Completeness of the parser of parser.py: wherever the tokens of a
 * derivation stand in the stream, followed by a lookahead at which the
 * production's loops and optional parts stop, the parse function returns that
 * derivation and the position after it.
 *
 * The lemmas follow the parse functions' mutual recursion; each one splits the
 * span at the positions the parts' lengths give and chains the steps.
 */
module ParseComplete {
  import opened Opt
  import opened Lexemes
  import opened Streams
  import opened Syntax
  import opened Parser
  import opened TokenSpans
  import opened TreeSpans
  import opened ParseSteps

  /** The end of a span inside the stream can be reached when the span's own end can. */
  lemma {:induction false} InnerAt(s: Stream, m: nat, q: nat)
    requires m <= q && At(s, q)
    ensures At(s, m)
  {
  }

  lemma {:induction false} ParenComplete(s: Stream, p: nat, q: nat, e: Expr)
    requires Spans(s, p, q, ParenTokens(e)) && At(s, q)
    decreases q - p, 0
    ensures ParseParenExpr(s, p) == Ok(e, q)
  {
    ParenSpans(s, p, q, e);
    InnerAt(s, q - 1, q);
    ExprComplete(s, p + 1, q - 1, e);
    ParenUnfold(s, p, e, q - 1);
  }

  lemma {:induction false} FactorComplete(s: Stream, p: nat, q: nat, f: Factor)
    requires Spans(s, p, q, FactorTokens(f)) && At(s, q)
    decreases q - p, 1
    ensures ParseFactor(s, p) == Ok(f, q)
  {
    match f
    case Paren(e) =>
      ParenSpans(s, p, q, e);
      ParenComplete(s, p, q, e);
    case Leaf(a) =>
      LeafSpans(s, p, q, a);
      MatchOk(s, p, AtomToken(a));
  }

  lemma {:induction false} FactorsComplete(s: Stream, p: nat, q: nat, fs: seq<Factor>)
    requires Spans(s, p, q, FactorsTokens(fs)) && At(s, q) && Next(s, q) != Some(Mul)
    decreases q - p, 1
    ensures ParseFactors(s, p) == Ok(fs, q)
  {
    if fs == [] {
      SpansEmpty(s, p, q);
    } else {
      var f, rest := fs[0], fs[1..];
      HeadTail(fs);
      var m := p + 1 + |FactorTokens(f)|;
      FactorsSpans(s, p, m, q, f, rest);
      InnerAt(s, m, q);
      FactorComplete(s, p + 1, m, f);
      FactorsComplete(s, m, q, rest);
      FactorsUnfold(s, p, f, rest, m, q);
    }
  }

  lemma {:induction false} TermComplete(s: Stream, p: nat, q: nat, t: Term)
    requires Spans(s, p, q, TermTokens(t)) && At(s, q) && Next(s, q) != Some(Mul)
    decreases q - p, 2
    ensures ParseTerm(s, p) == Ok(t, q)
  {
    var m := p + |FactorTokens(t.first)|;
    TermSpans(s, p, m, q, t);
    InnerAt(s, m, q);
    FactorComplete(s, p, m, t.first);
    FactorsComplete(s, m, q, t.rest);
    TermUnfold(s, p, t.first, t.rest, m, q);
  }

  /** What completeness needs of a non-empty `PLUS`/`MINUS` loop's first summand and of the rest. */
  lemma {:induction false} SummandsStep(s: Stream, p: nat, m: nat, q: nat, sm: Summand, rest: seq<Summand>)
    requires Spans(s, p, q, SummandsTokens([sm] + rest)) && At(s, q) && Next(s, q) != Some(Mul)
    requires m == p + 1 + |TermTokens(sm.term)|
    ensures p < m <= q && At(s, m) && Next(s, p) == Some(AddToken(sm.op))
    ensures Spans(s, p + 1, m, TermTokens(sm.term)) && Next(s, m) != Some(Mul)
    ensures Spans(s, m, q, SummandsTokens(rest))
  {
    SummandsSpans(s, p, m, q, sm, rest);
    if rest != [] {
      SummandsFirst(rest);
      SpansAt(s, m, q, SummandsTokens(rest), 0);
    } else {
      SpansEmpty(s, m, q);
    }
  }

  lemma {:induction false} SummandsComplete(s: Stream, p: nat, q: nat, ss: seq<Summand>)
    requires Spans(s, p, q, SummandsTokens(ss)) && At(s, q)
    requires Next(s, q) != Some(Plus) && Next(s, q) != Some(Minus)
    requires ss != [] ==> Next(s, q) != Some(Mul)
    decreases q - p, 2
    ensures ParseSummands(s, p) == Ok(ss, q)
  {
    if ss == [] {
      SpansEmpty(s, p, q);
    } else {
      HeadTail(ss);
      var m := p + 1 + |TermTokens(ss[0].term)|;
      SummandsStep(s, p, m, q, ss[0], ss[1..]);
      TermComplete(s, p + 1, m, ss[0].term);
      SummandsComplete(s, m, q, ss[1..]);
      SummandsUnfold(s, p, ss[0], ss[1..], m, q);
    }
  }

  lemma {:induction false} SimpleComplete(s: Stream, p: nat, q: nat, e: SimpleExpr)
    requires Spans(s, p, q, SimpleTokens(e)) && At(s, q)
    requires Next(s, q) !in {Some(Mul), Some(Plus), Some(Minus)}
    decreases q - p, 3
    ensures ParseSimple(s, p) == Ok(e, q)
  {
    var m := p + |TermTokens(e.first)|;
    SimpleSpans(s, p, m, q, e);
    InnerAt(s, m, q);
    if e.rest != [] {
      SummandsFirst(e.rest);
      SpansAt(s, m, q, SummandsTokens(e.rest), 0);
    } else {
      SpansEmpty(s, m, q);
    }
    TermComplete(s, p, m, e.first);
    SummandsComplete(s, m, q, e.rest);
    SimpleUnfold(s, p, e.first, e.rest, m, q);
  }

  lemma {:induction false} ExprComplete(s: Stream, p: nat, q: nat, e: Expr)
    requires Spans(s, p, q, ExprTokens(e)) && At(s, q)
    requires Next(s, q) !in {Some(Mul), Some(Plus), Some(Minus)}
    requires e.comparison.None? ==> Next(s, q) !in {Some(Eq), Some(Lt)}
    decreases q - p, 4
    ensures ParseExpr(s, p) == Ok(e, q)
  {
    match e.comparison
    case None =>
      PlainExprSpans(s, p, q, e.left);
      SimpleComplete(s, p, q, e.left);
      PlainExprUnfold(s, p, e.left, q);
    case Some(c) =>
      var m := p + |SimpleTokens(e.left)|;
      ComparisonSpans(s, p, m, q, e.left, c);
      InnerAt(s, m + 1, q);
      SimpleComplete(s, p, m, e.left);
      SimpleComplete(s, m + 1, q, c.right);
      ExprUnfold(s, p, e.left, c, m, q);
  }

  lemma {:induction false} ExprSemiComplete(s: Stream, p: nat, q: nat, e: Expr)
    requires Spans(s, p, q, ExprSemiTokens(e)) && At(s, q)
    decreases q - p, 5
    ensures ParseExprSemi(s, p) == Ok(e, q)
  {
    ExprSemiSpans(s, p, q, e);
    InnerAt(s, q - 1, q);
    ExprComplete(s, p, q - 1, e);
    ExprSemiUnfold(s, p, e, q - 1);
  }

  lemma {:induction false} AssignmentComplete(s: Stream, p: nat, q: nat, a: Assignment)
    requires Spans(s, p, q, AssignmentTokens(a)) && At(s, q)
    decreases q - p, 5
    ensures ParseAssignment(s, p) == Ok(a, q)
  {
    AssignmentSpans(s, p, q, a);
    InnerAt(s, p + 2, q);
    ExprSemiComplete(s, p + 2, q, a.value);
    AssignmentUnfold(s, p, a.value, q);
  }

  lemma {:induction false} DeclComplete(s: Stream, p: nat, q: nat)
    requires Spans(s, p, q, StmtTokens(DeclStmt)) && At(s, q)
    ensures ParseDecl(s, p) == Ok(DeclStmt, q)
  {
    DeclSpans(s, p, q);
    MatchOk(s, p, Int);
    MatchOk(s, p + 1, Id);
    MatchOk(s, p + 2, Semi);
  }

  lemma {:induction false} IfHeadComplete(s: Stream, p: nat, q: nat, c: Expr)
    requires Spans(s, p, q, IfHeadTokens(c)) && At(s, q)
    decreases q - p, 6
    ensures ParseIfHead(s, p) == Ok(c, q)
  {
    IfHeadSpans(s, p, q, c);
    InnerAt(s, p + 1, q);
    ParenComplete(s, p + 1, q, c);
    IfHeadUnfold(s, p, c, q);
  }

  lemma {:induction false} ElseComplete(s: Stream, p: nat, q: nat, e: Option<Stmt>)
    requires Spans(s, p, q, ElseTokens(e)) && At(s, q)
    requires e.None? ==> Next(s, p) != Some(Else)
    requires e.Some? ==> Fits(e.value) && (OpenIf(e.value) ==> Next(s, q) != Some(Else))
    decreases q - p, 6
    ensures ParseElse(s, p) == Ok(e, q)
  {
    ElseSpans(s, p, q, e);
    if e.Some? {
      InnerAt(s, p + 1, q);
      StmtComplete(s, p + 1, q, e.value);
      ElseUnfold(s, p, e.value, q);
    } else {
      PlainElseUnfold(s, p);
    }
  }

  lemma {:induction false} IfComplete(s: Stream, p: nat, q: nat, c: Expr, t: Stmt, e: Option<Stmt>)
    requires Spans(s, p, q, StmtTokens(IfStmt(c, t, e))) && At(s, q)
    requires Fits(IfStmt(c, t, e)) && (OpenIf(IfStmt(c, t, e)) ==> Next(s, q) != Some(Else))
    decreases q - p, 7
    ensures ParseIf(s, p) == Ok(IfStmt(c, t, e), q)
  {
    var m1 := p + |IfHeadTokens(c)|;
    var m2 := m1 + |StmtTokens(t)|;
    IfSpans(s, p, m1, m2, q, c, t, e);
    ElseSpans(s, m2, q, e);
    InnerAt(s, m2, q);
    InnerAt(s, m1, q);
    IfHeadComplete(s, p, m1, c);
    StmtComplete(s, m1, m2, t);
    ElseComplete(s, m2, q, e);
    IfUnfold(s, p, c, t, e, m1, m2, q);
  }

  lemma {:induction false} ForStepComplete(s: Stream, p: nat, q: nat, a: Assignment)
    requires Spans(s, p, q, ForStepTokens(a)) && At(s, q)
    decreases q - p, 6
    ensures ParseForStep(s, p) == Ok(a, q)
  {
    ForStepSpans(s, p, q, a);
    InnerAt(s, q - 1, q);
    AssignmentComplete(s, p, q - 1, a);
    ForStepUnfold(s, p, a, q - 1);
  }

  lemma {:induction false} ForRestComplete(s: Stream, p: nat, q: nat, c: Expr, step: Assignment)
    requires Spans(s, p, q, ForRestTokens(c, step)) && At(s, q)
    decreases q - p, 7
    ensures ParseForRest(s, p) == Ok((c, step), q)
  {
    var m := p + 1 + |ExprSemiTokens(c)|;
    ForRestSpans(s, p, m, q, c, step);
    InnerAt(s, m, q);
    ExprSemiComplete(s, p + 1, m, c);
    ForStepComplete(s, m, q, step);
    ForRestUnfold(s, p, c, step, m, q);
  }

  lemma {:induction false} ForHeadComplete(s: Stream, p: nat, q: nat, init: Assignment, c: Expr, step: Assignment)
    requires Spans(s, p, q, ForHeadTokens(init, c, step)) && At(s, q)
    decreases q - p, 8
    ensures ParseForHead(s, p) == Ok((init, c, step), q)
  {
    var m := p + 2 + |AssignmentTokens(init)|;
    ForHeadSpans(s, p, m, q, init, c, step);
    InnerAt(s, m, q);
    AssignmentComplete(s, p + 2, m, init);
    ForRestComplete(s, m, q, c, step);
    ForHeadUnfold(s, p, init, c, step, m, q);
  }

  lemma {:induction false} ForComplete(s: Stream, p: nat, q: nat, init: Assignment, c: Expr, step: Assignment, b: Stmt)
    requires Spans(s, p, q, StmtTokens(ForStmt(init, c, step, b))) && At(s, q)
    requires Fits(b) && (OpenIf(b) ==> Next(s, q) != Some(Else))
    decreases q - p, 9
    ensures ParseFor(s, p) == Ok(ForStmt(init, c, step, b), q)
  {
    var m := p + |ForHeadTokens(init, c, step)|;
    ForSpans(s, p, m, q, init, c, step, b);
    InnerAt(s, m, q);
    ForHeadComplete(s, p, m, init, c, step);
    StmtComplete(s, m, q, b);
    ForUnfold(s, p, init, c, step, b, m, q);
  }

  /** What completeness needs of the statement list inside a block. */
  lemma {:induction false} BlockStep(s: Stream, p: nat, q: nat, sts: seq<Stmt>)
    requires Spans(s, p, q, StmtTokens(BlockStmt(sts))) && At(s, q) && AllFit(sts)
    ensures p + 1 < q && At(s, q - 1) && Next(s, p) == Some(LBrace) && Next(s, q - 1) == Some(RBrace)
    ensures Spans(s, p + 1, q - 1, StmtsTokens(sts)) && EndsStmts(sts, Next(s, q - 1))
  {
    BlockSpans(s, p, q, sts);
  }

  lemma {:induction false} BlockComplete(s: Stream, p: nat, q: nat, sts: seq<Stmt>)
    requires Spans(s, p, q, StmtTokens(BlockStmt(sts))) && At(s, q) && AllFit(sts)
    decreases q - p, 8
    ensures ParseBlock(s, p) == Ok(BlockStmt(sts), q)
  {
    BlockStep(s, p, q, sts);
    StmtListComplete(s, p + 1, q - 1, sts);
    BlockUnfold(s, p, sts, q - 1);
  }

  lemma {:induction false} StmtComplete(s: Stream, p: nat, q: nat, st: Stmt)
    requires Spans(s, p, q, StmtTokens(st)) && At(s, q)
    requires Fits(st) && (OpenIf(st) ==> Next(s, q) != Some(Else))
    decreases q - p, 10
    ensures ParseStmt(s, p) == Ok(st, q)
  {
    SpansAt(s, p, q, StmtTokens(st), 0);
    match st
    case DeclStmt =>
      DeclComplete(s, p, q);
      StmtUnfold(s, p);
    case AssignStmt(a) =>
      AssignmentComplete(s, p, q, a);
      StmtUnfold(s, p);
    case IfStmt(c, t, e) =>
      IfComplete(s, p, q, c, t, e);
      StmtUnfold(s, p);
    case ForStmt(init, c, step, b) =>
      ForComplete(s, p, q, init, c, step, b);
      StmtUnfold(s, p);
    case BlockStmt(sts) =>
      BlockComplete(s, p, q, sts);
      StmtUnfold(s, p);
  }

  /** A well-ended statement list, past its first statement, is still well ended. */
  lemma {:induction false} AllFitCons(st: Stmt, sts: seq<Stmt>, next: Option<Token>)
    requires AllFit([st] + sts) && EndsStmts([st] + sts, next)
    ensures Fits(st) && AllFit(sts) && EndsStmts(sts, next)
    ensures sts == [] && OpenIf(st) ==> next != Some(Else)
  {
    var all := [st] + sts;
    assert all[0] == st && all[1..] == sts;
    if sts != [] {
      assert sts[|sts| - 1] == all[|all| - 1];
    }
  }

  /** What completeness needs of a statement list's first statement and of the rest. */
  lemma {:induction false} StmtsStep(s: Stream, p: nat, m: nat, q: nat, st: Stmt, rest: seq<Stmt>)
    requires Spans(s, p, q, StmtsTokens([st] + rest)) && At(s, q)
    requires AllFit([st] + rest) && EndsStmts([st] + rest, Next(s, q))
    requires m == p + |StmtTokens(st)|
    ensures p < m <= q && At(s, m) && StartsStmt(Next(s, p))
    ensures Spans(s, p, m, StmtTokens(st)) && Fits(st) && (OpenIf(st) ==> Next(s, m) != Some(Else))
    ensures Spans(s, m, q, StmtsTokens(rest)) && AllFit(rest) && EndsStmts(rest, Next(s, q))
  {
    StmtsSpans(s, p, m, q, st, rest);
    AllFitCons(st, rest, Next(s, q));
    StmtSpanStarts(s, p, m, st);
    if rest != [] {
      StmtsFirst(rest);
      SpansAt(s, m, q, StmtsTokens(rest), 0);
      StmtFirst(rest[0]);
    } else {
      SpansEmpty(s, m, q);
    }
  }

  lemma {:induction false} StmtListComplete(s: Stream, p: nat, q: nat, sts: seq<Stmt>)
    requires Spans(s, p, q, StmtsTokens(sts)) && At(s, q)
    requires AllFit(sts) && EndsStmts(sts, Next(s, q))
    decreases q - p, 12
    ensures ParseStmtList(s, p) == Ok(sts, q)
  {
    if sts == [] {
      SpansEmpty(s, p, q);
      StmtListEndUnfold(s, p);
    } else {
      HeadTail(sts);
      var m := p + |StmtTokens(sts[0])|;
      StmtsStep(s, p, m, q, sts[0], sts[1..]);
      StmtListConsComplete(s, p, m, q, sts[0], sts[1..]);
    }
  }

  lemma {:induction false} StmtListConsComplete(s: Stream, p: nat, m: nat, q: nat, st: Stmt, rest: seq<Stmt>)
    requires p < m <= q && At(s, m) && At(s, q) && StartsStmt(Next(s, p))
    requires Spans(s, p, m, StmtTokens(st)) && Fits(st) && (OpenIf(st) ==> Next(s, m) != Some(Else))
    requires Spans(s, m, q, StmtsTokens(rest)) && AllFit(rest) && EndsStmts(rest, Next(s, q))
    decreases q - p, 11
    ensures ParseStmtList(s, p) == Ok([st] + rest, q)
  {
    StmtComplete(s, p, m, st);
    StmtListComplete(s, m, q, rest);
    StmtListUnfold(s, p, st, rest, m, q);
  }
}
