/**
 * Where the tokens of each production split in the stream: for every
 * production, a span of its tokens is exactly a span of each of its parts,
 * laid end to end, with the keywords and punctuation between them as the
 * lookaheads at their places.
 *
 * The split positions are parameters, fixed by the lengths of the parts.
 */
module TreeSpans {
  import opened Opt
  import opened Lexemes
  import opened Streams
  import opened Syntax
  import opened Parser
  import opened TokenSpans

  /** Every statement starts with a token `_stmt_list` loops on. */
  lemma {:induction false} StmtFirst(st: Stmt)
    ensures StartsStmt(Some(StmtTokens(st)[0]))
  {
  }

  /** So a span of a statement starts at such a lookahead. */
  lemma {:induction false} StmtSpanStarts(s: Stream, p: nat, q: nat, st: Stmt)
    requires Spans(s, p, q, StmtTokens(st))
    ensures p < q && StartsStmt(Next(s, p))
  {
    SpansAt(s, p, q, StmtTokens(st), 0);
    StmtFirst(st);
  }

  lemma {:induction false} ParenSpans(s: Stream, p: nat, q: nat, e: Expr)
    ensures Spans(s, p, q, ParenTokens(e)) <==>
      p < q && Next(s, p) == Some(LPar) && Spans(s, p + 1, q - 1, ExprTokens(e)) && Next(s, q - 1) == Some(RPar)
  {
    SpansSnoc(s, p, q, [LPar] + ExprTokens(e), RPar);
    if p < q {
      SpansCons(s, p, q - 1, LPar, ExprTokens(e));
    }
  }

  lemma {:induction false} LeafSpans(s: Stream, p: nat, q: nat, a: Atom)
    ensures Spans(s, p, q, FactorTokens(Leaf(a))) <==> q == p + 1 && Next(s, p) == Some(AtomToken(a))
  {
    SpansToken(s, p, q, AtomToken(a));
  }

  lemma {:induction false} FactorsSpans(s: Stream, p: nat, m: nat, q: nat, f: Factor, fs: seq<Factor>)
    requires m == p + 1 + |FactorTokens(f)|
    ensures Spans(s, p, q, FactorsTokens([f] + fs)) <==>
      Next(s, p) == Some(Mul) && Spans(s, p + 1, m, FactorTokens(f)) && Spans(s, m, q, FactorsTokens(fs))
  {
    assert ([f] + fs)[0] == f && ([f] + fs)[1..] == fs;
    SpansCat(s, p, m, q, [Mul] + FactorTokens(f), FactorsTokens(fs));
    SpansCons(s, p, m, Mul, FactorTokens(f));
  }

  lemma {:induction false} TermSpans(s: Stream, p: nat, m: nat, q: nat, t: Term)
    requires m == p + |FactorTokens(t.first)|
    ensures Spans(s, p, q, TermTokens(t)) <==>
      Spans(s, p, m, FactorTokens(t.first)) && Spans(s, m, q, FactorsTokens(t.rest))
  {
    SpansCat(s, p, m, q, FactorTokens(t.first), FactorsTokens(t.rest));
  }

  lemma {:induction false} SummandsSpans(s: Stream, p: nat, m: nat, q: nat, sm: Summand, ss: seq<Summand>)
    requires m == p + 1 + |TermTokens(sm.term)|
    ensures Spans(s, p, q, SummandsTokens([sm] + ss)) <==>
      Next(s, p) == Some(AddToken(sm.op)) && Spans(s, p + 1, m, TermTokens(sm.term)) && Spans(s, m, q, SummandsTokens(ss))
  {
    assert ([sm] + ss)[0] == sm && ([sm] + ss)[1..] == ss;
    SpansCat(s, p, m, q, [AddToken(sm.op)] + TermTokens(sm.term), SummandsTokens(ss));
    SpansCons(s, p, m, AddToken(sm.op), TermTokens(sm.term));
  }

  lemma {:induction false} SimpleSpans(s: Stream, p: nat, m: nat, q: nat, e: SimpleExpr)
    requires m == p + |TermTokens(e.first)|
    ensures Spans(s, p, q, SimpleTokens(e)) <==>
      Spans(s, p, m, TermTokens(e.first)) && Spans(s, m, q, SummandsTokens(e.rest))
  {
    SpansCat(s, p, m, q, TermTokens(e.first), SummandsTokens(e.rest));
  }

  lemma {:induction false} PlainExprSpans(s: Stream, p: nat, q: nat, left: SimpleExpr)
    ensures Spans(s, p, q, ExprTokens(Expr(left, None))) <==> Spans(s, p, q, SimpleTokens(left))
  {
    assert ExprTokens(Expr(left, None)) == SimpleTokens(left) + [];
  }

  lemma {:induction false} ComparisonSpans(s: Stream, p: nat, m: nat, q: nat, left: SimpleExpr, c: Comparison)
    requires m == p + |SimpleTokens(left)|
    ensures Spans(s, p, q, ExprTokens(Expr(left, Some(c)))) <==>
      Spans(s, p, m, SimpleTokens(left)) && Next(s, m) == Some(RelToken(c.op)) && Spans(s, m + 1, q, SimpleTokens(c.right))
  {
    SpansCat(s, p, m, q, SimpleTokens(left), [RelToken(c.op)] + SimpleTokens(c.right));
    SpansCons(s, m, q, RelToken(c.op), SimpleTokens(c.right));
  }

  lemma {:induction false} ExprSemiSpans(s: Stream, p: nat, q: nat, e: Expr)
    ensures Spans(s, p, q, ExprSemiTokens(e)) <==>
      p < q && Spans(s, p, q - 1, ExprTokens(e)) && Next(s, q - 1) == Some(Semi)
  {
    SpansSnoc(s, p, q, ExprTokens(e), Semi);
  }

  lemma {:induction false} AssignmentSpans(s: Stream, p: nat, q: nat, a: Assignment)
    ensures Spans(s, p, q, AssignmentTokens(a)) <==>
      Next(s, p) == Some(Id) && Next(s, p + 1) == Some(Assign) && Spans(s, p + 2, q, ExprSemiTokens(a.value))
  {
    assert AssignmentTokens(a) == [Id] + ([Assign] + ExprSemiTokens(a.value));
    SpansCons(s, p, q, Id, [Assign] + ExprSemiTokens(a.value));
    SpansCons(s, p + 1, q, Assign, ExprSemiTokens(a.value));
  }

  lemma {:induction false} DeclSpans(s: Stream, p: nat, q: nat)
    ensures Spans(s, p, q, StmtTokens(DeclStmt)) <==>
      q == p + 3 && Next(s, p) == Some(Int) && Next(s, p + 1) == Some(Id) && Next(s, p + 2) == Some(Semi)
  {
    assert StmtTokens(DeclStmt) == [Int] + ([Id] + [Semi]);
    SpansCons(s, p, q, Int, [Id] + [Semi]);
    SpansCons(s, p + 1, q, Id, [Semi]);
    SpansToken(s, p + 2, q, Semi);
  }

  lemma {:induction false} IfHeadSpans(s: Stream, p: nat, q: nat, c: Expr)
    ensures Spans(s, p, q, IfHeadTokens(c)) <==> Next(s, p) == Some(If) && Spans(s, p + 1, q, ParenTokens(c))
  {
    SpansCons(s, p, q, If, ParenTokens(c));
  }

  lemma {:induction false} ElseSpans(s: Stream, p: nat, q: nat, e: Option<Stmt>)
    ensures e.None? ==> (Spans(s, p, q, ElseTokens(e)) <==> p == q <= |s.items|)
    ensures e.Some? ==> (Spans(s, p, q, ElseTokens(e)) <==> Next(s, p) == Some(Else) && Spans(s, p + 1, q, StmtTokens(e.value)))
  {
    if e.Some? {
      SpansCons(s, p, q, Else, StmtTokens(e.value));
    } else {
      SpansEmpty(s, p, q);
    }
  }

  lemma {:induction false} IfSpans(s: Stream, p: nat, m1: nat, m2: nat, q: nat, c: Expr, t: Stmt, e: Option<Stmt>)
    requires m1 == p + |IfHeadTokens(c)| && m2 == m1 + |StmtTokens(t)|
    ensures Spans(s, p, q, StmtTokens(IfStmt(c, t, e))) <==>
      Spans(s, p, m1, IfHeadTokens(c)) && Spans(s, m1, m2, StmtTokens(t)) && Spans(s, m2, q, ElseTokens(e))
  {
    SpansCat(s, p, m2, q, IfHeadTokens(c) + StmtTokens(t), ElseTokens(e));
    SpansCat(s, p, m1, m2, IfHeadTokens(c), StmtTokens(t));
  }

  lemma {:induction false} ForStepSpans(s: Stream, p: nat, q: nat, a: Assignment)
    ensures Spans(s, p, q, ForStepTokens(a)) <==>
      p < q && Spans(s, p, q - 1, AssignmentTokens(a)) && Next(s, q - 1) == Some(RPar)
  {
    SpansSnoc(s, p, q, AssignmentTokens(a), RPar);
  }

  lemma {:induction false} ForRestSpans(s: Stream, p: nat, m: nat, q: nat, c: Expr, step: Assignment)
    requires m == p + 1 + |ExprSemiTokens(c)|
    ensures Spans(s, p, q, ForRestTokens(c, step)) <==>
      Next(s, p) == Some(Semi) && Spans(s, p + 1, m, ExprSemiTokens(c)) && Spans(s, m, q, ForStepTokens(step))
  {
    SpansCat(s, p, m, q, [Semi] + ExprSemiTokens(c), ForStepTokens(step));
    SpansCons(s, p, m, Semi, ExprSemiTokens(c));
  }

  lemma {:induction false} ForHeadSpans(s: Stream, p: nat, m: nat, q: nat, init: Assignment, c: Expr, step: Assignment)
    requires m == p + 2 + |AssignmentTokens(init)|
    ensures Spans(s, p, q, ForHeadTokens(init, c, step)) <==>
      && Next(s, p) == Some(For) && Next(s, p + 1) == Some(LPar)
      && Spans(s, p + 2, m, AssignmentTokens(init)) && Spans(s, m, q, ForRestTokens(c, step))
  {
    var open := [For, LPar] + AssignmentTokens(init);
    SpansCat(s, p, m, q, open, ForRestTokens(c, step));
    assert open == [For] + ([LPar] + AssignmentTokens(init));
    SpansCons(s, p, m, For, [LPar] + AssignmentTokens(init));
    SpansCons(s, p + 1, m, LPar, AssignmentTokens(init));
  }

  lemma {:induction false} ForSpans(s: Stream, p: nat, m: nat, q: nat, init: Assignment, c: Expr, step: Assignment, b: Stmt)
    requires m == p + |ForHeadTokens(init, c, step)|
    ensures Spans(s, p, q, StmtTokens(ForStmt(init, c, step, b))) <==>
      Spans(s, p, m, ForHeadTokens(init, c, step)) && Spans(s, m, q, StmtTokens(b))
  {
    SpansCat(s, p, m, q, ForHeadTokens(init, c, step), StmtTokens(b));
  }

  lemma {:induction false} BlockSpans(s: Stream, p: nat, q: nat, sts: seq<Stmt>)
    ensures Spans(s, p, q, StmtTokens(BlockStmt(sts))) <==>
      p < q && Next(s, p) == Some(LBrace) && Spans(s, p + 1, q - 1, StmtsTokens(sts)) && Next(s, q - 1) == Some(RBrace)
  {
    SpansSnoc(s, p, q, [LBrace] + StmtsTokens(sts), RBrace);
    if p < q {
      SpansCons(s, p, q - 1, LBrace, StmtsTokens(sts));
    }
  }

  lemma {:induction false} StmtsSpans(s: Stream, p: nat, m: nat, q: nat, st: Stmt, sts: seq<Stmt>)
    requires m == p + |StmtTokens(st)|
    ensures Spans(s, p, q, StmtsTokens([st] + sts)) <==>
      Spans(s, p, m, StmtTokens(st)) && Spans(s, m, q, StmtsTokens(sts))
  {
    assert ([st] + sts)[0] == st && ([st] + sts)[1..] == sts;
    SpansCat(s, p, m, q, StmtTokens(st), StmtsTokens(sts));
  }
}
