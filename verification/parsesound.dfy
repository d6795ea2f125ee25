/**
 * Soundness of the parser of parser.py: whatever a parse function accepts,
 * the lexemes it moved over carry exactly the tokens of the derivation it
 * returns.
 *
 * The lemmas follow the parse functions' mutual recursion with the same
 * measure; each one takes the results of the calls the function made, proves
 * their spans, and joins them.
 */
module ParseSound {
  import opened Opt
  import opened Lexemes
  import opened Streams
  import opened Syntax
  import opened Parser
  import opened TokenSpans
  import opened TreeSpans
  import opened ParseSteps

  lemma {:induction false} ParenSound(s: Stream, p: nat, q: nat, e: Expr)
    requires At(s, p) && ParseParenExpr(s, p) == Ok(e, q)
    decreases |s.items| - p, 0
    ensures Spans(s, p, q, ParenTokens(e))
  {
    var m := ParseExpr(s, p + 1).pos;
    ExprSound(s, p + 1, m, e);
    ParenSpans(s, p, q, e);
  }

  lemma {:induction false} FactorSound(s: Stream, p: nat, q: nat, f: Factor)
    requires At(s, p) && ParseFactor(s, p) == Ok(f, q)
    decreases |s.items| - p, 1
    ensures Spans(s, p, q, FactorTokens(f))
  {
    if Next(s, p) == Some(LPar) {
      ParenSound(s, p, q, f.inner);
    } else {
      LeafSpans(s, p, q, f.atom);
    }
  }

  lemma {:induction false} FactorsSound(s: Stream, p: nat, q: nat, fs: seq<Factor>)
    requires At(s, p) && ParseFactors(s, p) == Ok(fs, q)
    decreases |s.items| - p, 1
    ensures Spans(s, p, q, FactorsTokens(fs))
  {
    if Next(s, p) == Some(Mul) {
      FactorsInvert(s, p, q, fs);
      var first := ParseFactor(s, p + 1);
      var rest := ParseFactors(s, first.pos);
      FactorSound(s, p + 1, first.pos, first.tree);
      SpansLength(s, p + 1, first.pos, FactorTokens(first.tree));
      FactorsSound(s, first.pos, q, rest.tree);
      FactorsSpans(s, p, first.pos, q, first.tree, rest.tree);
    } else {
      SpansEmpty(s, p, q);
    }
  }

  lemma {:induction false} TermSound(s: Stream, p: nat, q: nat, t: Term)
    requires At(s, p) && ParseTerm(s, p) == Ok(t, q)
    decreases |s.items| - p, 2
    ensures Spans(s, p, q, TermTokens(t))
  {
    var m := ParseFactor(s, p).pos;
    FactorSound(s, p, m, t.first);
    SpansLength(s, p, m, FactorTokens(t.first));
    FactorsSound(s, m, q, t.rest);
    TermSpans(s, p, m, q, t);
  }

  lemma {:induction false} SummandsSound(s: Stream, p: nat, q: nat, ss: seq<Summand>)
    requires At(s, p) && ParseSummands(s, p) == Ok(ss, q)
    decreases |s.items| - p, 2
    ensures Spans(s, p, q, SummandsTokens(ss))
  {
    if Next(s, p) == Some(Plus) || Next(s, p) == Some(Minus) {
      var op := if Next(s, p) == Some(Plus) then AddPlus else AddMinus;
      var t := ParseTerm(s, p + 1);
      var rest := ParseSummands(s, t.pos);
      TermSound(s, p + 1, t.pos, t.tree);
      SpansLength(s, p + 1, t.pos, TermTokens(t.tree));
      SummandsSound(s, t.pos, q, rest.tree);
      SummandsSpans(s, p, t.pos, q, Summand(op, t.tree), rest.tree);
    } else {
      SpansEmpty(s, p, q);
    }
  }

  lemma {:induction false} SimpleSound(s: Stream, p: nat, q: nat, e: SimpleExpr)
    requires At(s, p) && ParseSimple(s, p) == Ok(e, q)
    decreases |s.items| - p, 3
    ensures Spans(s, p, q, SimpleTokens(e))
  {
    var m := ParseTerm(s, p).pos;
    TermSound(s, p, m, e.first);
    SpansLength(s, p, m, TermTokens(e.first));
    SummandsSound(s, m, q, e.rest);
    SimpleSpans(s, p, m, q, e);
  }

  lemma {:induction false} ExprSound(s: Stream, p: nat, q: nat, e: Expr)
    requires At(s, p) && ParseExpr(s, p) == Ok(e, q)
    decreases |s.items| - p, 4
    ensures Spans(s, p, q, ExprTokens(e))
  {
    var m := ParseSimple(s, p).pos;
    SimpleSound(s, p, m, e.left);
    SpansLength(s, p, m, SimpleTokens(e.left));
    match e.comparison
    case None =>
      PlainExprSpans(s, p, q, e.left);
    case Some(c) =>
      SimpleSound(s, m + 1, q, c.right);
      ComparisonSpans(s, p, m, q, e.left, c);
  }

  lemma {:induction false} ExprSemiSound(s: Stream, p: nat, q: nat, e: Expr)
    requires At(s, p) && ParseExprSemi(s, p) == Ok(e, q)
    decreases |s.items| - p, 5
    ensures Spans(s, p, q, ExprSemiTokens(e))
  {
    ExprSound(s, p, q - 1, e);
    ExprSemiSpans(s, p, q, e);
  }

  lemma {:induction false} AssignmentSound(s: Stream, p: nat, q: nat, a: Assignment)
    requires At(s, p) && ParseAssignment(s, p) == Ok(a, q)
    decreases |s.items| - p, 5
    ensures Spans(s, p, q, AssignmentTokens(a))
  {
    ExprSemiSound(s, p + 2, q, a.value);
    AssignmentSpans(s, p, q, a);
  }

  lemma {:induction false} DeclSound(s: Stream, p: nat, q: nat, st: Stmt)
    requires At(s, p) && ParseDecl(s, p) == Ok(st, q)
    ensures Spans(s, p, q, StmtTokens(st))
  {
    DeclSpans(s, p, q);
  }

  lemma {:induction false} IfHeadSound(s: Stream, p: nat, q: nat, c: Expr)
    requires At(s, p) && ParseIfHead(s, p) == Ok(c, q)
    decreases |s.items| - p, 6
    ensures Spans(s, p, q, IfHeadTokens(c))
  {
    ParenSound(s, p + 1, q, c);
    IfHeadSpans(s, p, q, c);
  }

  lemma {:induction false} ElseSound(s: Stream, p: nat, q: nat, e: Option<Stmt>)
    requires At(s, p) && ParseElse(s, p) == Ok(e, q)
    decreases |s.items| - p, 6
    ensures Spans(s, p, q, ElseTokens(e))
  {
    ElseSpans(s, p, q, e);
    if Next(s, p) == Some(Else) {
      StmtSound(s, p + 1, q, e.value);
    }
  }

  lemma {:induction false} IfSound(s: Stream, p: nat, q: nat, st: Stmt)
    requires At(s, p) && ParseIf(s, p) == Ok(st, q)
    decreases |s.items| - p, 7
    ensures Spans(s, p, q, StmtTokens(st))
  {
    var m1 := ParseIfHead(s, p).pos;
    var m2 := ParseStmt(s, m1).pos;
    IfHeadSound(s, p, m1, st.cond);
    SpansLength(s, p, m1, IfHeadTokens(st.cond));
    StmtSound(s, m1, m2, st.thenBranch);
    SpansLength(s, m1, m2, StmtTokens(st.thenBranch));
    ElseSound(s, m2, q, st.elseBranch);
    IfSpans(s, p, m1, m2, q, st.cond, st.thenBranch, st.elseBranch);
  }

  lemma {:induction false} ForStepSound(s: Stream, p: nat, q: nat, a: Assignment)
    requires At(s, p) && ParseForStep(s, p) == Ok(a, q)
    decreases |s.items| - p, 6
    ensures Spans(s, p, q, ForStepTokens(a))
  {
    AssignmentSound(s, p, q - 1, a);
    ForStepSpans(s, p, q, a);
  }

  lemma {:induction false} ForRestSound(s: Stream, p: nat, q: nat, c: Expr, step: Assignment)
    requires At(s, p) && ParseForRest(s, p) == Ok((c, step), q)
    decreases |s.items| - p, 7
    ensures Spans(s, p, q, ForRestTokens(c, step))
  {
    var m := ParseExprSemi(s, p + 1).pos;
    ExprSemiSound(s, p + 1, m, c);
    SpansLength(s, p + 1, m, ExprSemiTokens(c));
    ForStepSound(s, m, q, step);
    ForRestSpans(s, p, m, q, c, step);
  }

  lemma {:induction false} ForHeadSound(s: Stream, p: nat, q: nat, init: Assignment, c: Expr, step: Assignment)
    requires At(s, p) && ParseForHead(s, p) == Ok((init, c, step), q)
    decreases |s.items| - p, 8
    ensures Spans(s, p, q, ForHeadTokens(init, c, step))
  {
    var m := ParseAssignment(s, p + 2).pos;
    AssignmentSound(s, p + 2, m, init);
    SpansLength(s, p + 2, m, AssignmentTokens(init));
    ForRestSound(s, m, q, c, step);
    ForHeadSpans(s, p, m, q, init, c, step);
  }

  lemma {:induction false} ForSound(s: Stream, p: nat, q: nat, st: Stmt)
    requires At(s, p) && ParseFor(s, p) == Ok(st, q)
    decreases |s.items| - p, 9
    ensures Spans(s, p, q, StmtTokens(st))
  {
    ForInvert(s, p, q, st);
    var m := ParseForHead(s, p).pos;
    ForHeadSound(s, p, m, st.init, st.cond, st.step);
    SpansLength(s, p, m, ForHeadTokens(st.init, st.cond, st.step));
    StmtSound(s, m, q, st.body);
    ForSpans(s, p, m, q, st.init, st.cond, st.step, st.body);
  }

  lemma {:induction false} BlockSound(s: Stream, p: nat, q: nat, st: Stmt)
    requires At(s, p) && ParseBlock(s, p) == Ok(st, q)
    decreases |s.items| - p, 8
    ensures Spans(s, p, q, StmtTokens(st))
  {
    BlockInvert(s, p, q, st);
    StmtListSound(s, p + 1, q - 1, st.stmts);
    BlockSpans(s, p, q, st.stmts);
  }

  lemma {:induction false} StmtSound(s: Stream, p: nat, q: nat, st: Stmt)
    requires At(s, p) && ParseStmt(s, p) == Ok(st, q)
    decreases |s.items| - p, 10
    ensures Spans(s, p, q, StmtTokens(st))
  {
    var t := Next(s, p).value;
    if t == Int {
      DeclSound(s, p, q, st);
    } else if t == Id {
      AssignmentSound(s, p, q, st.assignment);
    } else if t == If {
      IfSound(s, p, q, st);
    } else if t == For {
      ForSound(s, p, q, st);
    } else {
      BlockSound(s, p, q, st);
    }
  }

  lemma {:induction false} StmtListSound(s: Stream, p: nat, q: nat, sts: seq<Stmt>)
    requires At(s, p) && ParseStmtList(s, p) == Ok(sts, q)
    decreases |s.items| - p, 11
    ensures Spans(s, p, q, StmtsTokens(sts))
  {
    if StartsStmt(Next(s, p)) {
      var first := ParseStmt(s, p);
      var rest := ParseStmtList(s, first.pos);
      StmtSound(s, p, first.pos, first.tree);
      SpansLength(s, p, first.pos, StmtTokens(first.tree));
      StmtListSound(s, first.pos, q, rest.tree);
      StmtsSpans(s, p, first.pos, q, first.tree, rest.tree);
    } else {
      SpansEmpty(s, p, q);
    }
  }
}
