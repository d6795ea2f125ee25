/**
 * One step of each parse function of parser.py: given what the calls it
 * makes return, what it returns. These are the equations the completeness
 * proofs chain together.
 */
module ParseSteps {
  import opened Opt
  import opened Lexemes
  import opened Streams
  import opened Syntax
  import opened Parser

  lemma {:induction false} ParenUnfold(s: Stream, p: nat, e: Expr, m: nat)
    requires Next(s, p) == Some(LPar) && At(s, p + 1) && ParseExpr(s, p + 1) == Ok(e, m)
    requires Next(s, m) == Some(RPar) && At(s, m + 1)
    ensures ParseParenExpr(s, p) == Ok(e, m + 1)
  {
    MatchOk(s, p, LPar);
    MatchOk(s, m, RPar);
  }

  lemma {:induction false} FactorsUnfold(s: Stream, p: nat, f: Factor, fs: seq<Factor>, m: nat, q: nat)
    requires Next(s, p) == Some(Mul) && At(s, p + 1)
    requires ParseFactor(s, p + 1) == Ok(f, m) && ParseFactors(s, m) == Ok(fs, q)
    ensures ParseFactors(s, p) == Ok([f] + fs, q)
  {
    MatchOk(s, p, Mul);
  }

  lemma {:induction false} TermUnfold(s: Stream, p: nat, f: Factor, fs: seq<Factor>, m: nat, q: nat)
    requires At(s, p) && ParseFactor(s, p) == Ok(f, m) && ParseFactors(s, m) == Ok(fs, q)
    ensures ParseTerm(s, p) == Ok(Term(f, fs), q)
  {
  }

  lemma {:induction false} SummandsUnfold(s: Stream, p: nat, sm: Summand, ss: seq<Summand>, m: nat, q: nat)
    requires Next(s, p) == Some(AddToken(sm.op)) && At(s, p + 1)
    requires ParseTerm(s, p + 1) == Ok(sm.term, m) && ParseSummands(s, m) == Ok(ss, q)
    ensures ParseSummands(s, p) == Ok([sm] + ss, q)
  {
    MatchOk(s, p, AddToken(sm.op));
    assert sm == Summand(sm.op, sm.term);
  }

  lemma {:induction false} SimpleUnfold(s: Stream, p: nat, t: Term, ss: seq<Summand>, m: nat, q: nat)
    requires At(s, p) && ParseTerm(s, p) == Ok(t, m) && ParseSummands(s, m) == Ok(ss, q)
    ensures ParseSimple(s, p) == Ok(SimpleExpr(t, ss), q)
  {
  }

  lemma {:induction false} ExprUnfold(s: Stream, p: nat, left: SimpleExpr, c: Comparison, m: nat, q: nat)
    requires At(s, p) && ParseSimple(s, p) == Ok(left, m)
    requires Next(s, m) == Some(RelToken(c.op)) && At(s, m + 1) && ParseSimple(s, m + 1) == Ok(c.right, q)
    ensures ParseExpr(s, p) == Ok(Expr(left, Some(c)), q)
  {
    MatchOk(s, m, RelToken(c.op));
  }

  lemma {:induction false} ExprSemiUnfold(s: Stream, p: nat, e: Expr, m: nat)
    requires At(s, p) && ParseExpr(s, p) == Ok(e, m) && Next(s, m) == Some(Semi) && At(s, m + 1)
    ensures ParseExprSemi(s, p) == Ok(e, m + 1)
  {
    MatchOk(s, m, Semi);
  }

  lemma {:induction false} AssignmentUnfold(s: Stream, p: nat, e: Expr, q: nat)
    requires Next(s, p) == Some(Id) && Next(s, p + 1) == Some(Assign) && At(s, p + 2)
    requires ParseExprSemi(s, p + 2) == Ok(e, q)
    ensures ParseAssignment(s, p) == Ok(Assignment(e), q)
  {
    MatchOk(s, p, Id);
    MatchOk(s, p + 1, Assign);
  }

  lemma {:induction false} IfHeadUnfold(s: Stream, p: nat, c: Expr, q: nat)
    requires Next(s, p) == Some(If) && At(s, p + 1) && ParseParenExpr(s, p + 1) == Ok(c, q)
    ensures ParseIfHead(s, p) == Ok(c, q)
  {
    MatchOk(s, p, If);
  }

  lemma {:induction false} ElseUnfold(s: Stream, p: nat, e: Stmt, q: nat)
    requires Next(s, p) == Some(Else) && At(s, p + 1) && ParseStmt(s, p + 1) == Ok(e, q)
    ensures ParseElse(s, p) == Ok(Some(e), q)
  {
    MatchOk(s, p, Else);
  }

  lemma {:induction false} IfUnfold(s: Stream, p: nat, c: Expr, t: Stmt, e: Option<Stmt>, m1: nat, m2: nat, q: nat)
    requires At(s, p) && ParseIfHead(s, p) == Ok(c, m1) && ParseStmt(s, m1) == Ok(t, m2) && ParseElse(s, m2) == Ok(e, q)
    ensures ParseIf(s, p) == Ok(IfStmt(c, t, e), q)
  {
  }

  lemma {:induction false} ForStepUnfold(s: Stream, p: nat, a: Assignment, m: nat)
    requires At(s, p) && ParseAssignment(s, p) == Ok(a, m) && Next(s, m) == Some(RPar) && At(s, m + 1)
    ensures ParseForStep(s, p) == Ok(a, m + 1)
  {
    MatchOk(s, m, RPar);
  }

  lemma {:induction false} ForRestUnfold(s: Stream, p: nat, c: Expr, step: Assignment, m: nat, q: nat)
    requires Next(s, p) == Some(Semi) && At(s, p + 1)
    requires ParseExprSemi(s, p + 1) == Ok(c, m) && ParseForStep(s, m) == Ok(step, q)
    ensures ParseForRest(s, p) == Ok((c, step), q)
  {
    MatchOk(s, p, Semi);
  }

  lemma {:induction false} ForHeadUnfold(s: Stream, p: nat, init: Assignment, c: Expr, step: Assignment, m: nat, q: nat)
    requires Next(s, p) == Some(For) && Next(s, p + 1) == Some(LPar) && At(s, p + 2)
    requires ParseAssignment(s, p + 2) == Ok(init, m) && ParseForRest(s, m) == Ok((c, step), q)
    ensures ParseForHead(s, p) == Ok((init, c, step), q)
  {
    MatchOk(s, p, For);
    MatchOk(s, p + 1, LPar);
  }

  lemma {:induction false} ForUnfold(s: Stream, p: nat, init: Assignment, c: Expr, step: Assignment, b: Stmt, m: nat, q: nat)
    requires At(s, p) && ParseForHead(s, p) == Ok((init, c, step), m) && ParseStmt(s, m) == Ok(b, q)
    ensures ParseFor(s, p) == Ok(ForStmt(init, c, step, b), q)
  {
  }

  lemma {:induction false} BlockUnfold(s: Stream, p: nat, sts: seq<Stmt>, m: nat)
    requires Next(s, p) == Some(LBrace) && At(s, p + 1) && ParseStmtList(s, p + 1) == Ok(sts, m)
    requires Next(s, m) == Some(RBrace) && At(s, m + 1)
    ensures ParseBlock(s, p) == Ok(BlockStmt(sts), m + 1)
  {
    MatchOk(s, p, LBrace);
    MatchOk(s, m, RBrace);
  }

  lemma {:induction false} StmtListUnfold(s: Stream, p: nat, st: Stmt, sts: seq<Stmt>, m: nat, q: nat)
    requires At(s, p) && StartsStmt(Next(s, p))
    requires ParseStmt(s, p) == Ok(st, m) && ParseStmtList(s, m) == Ok(sts, q)
    ensures ParseStmtList(s, p) == Ok([st] + sts, q)
  {
  }

  lemma {:induction false} PlainExprUnfold(s: Stream, p: nat, left: SimpleExpr, q: nat)
    requires At(s, p) && ParseSimple(s, p) == Ok(left, q) && Next(s, q) !in {Some(Eq), Some(Lt)}
    ensures ParseExpr(s, p) == Ok(Expr(left, None), q)
  {
  }

  lemma {:induction false} PlainElseUnfold(s: Stream, p: nat)
    requires At(s, p) && Next(s, p) != Some(Else)
    ensures ParseElse(s, p) == Ok(None, p)
  {
  }

  lemma {:induction false} StmtListEndUnfold(s: Stream, p: nat)
    requires At(s, p) && !StartsStmt(Next(s, p))
    ensures ParseStmtList(s, p) == Ok([], p)
  {
  }

  /** `_stmt` hands over to the production its lookahead selects. */
  lemma {:induction false} StmtUnfold(s: Stream, p: nat)
    requires At(s, p)
    ensures Next(s, p) == Some(Int) ==> ParseStmt(s, p) == ParseDecl(s, p)
    ensures Next(s, p) == Some(Id) && ParseAssignment(s, p).Ok? ==>
      ParseStmt(s, p) == Ok(AssignStmt(ParseAssignment(s, p).tree), ParseAssignment(s, p).pos)
    ensures Next(s, p) == Some(If) ==> ParseStmt(s, p) == ParseIf(s, p)
    ensures Next(s, p) == Some(For) ==> ParseStmt(s, p) == ParseFor(s, p)
    ensures Next(s, p) == Some(LBrace) ==> ParseStmt(s, p) == ParseBlock(s, p)
  {
  }

  /** What the `MUL` loop's calls returned, when it ran once more. */
  lemma {:induction false} FactorsInvert(s: Stream, p: nat, q: nat, fs: seq<Factor>)
    requires At(s, p) && ParseFactors(s, p) == Ok(fs, q) && Next(s, p) == Some(Mul)
    ensures At(s, p + 1) && ParseFactor(s, p + 1).Ok?
    ensures var m := ParseFactor(s, p + 1).pos;
      ParseFactors(s, m).Ok? && ParseFactors(s, m).pos == q && fs == [ParseFactor(s, p + 1).tree] + ParseFactors(s, m).tree
  {
  }

  /** What `_for_stmt`'s calls returned, when it succeeded. */
  lemma {:induction false} ForInvert(s: Stream, p: nat, q: nat, st: Stmt)
    requires At(s, p) && ParseFor(s, p) == Ok(st, q)
    ensures ParseForHead(s, p) == Ok((st.init, st.cond, st.step), ParseForHead(s, p).pos)
    ensures ParseStmt(s, ParseForHead(s, p).pos) == Ok(st.body, q)
  {
  }

  /** What `_block`'s calls returned, when it succeeded. */
  lemma {:induction false} BlockInvert(s: Stream, p: nat, q: nat, st: Stmt)
    requires At(s, p) && ParseBlock(s, p) == Ok(st, q)
    ensures p + 1 < q && Next(s, p) == Some(LBrace) && At(s, p + 1) && Next(s, q - 1) == Some(RBrace)
    ensures ParseStmtList(s, p + 1) == Ok(st.stmts, q - 1)
  {
  }

  /** A non-empty sequence is its head followed by its tail. */
  lemma {:induction false} HeadTail<T>(xs: seq<T>)
    requires xs != []
    ensures xs == [xs[0]] + xs[1..]
  {
  }
}
