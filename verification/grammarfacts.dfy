/**
 * Facts about the token sequences of the derivations alone: which tokens
 * never occur, where the grammar is ambiguous, and what a `for` header looks
 * like once its parts are laid out.
 */
module GrammarFacts {
  import opened Opt
  import opened Lexemes
  import opened Syntax

  /** `>` is a token of the scanner that no production of the parser uses. */
  lemma {:induction false} FactorNoGt(f: Factor)
    decreases f
    ensures Gt !in FactorTokens(f)
  {
    match f
    case Paren(e) =>
      ExprNoGt(e);
    case Leaf(_) =>
  }

  lemma {:induction false} FactorsNoGt(fs: seq<Factor>)
    decreases fs
    ensures Gt !in FactorsTokens(fs)
  {
    if fs != [] {
      FactorNoGt(fs[0]);
      FactorsNoGt(fs[1..]);
    }
  }

  lemma {:induction false} TermNoGt(t: Term)
    decreases t
    ensures Gt !in TermTokens(t)
  {
    FactorNoGt(t.first);
    FactorsNoGt(t.rest);
  }

  lemma {:induction false} SummandsNoGt(ss: seq<Summand>)
    decreases ss
    ensures Gt !in SummandsTokens(ss)
  {
    if ss != [] {
      SummandNoGt(ss[0]);
      SummandsNoGt(ss[1..]);
    }
  }

  lemma {:induction false} SummandNoGt(sm: Summand)
    decreases sm
    ensures Gt !in SummandTokens(sm)
  {
    TermNoGt(sm.term);
  }

  lemma {:induction false} SimpleNoGt(e: SimpleExpr)
    decreases e
    ensures Gt !in SimpleTokens(e)
  {
    TermNoGt(e.first);
    SummandsNoGt(e.rest);
  }

  lemma {:induction false} ExprNoGt(e: Expr)
    decreases e
    ensures Gt !in ExprTokens(e)
  {
    SimpleNoGt(e.left);
    if e.comparison.Some? {
      SimpleNoGt(e.comparison.value.right);
    }
  }

  lemma {:induction false} AssignmentNoGt(a: Assignment)
    ensures Gt !in AssignmentTokens(a)
  {
    ExprNoGt(a.value);
  }

  lemma {:induction false} StmtNoGt(st: Stmt)
    decreases st
    ensures Gt !in StmtTokens(st)
  {
    match st
    case DeclStmt =>
    case AssignStmt(a) =>
      AssignmentNoGt(a);
    case IfStmt(c, t, e) =>
      ExprNoGt(c);
      StmtNoGt(t);
      if e.Some? {
        StmtNoGt(e.value);
      }
    case ForStmt(init, c, step, b) =>
      AssignmentNoGt(init);
      ExprNoGt(c);
      AssignmentNoGt(step);
      StmtNoGt(b);
    case BlockStmt(sts) =>
      StmtsNoGt(sts);
  }

  lemma {:induction false} StmtsNoGt(sts: seq<Stmt>)
    decreases sts
    ensures Gt !in StmtsTokens(sts)
  {
    if sts != [] {
      StmtNoGt(sts[0]);
      StmtsNoGt(sts[1..]);
    }
  }

  /**
   * `if ( c ) if ( c2 ) t else e` has two derivations with the same tokens:
   * the `else` can belong to either `if`.
   */
  lemma {:induction false} DanglingElse(c: Expr, c2: Expr, t: Stmt, e: Stmt)
    ensures StmtTokens(IfStmt(c, IfStmt(c2, t, Some(e)), None)) == StmtTokens(IfStmt(c, IfStmt(c2, t, None), Some(e)))
    ensures StmtTokens(IfStmt(c, IfStmt(c2, t, Some(e)), None)) ==
      IfHeadTokens(c) + IfHeadTokens(c2) + StmtTokens(t) + [Else] + StmtTokens(e)
  {
    var h, h2, tt, et := IfHeadTokens(c), IfHeadTokens(c2), StmtTokens(t), StmtTokens(e);
    assert StmtTokens(IfStmt(c2, t, Some(e))) == h2 + tt + ([Else] + et);
    assert StmtTokens(IfStmt(c2, t, None)) == h2 + tt + [];
    assert StmtTokens(IfStmt(c, IfStmt(c2, t, Some(e)), None)) == h + StmtTokens(IfStmt(c2, t, Some(e))) + [];
    assert StmtTokens(IfStmt(c, IfStmt(c2, t, None), Some(e))) == h + StmtTokens(IfStmt(c2, t, None)) + ([Else] + et);
    ElseRegroup(h, h2, tt, et);
  }

  /** The regrouping `DanglingElse` needs, over any token sequences. */
  lemma {:induction false} ElseRegroup(h: seq<Token>, h2: seq<Token>, tt: seq<Token>, et: seq<Token>)
    ensures h + (h2 + tt + ([Else] + et)) + [] == h + (h2 + tt + []) + ([Else] + et)
    ensures h + (h2 + tt + ([Else] + et)) + [] == h + h2 + tt + [Else] + et
  {
  }

  /**
   * The header of a `for` loop spelled out: `for ( ID = expr ; ; expr ; ID = expr ; )`,
   * with two `;` in a row after the first assignment and one before the `)`.
   */
  lemma {:induction false} ForHeaderShape(init: Assignment, c: Expr, step: Assignment)
    ensures ForHeadTokens(init, c, step) ==
      [For, LPar, Id, Assign] + ExprTokens(init.value) + [Semi, Semi] + ExprTokens(c)
      + [Semi, Id, Assign] + ExprTokens(step.value) + [Semi, RPar]
  {
    var ei, ec, es := ExprTokens(init.value), ExprTokens(c), ExprTokens(step.value);
    assert AssignmentTokens(init) == [Id, Assign] + (ei + [Semi]);
    assert ForRestTokens(c, step) == [Semi] + (ec + [Semi]) + ([Id, Assign] + (es + [Semi]) + [RPar]);
    ForRegroup(ei, ec, es);
  }

  /** The regrouping `ForHeaderShape` needs, over any token sequences. */
  lemma {:induction false} ForRegroup(ei: seq<Token>, ec: seq<Token>, es: seq<Token>)
    ensures [For, LPar] + ([Id, Assign] + (ei + [Semi])) + ([Semi] + (ec + [Semi]) + ([Id, Assign] + (es + [Semi]) + [RPar]))
      == [For, LPar, Id, Assign] + ei + [Semi, Semi] + ec + [Semi, Id, Assign] + es + [Semi, RPar]
  {
  }
}
