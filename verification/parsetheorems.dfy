/**
 * What the parser of parser.py accepts, exactly: each parse function
 * succeeds with a derivation and an end position if and only if the lexemes
 * in between carry the derivation's tokens, the next lookahead can be
 * fetched, and that lookahead is one at which the production's loops and
 * optional parts stop.
 */
module ParseTheorems {
  import opened Opt
  import opened Lexemes
  import opened Streams
  import opened Syntax
  import opened Parser
  import opened TokenSpans
  import opened TreeSpans
  import opened ParseSound
  import opened ParseComplete
  import opened GrammarFacts

  /** `_expr` accepts a derivation exactly when its tokens stand there and the lookahead after it ends every loop. */
  lemma {:induction false} ExprIff(s: Stream, p: nat, q: nat, e: Expr)
    requires At(s, p)
    ensures ParseExpr(s, p) == Ok(e, q) <==>
      && Spans(s, p, q, ExprTokens(e)) && At(s, q)
      && Next(s, q) !in {Some(Mul), Some(Plus), Some(Minus)}
      && (e.comparison.None? ==> Next(s, q) !in {Some(Eq), Some(Lt)})
  {
    if ParseExpr(s, p) == Ok(e, q) {
      ExprSound(s, p, q, e);
    }
    if Spans(s, p, q, ExprTokens(e)) && At(s, q) && Next(s, q) !in {Some(Mul), Some(Plus), Some(Minus)}
      && (e.comparison.None? ==> Next(s, q) !in {Some(Eq), Some(Lt)})
    {
      ExprComplete(s, p, q, e);
    }
  }

  /**
   * `_stmt` accepts a derivation exactly when its tokens stand there, every
   * `else` in it belongs to the nearest open `if`, and no `else` follows an
   * open `if` at its end.
   */
  lemma {:induction false} StmtIff(s: Stream, p: nat, q: nat, st: Stmt)
    requires At(s, p)
    ensures ParseStmt(s, p) == Ok(st, q) <==>
      && Spans(s, p, q, StmtTokens(st)) && At(s, q)
      && Fits(st) && (OpenIf(st) ==> Next(s, q) != Some(Else))
  {
    if ParseStmt(s, p) == Ok(st, q) {
      StmtSound(s, p, q, st);
    }
    if Spans(s, p, q, StmtTokens(st)) && At(s, q) && Fits(st) && (OpenIf(st) ==> Next(s, q) != Some(Else)) {
      StmtComplete(s, p, q, st);
    }
  }

  /** `_decl` is exactly `INT ID ;`. */
  lemma {:induction false} DeclIff(s: Stream, p: nat, q: nat)
    requires At(s, p)
    ensures ParseDecl(s, p) == Ok(DeclStmt, q) <==>
      && q == p + 3 && At(s, q)
      && Next(s, p) == Some(Int) && Next(s, p + 1) == Some(Id) && Next(s, p + 2) == Some(Semi)
  {
    DeclSpans(s, p, q);
    if ParseDecl(s, p) == Ok(DeclStmt, q) {
      DeclSound(s, p, q, DeclStmt);
    }
    if Spans(s, p, q, StmtTokens(DeclStmt)) && At(s, q) {
      DeclComplete(s, p, q);
    }
  }

  /** `_stmt_list` takes statements exactly as long as the lookahead can start one. */
  lemma {:induction false} StmtListIff(s: Stream, p: nat, q: nat, sts: seq<Stmt>)
    requires At(s, p)
    ensures ParseStmtList(s, p) == Ok(sts, q) <==>
      Spans(s, p, q, StmtsTokens(sts)) && At(s, q) && AllFit(sts) && EndsStmts(sts, Next(s, q))
  {
    if ParseStmtList(s, p) == Ok(sts, q) {
      StmtListSound(s, p, q, sts);
    }
    if Spans(s, p, q, StmtsTokens(sts)) && At(s, q) && AllFit(sts) && EndsStmts(sts, Next(s, q)) {
      StmtListComplete(s, p, q, sts);
    }
  }

  /**
   * `parse()` succeeds exactly when the first lookahead can be fetched and the
   * lexemes from the start carry a well-ended statement list. It does not ask
   * that the input end there: whatever follows, from a lookahead that cannot
   * start a statement on, is never read.
   */
  lemma {:induction false} ParseAccepts(s: Stream, useSymbolTable: bool, q: nat, sts: seq<Stmt>)
    ensures Parse(s, useSymbolTable) == Ok(sts, q) <==>
      At(s, 0) && Spans(s, 0, q, StmtsTokens(sts)) && At(s, q) && AllFit(sts) && EndsStmts(sts, Next(s, q))
  {
    if At(s, 0) {
      StmtListIff(s, 0, q, sts);
    }
  }

  /** No lexeme `_stmt_list` moves over is a `>`: the scanner recognises it, the grammar never accepts it. */
  lemma {:induction false} GtNeverAccepted(s: Stream, p: nat, q: nat, sts: seq<Stmt>)
    requires At(s, p) && ParseStmtList(s, p) == Ok(sts, q)
    ensures forall i :: p <= i < q ==> Next(s, i) != Some(Gt)
  {
    StmtListSound(s, p, q, sts);
    StmtsNoGt(sts);
    forall i | p <= i < q
      ensures Next(s, i) != Some(Gt)
    {
      SpansAt(s, p, q, StmtsTokens(sts), i - p);
    }
  }

  /**
   * `else` binds to the nearest `if`: of the two derivations of
   * `if ( c ) if ( c2 ) t else e`, `_stmt` never returns the one that gives
   * the `else` to the outer `if`, and returns the other wherever those tokens
   * stand and what follows them is not another `else`.
   */
  lemma {:induction false} ElseBindsInner(s: Stream, p: nat, q: nat, c: Expr, c2: Expr, t: Stmt, e: Stmt)
    requires At(s, p)
    ensures ParseStmt(s, p) != Ok(IfStmt(c, IfStmt(c2, t, None), Some(e)), q)
    ensures ParseStmt(s, p) == Ok(IfStmt(c, IfStmt(c2, t, Some(e)), None), q) <==>
      && Spans(s, p, q, IfHeadTokens(c) + IfHeadTokens(c2) + StmtTokens(t) + [Else] + StmtTokens(e))
      && At(s, q) && Next(s, q) != Some(Else)
      && Fits(t) && !OpenIf(t) && Fits(e)
  {
    DanglingElse(c, c2, t, e);
    StmtIff(s, p, q, IfStmt(c, IfStmt(c2, t, Some(e)), None));
  }
}
