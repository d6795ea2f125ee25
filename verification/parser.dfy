/**
 * The recursive-descent recognizer of parser.py (`Parser`): one function per
 * production, reading the lexeme stream with one lexeme of lookahead.
 *
 * A parser state is a position `p` in the stream: the lookahead is item `p`,
 * or nothing at the end of input. Each function returns the derivation it
 * walked through and the position after it, or the error the source raises.
 */
module Parser {
  import opened Opt
  import opened Lexemes
  import opened Streams
  import opened Syntax

  /** The ways a parse stops early. */
  datatype ParseError =
    | LexicalError(line: int)                                    // `ScannerException(line)` while fetching a lookahead
    | SyntaxError(line: int, got: Lexeme, expected: seq<Token>)  // `ParserException(lineno, lexeme, tokens)`
    | NoLookahead                                                // `AttributeError`: `.token` of a missing lookahead

  datatype Parsed<T> = Ok(tree: T, pos: nat) | Fail(error: ParseError)

  /** Position `p` can be reached: fetching its lookahead did not raise the scanner error. */
  predicate At(s: Stream, p: nat) {
    p < |s.items| || (p == |s.items| && s.end.AtEof?)
  }

  /** The token of the lookahead at `p`; `None` at the end of input. */
  function Next(s: Stream, p: nat): Option<Token> {
    if p < |s.items| then Some(s.items[p].lexeme.token) else None
  }

  /** `get_lineno()` while the lookahead at `p` is current. */
  function LineAt(s: Stream, p: nat): int
    requires At(s, p)
  {
    if p < |s.items| then s.items[p].line else s.end.line
  }

  /** The lexeme a syntax error reports: the lookahead, or `Lexeme(ID, "EOF")` at the end of input. */
  function Got(s: Stream, p: nat): Lexeme {
    if p < |s.items| then s.items[p].lexeme else Lexeme(Id, "EOF")
  }

  /**
   * `_match(expected)`: on the expected token, move past it and fetch the next
   * lookahead; otherwise report the lookahead with `[expected]`.
   */
  function Match(s: Stream, p: nat, expected: Token): (r: Parsed<()>)
    requires At(s, p)
    ensures r.Ok? <==> Next(s, p) == Some(expected) && At(s, p + 1)
    ensures r.Ok? ==> r.pos == p + 1
  {
    if Next(s, p) == Some(expected) then
      if At(s, p + 1) then
        Ok((), p + 1)
      else
        Fail(LexicalError(s.end.line))
    else
      Fail(SyntaxError(LineAt(s, p), Got(s, p), [expected]))
  }

  /** Where the lookahead is the expected token and the next one can be fetched, `_match` moves on. */
  lemma {:induction false} MatchOk(s: Stream, p: nat, t: Token)
    requires At(s, p + 1) && Next(s, p) == Some(t)
    ensures Match(s, p, t) == Ok((), p + 1)
  {
  }

  /** `( expr )`, as `_factor` and `_if_stmt` read it. */
  function ParseParenExpr(s: Stream, p: nat): (r: Parsed<Expr>)
    requires At(s, p)
    decreases |s.items| - p, 0
    ensures r.Ok? ==> p < r.pos && At(s, r.pos)
  {
    match Match(s, p, LPar)
    case Fail(err) => Fail(err)
    case Ok(_, p1) =>
      match ParseExpr(s, p1)
      case Fail(err) => Fail(err)
      case Ok(e, p2) =>
        match Match(s, p2, RPar)
        case Fail(err) => Fail(err)
        case Ok(_, p3) =>
          Ok(e, p3)
  }

  /** `_factor`: `( expr ) | NUM | ID`, chosen by the lookahead. */
  function ParseFactor(s: Stream, p: nat): (r: Parsed<Factor>)
    requires At(s, p)
    decreases |s.items| - p, 1
    ensures r.Ok? ==> p < r.pos && At(s, r.pos)
  {
    match Next(s, p)
    case None => Fail(NoLookahead)
    case Some(t) =>
      if t == LPar then
        match ParseParenExpr(s, p)
        case Fail(err) => Fail(err)
        case Ok(e, q) => Ok(Paren(e), q)
      else if t == Num || t == Id then
        match Match(s, p, t)
        case Fail(err) => Fail(err)
        case Ok(_, q) => Ok(Leaf(if t == Num then NumAtom else IdAtom), q)
      else
        Fail(SyntaxError(LineAt(s, p), s.items[p].lexeme, [Num, Id, LPar]))
  }

  /** The loop of `_term`: `* factor` for as long as the lookahead is `MUL`. */
  function ParseFactors(s: Stream, p: nat): (r: Parsed<seq<Factor>>)
    requires At(s, p)
    decreases |s.items| - p, 1
    ensures r.Ok? ==> p <= r.pos && At(s, r.pos)
    ensures r.Ok? ==> Next(s, r.pos) != Some(Mul)
  {
    if Next(s, p) == Some(Mul) then
      match Match(s, p, Mul)
      case Fail(err) => Fail(err)
      case Ok(_, p1) =>
        match ParseFactor(s, p1)
        case Fail(err) => Fail(err)
        case Ok(f, p2) =>
          match ParseFactors(s, p2)
          case Fail(err) => Fail(err)
          case Ok(fs, p3) =>
            Ok([f] + fs, p3)
    else
      Ok([], p)
  }

  /** `_term`: a factor, then the `MUL` loop. */
  function ParseTerm(s: Stream, p: nat): (r: Parsed<Term>)
    requires At(s, p)
    decreases |s.items| - p, 2
    ensures r.Ok? ==> p < r.pos && At(s, r.pos)
    ensures r.Ok? ==> Next(s, r.pos) != Some(Mul)
  {
    match ParseFactor(s, p)
    case Fail(err) => Fail(err)
    case Ok(f, p1) =>
      match ParseFactors(s, p1)
      case Fail(err) => Fail(err)
      case Ok(fs, p2) =>
        Ok(Term(f, fs), p2)
  }

  /** The loop of `_simple_expr`: `+ term` or `- term` for as long as the lookahead is `PLUS` or `MINUS`. */
  function ParseSummands(s: Stream, p: nat): (r: Parsed<seq<Summand>>)
    requires At(s, p)
    decreases |s.items| - p, 2
    ensures r.Ok? ==> p <= r.pos && At(s, r.pos)
    ensures r.Ok? ==> Next(s, r.pos) != Some(Plus) && Next(s, r.pos) != Some(Minus)
    ensures r.Ok? && r.tree == [] ==> r.pos == p
    ensures r.Ok? && r.tree != [] ==> Next(s, r.pos) != Some(Mul)
  {
    if Next(s, p) == Some(Plus) || Next(s, p) == Some(Minus) then
      var op := if Next(s, p) == Some(Plus) then AddPlus else AddMinus;
      match Match(s, p, AddToken(op))
      case Fail(err) => Fail(err)
      case Ok(_, p1) =>
        match ParseTerm(s, p1)
        case Fail(err) => Fail(err)
        case Ok(t, p2) =>
          match ParseSummands(s, p2)
          case Fail(err) => Fail(err)
          case Ok(ss, p3) =>
            Ok([Summand(op, t)] + ss, p3)
    else
      Ok([], p)
  }

  /** `_simple_expr`: a term, then the `PLUS`/`MINUS` loop. */
  function ParseSimple(s: Stream, p: nat): (r: Parsed<SimpleExpr>)
    requires At(s, p)
    decreases |s.items| - p, 3
    ensures r.Ok? ==> p < r.pos && At(s, r.pos)
    ensures r.Ok? ==> Next(s, r.pos) !in {Some(Mul), Some(Plus), Some(Minus)}
  {
    match ParseTerm(s, p)
    case Fail(err) => Fail(err)
    case Ok(t, p1) =>
      match ParseSummands(s, p1)
      case Fail(err) => Fail(err)
      case Ok(ss, p2) =>
        Ok(SimpleExpr(t, ss), p2)
  }

  /** `_expr`: a simple expression, then at most one `EQ` or `LT` and a second simple expression. */
  function ParseExpr(s: Stream, p: nat): (r: Parsed<Expr>)
    requires At(s, p)
    decreases |s.items| - p, 4
    ensures r.Ok? ==> p < r.pos && At(s, r.pos)
    ensures r.Ok? ==> Next(s, r.pos) !in {Some(Mul), Some(Plus), Some(Minus)}
    ensures r.Ok? && r.tree.comparison.None? ==> Next(s, r.pos) !in {Some(Eq), Some(Lt)}
  {
    match ParseSimple(s, p)
    case Fail(err) => Fail(err)
    case Ok(left, p1) =>
      if Next(s, p1) == Some(Eq) || Next(s, p1) == Some(Lt) then
        var op := if Next(s, p1) == Some(Eq) then RelEq else RelLt;
        match Match(s, p1, RelToken(op))
        case Fail(err) => Fail(err)
        case Ok(_, p2) =>
          match ParseSimple(s, p2)
          case Fail(err) => Fail(err)
          case Ok(right, p3) =>
            Ok(Expr(left, Some(Comparison(op, right))), p3)
      else
        Ok(Expr(left, None), p1)
  }

  /** `expr ;`, the tail of `_assign` and of the condition of `_for_stmt`. */
  function ParseExprSemi(s: Stream, p: nat): (r: Parsed<Expr>)
    requires At(s, p)
    decreases |s.items| - p, 5
    ensures r.Ok? ==> p < r.pos && At(s, r.pos)
  {
    match ParseExpr(s, p)
    case Fail(err) => Fail(err)
    case Ok(e, p1) =>
      match Match(s, p1, Semi)
      case Fail(err) => Fail(err)
      case Ok(_, p2) =>
        Ok(e, p2)
  }

  /** `_assign`: `ID = expr ;`. */
  function ParseAssignment(s: Stream, p: nat): (r: Parsed<Assignment>)
    requires At(s, p)
    decreases |s.items| - p, 5
    ensures r.Ok? ==> p < r.pos && At(s, r.pos)
  {
    match Match(s, p, Id)
    case Fail(err) => Fail(err)
    case Ok(_, p1) =>
      match Match(s, p1, Assign)
      case Fail(err) => Fail(err)
      case Ok(_, p2) =>
        match ParseExprSemi(s, p2)
        case Fail(err) => Fail(err)
        case Ok(e, p3) =>
          Ok(Assignment(e), p3)
  }

  /** `_decl`: `INT ID ;`. */
  function ParseDecl(s: Stream, p: nat): (r: Parsed<Stmt>)
    requires At(s, p)
    decreases |s.items| - p, 6
    ensures r.Ok? ==> p < r.pos && At(s, r.pos) && r.tree == DeclStmt
  {
    match Match(s, p, Int)
    case Fail(err) => Fail(err)
    case Ok(_, p1) =>
      match Match(s, p1, Id)
      case Fail(err) => Fail(err)
      case Ok(_, p2) =>
        match Match(s, p2, Semi)
        case Fail(err) => Fail(err)
        case Ok(_, p3) =>
          Ok(DeclStmt, p3)
  }

  /** The head of `_if_stmt`: `if ( expr )`. */
  function ParseIfHead(s: Stream, p: nat): (r: Parsed<Expr>)
    requires At(s, p)
    decreases |s.items| - p, 6
    ensures r.Ok? ==> p < r.pos && At(s, r.pos)
  {
    match Match(s, p, If)
    case Fail(err) => Fail(err)
    case Ok(_, p1) =>
      match ParseParenExpr(s, p1)
      case Fail(err) => Fail(err)
      case Ok(c, p2) =>
        Ok(c, p2)
  }

  /** The tail of `_if_stmt`: `else stmt` exactly when the lookahead is `ELSE`, else nothing. */
  function ParseElse(s: Stream, p: nat): (r: Parsed<Option<Stmt>>)
    requires At(s, p)
    decreases |s.items| - p, 6
    ensures r.Ok? ==> p <= r.pos && At(s, r.pos)
    ensures r.Ok? && r.tree.None? ==> r.pos == p && Next(s, p) != Some(Else)
    ensures r.Ok? && r.tree.Some? ==> Fits(r.tree.value) && (OpenIf(r.tree.value) ==> Next(s, r.pos) != Some(Else))
  {
    if Next(s, p) == Some(Else) then
      match Match(s, p, Else)
      case Fail(err) => Fail(err)
      case Ok(_, p1) =>
        match ParseStmt(s, p1)
        case Fail(err) => Fail(err)
        case Ok(e, p2) =>
          Ok(Some(e), p2)
    else
      Ok(None, p)
  }

  /** `_if_stmt`: `if ( expr ) stmt`, then `else stmt` whenever the lookahead is `ELSE`. */
  function ParseIf(s: Stream, p: nat): (r: Parsed<Stmt>)
    requires At(s, p)
    decreases |s.items| - p, 7
    ensures r.Ok? ==> p < r.pos && At(s, r.pos) && r.tree.IfStmt?
    ensures r.Ok? ==> Fits(r.tree) && (OpenIf(r.tree) ==> Next(s, r.pos) != Some(Else))
  {
    match ParseIfHead(s, p)
    case Fail(err) => Fail(err)
    case Ok(c, p1) =>
      match ParseStmt(s, p1)
      case Fail(err) => Fail(err)
      case Ok(t, p2) =>
        match ParseElse(s, p2)
        case Fail(err) => Fail(err)
        case Ok(e, p3) =>
          Ok(IfStmt(c, t, e), p3)
  }

  /** The end of the header of `_for_stmt`: `assign )`. */
  function ParseForStep(s: Stream, p: nat): (r: Parsed<Assignment>)
    requires At(s, p)
    decreases |s.items| - p, 6
    ensures r.Ok? ==> p < r.pos && At(s, r.pos)
  {
    match ParseAssignment(s, p)
    case Fail(err) => Fail(err)
    case Ok(step, p1) =>
      match Match(s, p1, RPar)
      case Fail(err) => Fail(err)
      case Ok(_, p2) =>
        Ok(step, p2)
  }

  /** The header of `_for_stmt` after its first `assign`: `; expr ; assign )`. */
  function ParseForRest(s: Stream, p: nat): (r: Parsed<(Expr, Assignment)>)
    requires At(s, p)
    decreases |s.items| - p, 7
    ensures r.Ok? ==> p < r.pos && At(s, r.pos)
  {
    match Match(s, p, Semi)
    case Fail(err) => Fail(err)
    case Ok(_, p1) =>
      match ParseExprSemi(s, p1)
      case Fail(err) => Fail(err)
      case Ok(c, p2) =>
        match ParseForStep(s, p2)
        case Fail(err) => Fail(err)
        case Ok(step, p3) =>
          Ok((c, step), p3)
  }

  /** The head of `_for_stmt`: `for ( assign ; expr ; assign )`. */
  function ParseForHead(s: Stream, p: nat): (r: Parsed<(Assignment, Expr, Assignment)>)
    requires At(s, p)
    decreases |s.items| - p, 8
    ensures r.Ok? ==> p < r.pos && At(s, r.pos)
  {
    match Match(s, p, For)
    case Fail(err) => Fail(err)
    case Ok(_, p1) =>
      match Match(s, p1, LPar)
      case Fail(err) => Fail(err)
      case Ok(_, p2) =>
        match ParseAssignment(s, p2)
        case Fail(err) => Fail(err)
        case Ok(init, p3) =>
          match ParseForRest(s, p3)
          case Fail(err) => Fail(err)
          case Ok(rest, p4) =>
            Ok((init, rest.0, rest.1), p4)
  }

  /** `_for_stmt`: `for ( assign ; expr ; assign ) stmt`; each `assign` ends in its own `;`. */
  function ParseFor(s: Stream, p: nat): (r: Parsed<Stmt>)
    requires At(s, p)
    decreases |s.items| - p, 9
    ensures r.Ok? ==> p < r.pos && At(s, r.pos) && r.tree.ForStmt?
    ensures r.Ok? ==> Fits(r.tree) && (OpenIf(r.tree) ==> Next(s, r.pos) != Some(Else))
  {
    match ParseForHead(s, p)
    case Fail(err) => Fail(err)
    case Ok(head, p1) =>
      match ParseStmt(s, p1)
      case Fail(err) => Fail(err)
      case Ok(b, p2) =>
        Ok(ForStmt(head.0, head.1, head.2, b), p2)
  }

  /** `_block`: `{ stmt_list }`. */
  function ParseBlock(s: Stream, p: nat): (r: Parsed<Stmt>)
    requires At(s, p)
    decreases |s.items| - p, 8
    ensures r.Ok? ==> p < r.pos && At(s, r.pos) && r.tree.BlockStmt?
    ensures r.Ok? ==> Fits(r.tree)
  {
    match Match(s, p, LBrace)
    case Fail(err) => Fail(err)
    case Ok(_, p1) =>
      match ParseStmtList(s, p1)
      case Fail(err) => Fail(err)
      case Ok(sts, p2) =>
        match Match(s, p2, RBrace)
        case Fail(err) => Fail(err)
        case Ok(_, p3) =>
          Ok(BlockStmt(sts), p3)
  }

  /** `_stmt`: chooses the alternative by the lookahead's token. */
  function ParseStmt(s: Stream, p: nat): (r: Parsed<Stmt>)
    requires At(s, p)
    decreases |s.items| - p, 10
    ensures r.Ok? ==> p < r.pos && At(s, r.pos)
    ensures r.Ok? ==> Fits(r.tree) && (OpenIf(r.tree) ==> Next(s, r.pos) != Some(Else))
  {
    match Next(s, p)
    case None => Fail(NoLookahead)
    case Some(t) =>
      if t == Int then ParseDecl(s, p)
      else if t == Id then
        match ParseAssignment(s, p)
        case Fail(err) => Fail(err)
        case Ok(a, q) => Ok(AssignStmt(a), q)
      else if t == If then ParseIf(s, p)
      else if t == For then ParseFor(s, p)
      else if t == LBrace then ParseBlock(s, p)
      else Fail(SyntaxError(LineAt(s, p), s.items[p].lexeme, [Int, Id, If, For, LBrace]))
  }

  /** `_stmt_list`: statements for as long as the lookahead can start one. */
  function ParseStmtList(s: Stream, p: nat): (r: Parsed<seq<Stmt>>)
    requires At(s, p)
    decreases |s.items| - p, 11
    ensures r.Ok? ==> p <= r.pos && At(s, r.pos)
    ensures r.Ok? ==> AllFit(r.tree) && EndsStmts(r.tree, Next(s, r.pos))
  {
    if StartsStmt(Next(s, p)) then
      match ParseStmt(s, p)
      case Fail(err) => Fail(err)
      case Ok(st, p1) =>
        match ParseStmtList(s, p1)
        case Fail(err) => Fail(err)
        case Ok(sts, p2) =>
          StmtsCons(st, sts, Next(s, p1), Next(s, p2));
          Ok([st] + sts, p2)
    else
      Ok([], p)
  }

  /** Putting a statement in front of a list keeps the list's fit and follow conditions. */
  lemma {:induction false} StmtsCons(st: Stmt, sts: seq<Stmt>, mid: Option<Token>, next: Option<Token>)
    requires Fits(st) && (OpenIf(st) ==> mid != Some(Else))
    requires AllFit(sts) && EndsStmts(sts, next)
    requires sts != [] ==> StartsStmt(mid)
    requires sts == [] ==> mid == next
    ensures AllFit([st] + sts) && EndsStmts([st] + sts, next)
  {
    var all := [st] + sts;
    assert all[0] == st && all[1..] == sts;
    if sts != [] {
      assert all[|all| - 1] == sts[|sts| - 1];
    }
  }

  /** `_program`: a statement list. */
  function ParseProgram(s: Stream, p: nat): (r: Parsed<seq<Stmt>>)
    requires At(s, p)
    decreases |s.items| - p, 12
    ensures r.Ok? ==> p <= r.pos && At(s, r.pos)
    ensures r.Ok? ==> AllFit(r.tree) && EndsStmts(r.tree, Next(s, r.pos))
  {
    ParseStmtList(s, p)
  }

  /**
   * `Parser(scanner, use_symbol_table)` then `parse(...)`: fetch the first
   * lookahead, then parse a program. Nothing checks that the input ends there.
   * The flag is stored by the source and never read.
   */
  function Parse(s: Stream, useSymbolTable: bool): (r: Parsed<seq<Stmt>>)
    ensures !At(s, 0) ==> r == Fail(LexicalError(s.end.line))
    ensures r.Ok? ==> At(s, r.pos)
    ensures r.Ok? ==> AllFit(r.tree) && EndsStmts(r.tree, Next(s, r.pos))
  {
    if !At(s, 0) then Fail(LexicalError(s.end.line))
    else ParseProgram(s, 0)
  }
}
