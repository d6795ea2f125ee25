/**
 * The derivations the recursive-descent parser of parser.py walks through,
 * one datatype per production, and the token sequence each one spans.
 *
 * The parser of the source builds no tree; these datatypes record which
 * alternative each of its functions took and how often each loop ran, so that
 * what it accepts can be stated exactly. They live at the level of token
 * categories: the parser never looks at a lexeme's text.
 */
module Syntax {
  import opened Opt
  import opened Lexemes

  /** `NUM | ID` in `_factor`. */
  datatype Atom = NumAtom | IdAtom

  /** `PLUS | MINUS` in the loop of `_simple_expr`. */
  datatype AddOp = AddPlus | AddMinus

  /** `EQ | LT` in `_expr`: the only relational operators. */
  datatype RelOp = RelEq | RelLt

  /** factor: `( expr ) | NUM | ID`. */
  datatype Factor = Paren(inner: Expr) | Leaf(atom: Atom)

  /** term: a factor, then any number of `* factor`. */
  datatype Term = Term(first: Factor, rest: seq<Factor>)

  /** One `+ term` or `- term` of a simple expression. */
  datatype Summand = Summand(op: AddOp, term: Term)

  /** simple_expr: a term, then any number of `+ term` or `- term`. */
  datatype SimpleExpr = SimpleExpr(first: Term, rest: seq<Summand>)

  /** The optional relational tail of an expression. */
  datatype Comparison = Comparison(op: RelOp, right: SimpleExpr)

  /** expr: a simple expression, then at most one relational operator and simple expression. */
  datatype Expr = Expr(left: SimpleExpr, comparison: Option<Comparison>)

  /** assign: `ID = expr ;`. */
  datatype Assignment = Assignment(value: Expr)

  /** stmt: one constructor per alternative of `_stmt`. */
  datatype Stmt =
    | DeclStmt                                                          // int ID ;
    | AssignStmt(assignment: Assignment)                                // ID = expr ;
    | IfStmt(cond: Expr, thenBranch: Stmt, elseBranch: Option<Stmt>)    // if ( expr ) stmt [else stmt]
    | ForStmt(init: Assignment, cond: Expr, step: Assignment, body: Stmt)
    | BlockStmt(stmts: seq<Stmt>)                                      // { stmt_list }

  function AtomToken(a: Atom): Token {
    match a
    case NumAtom => Num
    case IdAtom => Id
  }

  function AddToken(op: AddOp): Token {
    match op
    case AddPlus => Plus
    case AddMinus => Minus
  }

  function RelToken(op: RelOp): Token {
    match op
    case RelEq => Eq
    case RelLt => Lt
  }

  function FactorTokens(f: Factor): (r: seq<Token>)
    ensures r != []
  {
    match f
    case Paren(e) => ParenTokens(e)
    case Leaf(a) => [AtomToken(a)]
  }

  function ParenTokens(e: Expr): seq<Token>
    decreases e, 1
  {
    [LPar] + ExprTokens(e) + [RPar]
  }

  function FactorsTokens(fs: seq<Factor>): seq<Token> {
    if fs == [] then [] else [Mul] + FactorTokens(fs[0]) + FactorsTokens(fs[1..])
  }

  function TermTokens(t: Term): (r: seq<Token>)
    ensures r != []
  {
    FactorTokens(t.first) + FactorsTokens(t.rest)
  }

  function SummandTokens(s: Summand): seq<Token> {
    [AddToken(s.op)] + TermTokens(s.term)
  }

  function SummandsTokens(ss: seq<Summand>): seq<Token> {
    if ss == [] then [] else SummandTokens(ss[0]) + SummandsTokens(ss[1..])
  }

  function SimpleTokens(e: SimpleExpr): (r: seq<Token>)
    ensures r != []
  {
    TermTokens(e.first) + SummandsTokens(e.rest)
  }

  function ExprTokens(e: Expr): (r: seq<Token>)
    decreases e, 0
    ensures r != []
  {
    SimpleTokens(e.left) + ComparisonTokens(e.comparison)
  }

  function ComparisonTokens(c: Option<Comparison>): seq<Token> {
    match c
    case None => []
    case Some(c) => [RelToken(c.op)] + SimpleTokens(c.right)
  }

  function ExprSemiTokens(e: Expr): seq<Token> {
    ExprTokens(e) + [Semi]
  }

  function AssignmentTokens(a: Assignment): seq<Token> {
    [Id, Assign] + ExprSemiTokens(a.value)
  }

  /** `if ( expr )`. */
  function IfHeadTokens(c: Expr): seq<Token> {
    [If] + ParenTokens(c)
  }

  /** The end of a `for` header: `assign )`. */
  function ForStepTokens(step: Assignment): seq<Token> {
    AssignmentTokens(step) + [RPar]
  }

  /** A `for` header after its first `assign`: `; expr ; assign )`. */
  function ForRestTokens(c: Expr, step: Assignment): seq<Token> {
    [Semi] + ExprSemiTokens(c) + ForStepTokens(step)
  }

  /** A whole `for` header: `for ( assign ; expr ; assign )`. */
  function ForHeadTokens(init: Assignment, c: Expr, step: Assignment): seq<Token> {
    [For, LPar] + AssignmentTokens(init) + ForRestTokens(c, step)
  }

  function StmtTokens(st: Stmt): (r: seq<Token>)
    ensures r != []
  {
    match st
    case DeclStmt => [Int, Id, Semi]
    case AssignStmt(a) => AssignmentTokens(a)
    case IfStmt(c, t, e) => IfHeadTokens(c) + StmtTokens(t) + ElseTokens(e)
    case ForStmt(i, c, step, b) => ForHeadTokens(i, c, step) + StmtTokens(b)
    case BlockStmt(b) => [LBrace] + StmtsTokens(b) + [RBrace]
  }

  function ElseTokens(e: Option<Stmt>): seq<Token> {
    match e
    case None => []
    case Some(s) => [Else] + StmtTokens(s)
  }

  function StmtsTokens(sts: seq<Stmt>): seq<Token> {
    if sts == [] then [] else StmtTokens(sts[0]) + StmtsTokens(sts[1..])
  }

  /** A `PLUS`/`MINUS` loop that ran starts with the first operator. */
  lemma {:induction false} SummandsFirst(ss: seq<Summand>)
    requires ss != []
    ensures SummandsTokens(ss) != [] && SummandsTokens(ss)[0] == AddToken(ss[0].op)
  {
  }

  /** A non-empty statement list starts where its first statement does. */
  lemma {:induction false} StmtsFirst(sts: seq<Stmt>)
    requires sts != []
    ensures StmtsTokens(sts) != [] && StmtsTokens(sts)[0] == StmtTokens(sts[0])[0]
  {
  }

  /** The tokens `_stmt_list` loops on: those that can begin a statement. */
  predicate StartsStmt(t: Option<Token>) {
    t.Some? && t.value in {Int, Id, If, For, LBrace}
  }

  /** A statement that ends in an `if` without an `else`, which an `else` after it would extend. */
  predicate OpenIf(st: Stmt) {
    match st
    case IfStmt(_, _, None) => true
    case IfStmt(_, _, Some(e)) => OpenIf(e)
    case ForStmt(_, _, _, b) => OpenIf(b)
    case _ => false
  }

  /**
   * No `if` without `else` inside the statement is directly followed by an
   * `else`: such an `else` would be taken by the inner `if`.
   */
  predicate Fits(st: Stmt) {
    match st
    case DeclStmt => true
    case AssignStmt(_) => true
    case IfStmt(_, t, None) => Fits(t)
    case IfStmt(_, t, Some(e)) => !OpenIf(t) && Fits(t) && Fits(e)
    case ForStmt(_, _, _, b) => Fits(b)
    case BlockStmt(b) => AllFit(b)
  }

  /** Every statement of the list fits. */
  predicate AllFit(sts: seq<Stmt>) {
    sts == [] || (Fits(sts[0]) && AllFit(sts[1..]))
  }

  /** What may follow a statement list: no statement start, and no `else` after a trailing open `if`. */
  predicate EndsStmts(sts: seq<Stmt>, next: Option<Token>) {
    && !StartsStmt(next)
    && (sts != [] && OpenIf(sts[|sts| - 1]) ==> next != Some(Else))
  }
}
