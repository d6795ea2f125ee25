/**
 * The parser of parser.py on a few lexeme streams written out by hand, all on
 * line 1: what it accepts, where it stops, and what it reports.
 */
module ParseExamples {
  import opened Opt
  import opened Lexemes
  import opened Streams
  import opened Syntax
  import opened Parser
  import opened ParseSteps
  import opened ParseErrors
  import opened ParseTheorems

  function L(t: Token, text: string): Item {
    Item(Lexeme(t, text), 1)
  }

  /** `int x; }`: one declaration is accepted and the stray `}` is never read. */
  function TrailingBrace(): Stream {
    Stream([L(Int, "int"), L(Id, "x"), L(Semi, ";"), L(RBrace, "}")], AtEof(1))
  }

  lemma {:induction false} TrailingBraceAccepted(useSymbolTable: bool)
    ensures Parse(TrailingBrace(), useSymbolTable) == Ok([DeclStmt], 3)
  {
    var s := TrailingBrace();
    DeclIff(s, 0, 3);
    StmtUnfold(s, 0);
    StmtListEndUnfold(s, 3);
    StmtListUnfold(s, 0, DeclStmt, [], 3, 3);
    assert [DeclStmt] + [] == [DeclStmt];
  }

  /** `int x x;`: the declaration wants `;` where the second `x` stands. */
  function DoubleName(): Stream {
    Stream([L(Int, "int"), L(Id, "x"), L(Id, "x"), L(Semi, ";")], AtEof(1))
  }

  lemma {:induction false} DoubleNameRejected(useSymbolTable: bool)
    ensures Parse(DoubleName(), useSymbolTable) == Fail(SyntaxError(1, Lexeme(Id, "x"), [Semi]))
  {
    var s := DoubleName();
    DeclExpectsSemi(s, 0);
    StmtUnfold(s, 0);
  }

  /** `int` followed by text the scanner rejects: the error surfaces once `INT` is matched. */
  function BadAfterInt(): Stream {
    Stream([L(Int, "int")], AtError(1))
  }

  lemma {:induction false} BadAfterIntRejected(useSymbolTable: bool)
    ensures Parse(BadAfterInt(), useSymbolTable) == Fail(LexicalError(1))
  {
    var s := BadAfterInt();
    StmtUnfold(s, 0);
  }

  /** No lexemes at all: the empty program. */
  lemma {:induction false} EmptyAccepted(line: int, useSymbolTable: bool)
    ensures Parse(Stream([], AtEof(line)), useSymbolTable) == Ok([], 0)
  {
    StmtListEndUnfold(Stream([], AtEof(line)), 0);
  }
}
