/**
 * The scanner and the parser put together: `Parser(scanner, flag).parse(s)`
 * on a scanner loaded with text. The parser's lookahead walks the results of
 * successive `token()` calls, which `Lex` lists in order.
 */
module FrontEnd {
  import opened Layout
  import opened Scanner
  import opened Streams
  import opened Syntax
  import opened Parser
  import opened ParseSteps

  /**
   * Parsing the text left in `sc`. When the first `token()` call, made by the
   * parser's constructor, raises the scanner error, parsing fails with that
   * error's line.
   */
  function ParseText(sc: Scanner, useSymbolTable: bool): (r: Parsed<seq<Stmt>>)
    requires Valid(sc)
    ensures NextToken(sc).Failed? ==> r == Fail(LexicalError(NextToken(sc).line))
  {
    Parse(Lex(sc), useSymbolTable)
  }

  /** Text that is only blanks and comments is the empty program, and nothing of it is left unread. */
  lemma LayoutIsEmptyProgram(sc: Scanner, useSymbolTable: bool)
    requires Valid(sc) && IsLayout(Rest(sc))
    ensures ParseText(sc, useSymbolTable) == Ok([], 0)
    ensures |Lex(sc).items| == 0
  {
    LexEmptyIffLayout(sc);
    StmtListEndUnfold(Lex(sc), 0);
  }
}
