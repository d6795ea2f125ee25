/**
 * The lexemes the parser reads: what successive calls of `Scanner.token`
 * (scanner.py) return, each with the scanner's line counter right after it,
 * and how the calls ended, at the end of input or with the scanner error.
 *
 * The scanner never depends on the parser, so the whole sequence of calls can
 * be made up front; the parser looks at item `p` only once it has matched the
 * items before it, which keeps the order in which the source meets errors.
 */
module Streams {
  import opened Chars
  import opened Lexemes
  import opened Layout
  import opened Scanner
  import opened TokenFacts

  /** A returned lexeme and the value of `get_lineno()` just after it was returned. */
  datatype Item = Item(lexeme: Lexeme, line: int)

  /** How the calls ended: `token()` returned `None`, or raised `ScannerException(line)`. */
  datatype End = AtEof(line: int) | AtError(line: int)

  datatype Stream = Stream(items: seq<Item>, end: End)

  /** Calls `token()` until it returns `None` or raises. */
  function Lex(sc: Scanner): (r: Stream)
    requires Valid(sc)
    decreases |sc.input| - sc.pos
  {
    match NextToken(sc)
    case Emit(l, next) =>
      var rest := Lex(next);
      Stream([Item(l, next.line)] + rest.items, rest.end)
    case Exhausted(next) => Stream([], AtEof(next.line))
    case Failed(line) => Stream([], AtError(line))
  }

  /** The text the calls skipped before each lexeme, and at the end of input after the last one. */
  ghost function Gaps(sc: Scanner): (r: seq<string>)
    requires Valid(sc)
    decreases |sc.input| - sc.pos
  {
    match NextToken(sc)
    case Emit(_, next) => [SkippedText(sc)] + Gaps(next)
    case Exhausted(_) => [Rest(sc)]
    case Failed(_) => [SkippedText(sc)]
  }

  /** The text from where the scanner error was raised on; empty when the input was used up. */
  ghost function Leftover(sc: Scanner): (r: string)
    requires Valid(sc)
    decreases |sc.input| - sc.pos
  {
    match NextToken(sc)
    case Emit(_, next) => Leftover(next)
    case Exhausted(_) => []
    case Failed(_) => sc.input[TokenStart(sc)..]
  }

  /** The skipped pieces with the lexeme values in between: `gaps[0] + v0 + gaps[1] + v1 + ... + gaps[n]`. */
  function Weave(gaps: seq<string>, items: seq<Item>): string
    requires |gaps| == |items| + 1
  {
    if items == [] then gaps[0] else gaps[0] + items[0].lexeme.value + Weave(gaps[1..], items[1..])
  }

  ghost predicate AllLayout(gaps: seq<string>) {
    forall i :: 0 <= i < |gaps| ==> IsLayout(gaps[i])
  }

  /** A real lexeme: never `IGNORE`, never empty, on one line. */
  predicate RealLexeme(l: Lexeme) {
    l.token != Ignore && l.value != [] && CountNewlines(l.value) == 0
  }

  /** Every item carries a real lexeme. */
  lemma {:induction false} LexGivesLexemes(sc: Scanner)
    requires Valid(sc)
    decreases |sc.input| - sc.pos
    ensures forall i :: 0 <= i < |Lex(sc).items| ==> RealLexeme(Lex(sc).items[i].lexeme)
  {
    var r := NextToken(sc);
    if r.Emit? {
      assert RealLexeme(r.lexeme) by {
        NextTokenConsumes(sc);
      }
      LexGivesLexemes(r.next);
      var items := Lex(sc).items;
      var rest := Lex(r.next).items;
      assert items == [Item(r.lexeme, r.next.line)] + rest;
      forall i | 0 <= i < |items| ensures RealLexeme(items[i].lexeme) {
        if i == 0 {
          assert items[0].lexeme == r.lexeme;
        } else {
          assert items[i] == rest[i - 1];
        }
      }
    }
  }

  /** What the round trip states about the calls made from `sc` on. */
  ghost predicate Reassembles(sc: Scanner)
    requires Valid(sc)
  {
    && |Gaps(sc)| == |Lex(sc).items| + 1
    && AllLayout(Gaps(sc))
    && Rest(sc) == Weave(Gaps(sc), Lex(sc).items) + Leftover(sc)
    && (Lex(sc).end.AtEof? ==> Leftover(sc) == [])
    && (Lex(sc).end.AtError? ==> NoRuleMatches(Leftover(sc)))
  }

  lemma WeaveCons(gap: string, gaps: seq<string>, item: Item, items: seq<Item>)
    requires |gaps| == |items| + 1
    ensures Weave([gap] + gaps, [item] + items) == gap + item.lexeme.value + Weave(gaps, items)
  {
    assert ([gap] + gaps)[1..] == gaps;
    assert ([item] + items)[1..] == items;
  }

  lemma AllLayoutCons(gap: string, gaps: seq<string>)
    requires IsLayout(gap) && AllLayout(gaps)
    ensures AllLayout([gap] + gaps)
  {
    forall i | 0 <= i < |[gap] + gaps| ensures IsLayout(([gap] + gaps)[i]) {
      if i > 0 {
        assert ([gap] + gaps)[i] == gaps[i - 1];
      }
    }
  }

  /** One returned lexeme keeps the round trip: its skipped text and value come first. */
  lemma ReassemblesStep(sc: Scanner)
    requires Valid(sc) && NextToken(sc).Emit? && Reassembles(NextToken(sc).next)
    ensures Reassembles(sc)
  {
    var r := NextToken(sc);
    var next := r.next;
    var skipped := SkippedText(sc);
    var value := r.lexeme.value;
    var g := Gaps(next);
    var items := Lex(next).items;
    var item := Item(r.lexeme, next.line);
    assert Gaps(sc) == [skipped] + g;
    assert Lex(sc).items == [item] + items && Lex(sc).end == Lex(next).end;
    assert Leftover(sc) == Leftover(next);
    assert IsLayout(skipped) && Rest(sc) == skipped + value + Rest(next) by {
      NextTokenConsumes(sc);
    }
    assert Weave([skipped] + g, [item] + items) == skipped + value + Weave(g, items) by {
      WeaveCons(skipped, g, item, items);
    }
    assert AllLayout([skipped] + g) by {
      AllLayoutCons(skipped, g);
    }
    assert Rest(next) == Weave(g, items) + Leftover(next);
    Regroup(skipped, value, Weave(g, items), Leftover(next));
  }

  lemma Regroup(a: string, b: string, c: string, d: string)
    ensures a + b + (c + d) == (a + b + c) + d
  {
  }

  /** At the end of input the round trip holds with no lexeme: the rest is layout. */
  lemma ReassemblesAtEof(sc: Scanner)
    requires Valid(sc) && NextToken(sc).Exhausted?
    ensures Reassembles(sc)
  {
    assert IsLayout(Rest(sc)) by {
      ExhaustedMeansLayout(sc);
    }
    assert Gaps(sc) == [Rest(sc)] && Lex(sc).items == [] && Leftover(sc) == [];
  }

  /** At the scanner error the round trip holds with no lexeme: layout, then text no rule matches. */
  lemma ReassemblesAtError(sc: Scanner)
    requires Valid(sc) && NextToken(sc).Failed?
    ensures Reassembles(sc)
  {
    var k := TokenStart(sc);
    assert IsLayout(sc.input[sc.pos..k]) && NoRuleMatches(sc.input[k..]) by {
      FailedMeansNoRule(sc);
    }
    assert Gaps(sc) == [SkippedText(sc)];
    assert Lex(sc).items == [];
    assert Leftover(sc) == sc.input[k..];
    assert Rest(sc) == sc.input[sc.pos..k] + sc.input[k..];
  }

  /**
   * Round trip: the skipped layout and the lexeme values, interleaved, give
   * back the text, up to where the scanner error was raised if it was.
   */
  lemma {:induction false} LexReassembles(sc: Scanner)
    requires Valid(sc)
    decreases |sc.input| - sc.pos
    ensures Reassembles(sc)
  {
    var r := NextToken(sc);
    if r.Emit? {
      LexReassembles(r.next);
      ReassemblesStep(sc);
    } else if r.Exhausted? {
      ReassemblesAtEof(sc);
    } else {
      ReassemblesAtError(sc);
    }
  }

  /** The line counter ends up grown by exactly the line feeds of the text it scanned. */
  lemma {:induction false} LexCountsLines(sc: Scanner)
    requires Valid(sc)
    decreases |sc.input| - sc.pos
    ensures var r := Lex(sc);
      r.end.AtEof? ==> r.end.line == sc.line + CountNewlines(Rest(sc))
  {
    var r := NextToken(sc);
    match r
    case Emit(l, next) =>
      NextTokenConsumes(sc);
      LexCountsLines(next);
      CountNewlinesAppend(SkippedText(sc) + l.value, Rest(next));
    case Exhausted(next) =>
      ExhaustedMeansLayout(sc);
    case Failed(_) =>
  }

  /** The line numbers reported along the stream never go down. */
  lemma {:induction false} LexLinesGrow(sc: Scanner)
    requires Valid(sc)
    decreases |sc.input| - sc.pos
    ensures forall i :: 0 <= i < |Lex(sc).items| ==> sc.line <= Lex(sc).items[i].line <= Lex(sc).end.line
    ensures forall i, j :: 0 <= i <= j < |Lex(sc).items| ==> Lex(sc).items[i].line <= Lex(sc).items[j].line
  {
    var r := NextToken(sc);
    if r.Emit? {
      var next := r.next;
      assert sc.line <= next.line by {
        NextTokenConsumes(sc);
      }
      LexLinesGrow(next);
      LexEndLine(next);
      var items := Lex(sc).items;
      var rest := Lex(next).items;
      assert items == [Item(r.lexeme, next.line)] + rest;
      assert Lex(sc).end == Lex(next).end;
      forall i | 0 <= i < |items| ensures next.line <= items[i].line <= Lex(sc).end.line {
        if i > 0 {
          assert items[i] == rest[i - 1];
        }
      }
      forall i, j | 0 <= i <= j < |items| ensures items[i].line <= items[j].line {
        if i > 0 {
          assert items[i] == rest[i - 1] && items[j] == rest[j - 1];
        }
      }
    }
  }

  /** The final line is at least the starting one. */
  lemma {:induction false} LexEndLine(sc: Scanner)
    requires Valid(sc)
    decreases |sc.input| - sc.pos
    ensures sc.line <= Lex(sc).end.line
  {
    var r := NextToken(sc);
    match r
    case Emit(l, next) =>
      NextTokenConsumes(sc);
      LexEndLine(next);
    case Exhausted(next) =>
      ExhaustedMeansLayout(sc);
    case Failed(_) =>
      FailedMeansNoRule(sc);
  }

  /** No lexeme at all, and no error, exactly when the text is layout. */
  lemma LexEmptyIffLayout(sc: Scanner)
    requires Valid(sc)
    ensures Lex(sc).items == [] && Lex(sc).end.AtEof? <==> IsLayout(Rest(sc))
  {
    ExhaustedIffLayout(sc);
  }
}
