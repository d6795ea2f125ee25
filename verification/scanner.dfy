/**
 * The scanner of scanner.py: a cursor over the remaining source text with a
 * line counter, the fixed rule table, and the step `NextToken` (the source's
 * `Scanner.token`) that returns one lexeme per call.
 */
module Scanner {
  import opened Opt
  import opened Chars
  import opened Lexemes
  import opened Patterns

  /** The per-rule action. Every rule of the table uses `idy`, which returns its lexeme unchanged. */
  datatype Action = Idy

  function Apply(a: Action, l: Lexeme): Lexeme {
    match a
    case Idy => l
  }

  datatype Rule = Rule(token: Token, pattern: Pattern, action: Action)

  /** The rule table, in the order in which the scanner tries the rules. */
  const Rules: seq<Rule> := [
    Rule(Ignore, Blanks, Idy),
    Rule(Ignore, LineComment, Idy),
    Rule(Eq, Literal("=="), Idy),
    Rule(Gt, Literal(">"), Idy),
    Rule(Lt, Literal("<"), Idy),
    Rule(LPar, Literal("("), Idy),
    Rule(RPar, Literal(")"), Idy),
    Rule(LBrace, Literal("{"), Idy),
    Rule(RBrace, Literal("}"), Idy),
    Rule(Semi, Literal(";"), Idy),
    Rule(Assign, Literal("="), Idy),
    Rule(Plus, Literal("+"), Idy),
    Rule(Minus, Literal("-"), Idy),
    Rule(Mul, Literal("*"), Idy),
    Rule(Num, Number, Idy),
    Rule(If, Keyword("if"), Idy),
    Rule(Else, Keyword("else"), Idy),
    Rule(For, Keyword("for"), Idy),
    Rule(Int, Keyword("int"), Idy),
    Rule(Id, Identifier, Idy)
  ]

  /**
   * The scanner's state: the text given to `input_string`, how much of it has
   * been consumed, and the current line number. The source keeps only the
   * unconsumed part, which is `Rest`.
   */
  datatype Scanner = Scanner(input: string, pos: nat, line: int)

  predicate Valid(sc: Scanner) {
    sc.pos <= |sc.input|
  }

  /** The source's `istring`: the text not yet consumed. */
  function Rest(sc: Scanner): string
    requires Valid(sc)
  {
    sc.input[sc.pos..]
  }

  /** A fresh scanner: no input yet, on line 1. */
  function NewScanner(): (r: Scanner)
    ensures Valid(r) && Rest(r) == [] && GetLineno(r) == 1
  {
    Scanner("", 0, 1)
  }

  /** Replaces the input; the line counter is left as it is. */
  function InputString(sc: Scanner, input: string): (r: Scanner)
    ensures Valid(r) && Rest(r) == input && GetLineno(r) == GetLineno(sc)
  {
    Scanner(input, 0, sc.line)
  }

  function GetLineno(sc: Scanner): int {
    sc.line
  }

  /**
   * The line the input started on: the line counter less the line feeds
   * consumed so far. Every step of the scanner keeps it.
   */
  function StartLine(sc: Scanner): int
    requires Valid(sc)
  {
    sc.line - CountNewlines(sc.input[..sc.pos])
  }

  /** Rule `rule` of the table matched a prefix of `length` characters. */
  datatype Hit = Hit(rule: nat, length: nat)

  /** The first rule at index `from` or later whose pattern matches a prefix of `s`. */
  function FirstMatch(rules: seq<Rule>, s: string, from: nat): (r: Option<Hit>)
    requires from <= |rules|
    decreases |rules| - from
    ensures r.Some? ==> from <= r.value.rule < |rules| && r.value.length <= |s|
  {
    if from == |rules| then None
    else match Match(rules[from].pattern, s)
      case Some(n) => Some(Hit(from, n))
      case None => FirstMatch(rules, s, from + 1)
  }

  /** The rule `FirstMatch` finds matches, and its match is the hit's length. */
  lemma {:induction false} FirstMatchMatches(rules: seq<Rule>, s: string, from: nat)
    requires from <= |rules| && FirstMatch(rules, s, from).Some?
    decreases |rules| - from
    ensures Match(rules[FirstMatch(rules, s, from).value.rule].pattern, s) == Some(FirstMatch(rules, s, from).value.length)
  {
    if Match(rules[from].pattern, s).None? {
      FirstMatchMatches(rules, s, from + 1);
    }
  }

  /**
   * `FirstMatch` finds the matching rule with the smallest index, and finds
   * none only when no rule matches.
   */
  lemma {:induction false} FirstMatchIsFirst(rules: seq<Rule>, s: string, from: nat)
    requires from <= |rules|
    decreases |rules| - from
    ensures FirstMatch(rules, s, from).Some? ==>
      forall j :: from <= j < FirstMatch(rules, s, from).value.rule ==> Match(rules[j].pattern, s).None?
    ensures FirstMatch(rules, s, from).None? <==> forall j :: from <= j < |rules| ==> Match(rules[j].pattern, s).None?
  {
    if from < |rules| {
      FirstMatchIsFirst(rules, s, from + 1);
    }
  }

  /** A rule that does not match can be passed over. */
  lemma FirstMatchPasses(rules: seq<Rule>, s: string, i: nat)
    requires i < |rules| && Match(rules[i].pattern, s).None?
    ensures FirstMatch(rules, s, i) == FirstMatch(rules, s, i + 1)
  {
  }

  /** Rules whose pattern cannot start with the first character of `s` can be passed over. */
  lemma {:induction false} FirstMatchSkips(rules: seq<Rule>, s: string, i: nat, k: nat)
    requires i <= k <= |rules| && s != []
    requires forall j :: i <= j < k ==> !Admits(rules[j].pattern, s[0])
    ensures FirstMatch(rules, s, i) == FirstMatch(rules, s, k)
    decreases k - i
  {
    if i < k {
      if Match(rules[i].pattern, s).Some? {
        MatchNeedsStart(rules[i].pattern, s);
      }
      FirstMatchPasses(rules, s, i);
      FirstMatchSkips(rules, s, i + 1, k);
    }
  }

  /** The line feeds before position `i + 1` are those before `i` and possibly the one at `i`. */
  lemma CountNewlinesStep(s: string, i: nat)
    requires i < |s|
    ensures CountNewlines(s[..i + 1]) == CountNewlines(s[..i]) + (if s[i] == '\n' then 1 else 0)
  {
    assert s[..i + 1] == s[..i] + [s[i]];
    CountNewlinesAppend(s[..i], [s[i]]);
  }

  /** The line feeds before `j` are those before `i` and those between `i` and `j`. */
  lemma CountNewlinesSplit(s: string, i: nat, j: nat)
    requires i <= j <= |s|
    ensures CountNewlines(s[..j]) == CountNewlines(s[..i]) + CountNewlines(s[i..j])
  {
    assert s[..j] == s[..i] + s[i..j];
    CountNewlinesAppend(s[..i], s[i..j]);
  }

  /**
   * The skip loop at the top of `token`: drops blanks one by one, counting
   * line feeds. It stops at the first character that is not blank.
   */
  function SkipBlanks(sc: Scanner): (r: Scanner)
    requires Valid(sc)
    decreases |sc.input| - sc.pos
    ensures Valid(r) && r.input == sc.input && sc.pos <= r.pos
  {
    if sc.pos < |sc.input| && IsBlank(sc.input[sc.pos]) then
      SkipBlanks(Scanner(sc.input, sc.pos + 1, if sc.input[sc.pos] == '\n' then sc.line + 1 else sc.line))
    else
      sc
  }

  /** The skip loop passes over blanks only, and stops at the end of input or at a character that is not blank. */
  lemma {:induction false} SkipBlanksSkipsRun(sc: Scanner)
    requires Valid(sc)
    decreases |sc.input| - sc.pos
    ensures var r := SkipBlanks(sc);
      && (forall i :: sc.pos <= i < r.pos ==> IsBlank(sc.input[i]))
      && (r.pos == |sc.input| || !IsBlank(sc.input[r.pos]))
  {
    if sc.pos < |sc.input| && IsBlank(sc.input[sc.pos]) {
      SkipBlanksSkipsRun(Scanner(sc.input, sc.pos + 1, if sc.input[sc.pos] == '\n' then sc.line + 1 else sc.line));
    }
  }

  /** The skip loop counts every line feed it passes. */
  lemma {:induction false} SkipBlanksKeepsStartLine(sc: Scanner)
    requires Valid(sc)
    decreases |sc.input| - sc.pos
    ensures StartLine(SkipBlanks(sc)) == StartLine(sc)
  {
    if sc.pos < |sc.input| && IsBlank(sc.input[sc.pos]) {
      CountNewlinesStep(sc.input, sc.pos);
      SkipBlanksKeepsStartLine(Scanner(sc.input, sc.pos + 1, if sc.input[sc.pos] == '\n' then sc.line + 1 else sc.line));
    }
  }

  /** Every rule in the table matches only non-empty text. */
  lemma RuleMatchesNonEmpty(i: nat)
    requires i < |Rules|
    ensures NonEmptyMatches(Rules[i].pattern)
  {
  }

  /** A pattern whose matches never contain a line feed. */
  predicate SingleLine(p: Pattern) {
    match p
    case Blanks => false
    case LineComment => false
    case Literal(t) => '\n' !in t
    case Number => true
    case Keyword(w) => '\n' !in w
    case Identifier => true
  }

  lemma SingleLineMatch(p: Pattern, s: string, n: nat)
    requires SingleLine(p) && Match(p, s) == Some(n)
    ensures '\n' !in s[..n]
  {
    match p
    case Number =>
      NumberMatchIsGreedy(s);
      assert forall k :: 0 <= k < n ==> s[..n][k] == s[k];
    case Identifier =>
      IdentifierMatchIsMaximal(s);
      assert forall k :: 0 <= k < n ==> s[..n][k] == s[k];
    case Literal(t) =>
    case Keyword(w) =>
  }

  /** Only the two layout rules can match a line feed. */
  lemma TokenRuleIsSingleLine(i: nat)
    requires i < |Rules| && Rules[i].token != Ignore
    ensures SingleLine(Rules[i].pattern)
  {
  }

  /** The outcome of one call of `token`. */
  datatype Scanned =
    | Emit(lexeme: Lexeme, next: Scanner)  // a lexeme is returned
    | Exhausted(next: Scanner)             // `None` is returned: nothing but layout was left
    | Failed(line: int)                    // `ScannerException(lineno)` is raised

  /** What a search through the rule table found at the head of the text. */
  datatype Choice = Choice(token: Token, action: Action, length: nat)

  /** A search that takes a non-empty prefix of the text whenever it finds anything. */
  ghost predicate ValidSearch(search: string -> Option<Choice>) {
    forall s :: search(s).Some? ==> 0 < search(s).value.length <= |s|
  }

  /**
   * The body of `token` for a given way of searching the table: skip blanks,
   * then look at what follows them.
   */
  function Scan(sc: Scanner, search: string -> Option<Choice>): (r: Scanned)
    requires Valid(sc) && ValidSearch(search)
    decreases |sc.input| - sc.pos, 1
    ensures r.Emit? ==> Valid(r.next) && r.next.input == sc.input && sc.pos < r.next.pos
    ensures r.Emit? ==> r.lexeme.value != [] && r.lexeme.token != Ignore
    ensures r.Exhausted? ==> Valid(r.next) && r.next.input == sc.input && r.next.pos == |sc.input|
  {
    ScanAfterBlanks(SkipBlanks(sc), search)
  }

  /**
   * The rest of `token` once blanks are skipped: report the end of input, else
   * search; a layout match is dropped (its line feeds counted) and `token`
   * starts over; anything else is returned after its action is applied.
   */
  function ScanAfterBlanks(t: Scanner, search: string -> Option<Choice>): (r: Scanned)
    requires Valid(t) && ValidSearch(search)
    decreases |t.input| - t.pos, 0
    ensures r.Emit? ==> Valid(r.next) && r.next.input == t.input && t.pos < r.next.pos
    ensures r.Emit? ==> r.lexeme.value != [] && r.lexeme.token != Ignore
    ensures r.Exhausted? ==> Valid(r.next) && r.next.input == t.input && r.next.pos == |t.input|
  {
    if t.pos == |t.input| then Exhausted(t)
    else
      match search(t.input[t.pos..])
      case None => Failed(t.line)
      case Some(c) =>
        if c.token == Ignore then
          Scan(Resume(t, c.length), search)
        else
          var end := t.pos + c.length;
          Emit(Apply(c.action, Lexeme(c.token, t.input[t.pos..end])), Scanner(t.input, end, t.line))
  }

  /** Where the scan resumes after a layout match of `length` characters at the head of `t`'s remainder. */
  function Resume(t: Scanner, length: nat): (r: Scanner)
    requires t.pos + length <= |t.input|
    ensures Valid(r) && r.input == t.input && r.pos == t.pos + length
  {
    Scanner(t.input, t.pos + length, t.line + CountNewlines(t.input[t.pos..t.pos + length]))
  }

  /** After a layout match, `token` calls itself on what follows the match. */
  lemma ScanAfterLayout(t: Scanner, search: string -> Option<Choice>)
    requires Valid(t) && ValidSearch(search) && t.pos < |t.input|
    requires search(t.input[t.pos..]).Some? && search(t.input[t.pos..]).value.token == Ignore
    ensures ScanAfterBlanks(t, search) == Scan(Resume(t, search(t.input[t.pos..]).value.length), search)
  {
  }

  /** The source's search: the first rule of the table, in table order, whose pattern matches. */
  function TableSearch(s: string): (r: Option<Choice>)
    ensures r.Some? <==> FirstMatch(Rules, s, 0).Some?
    ensures r.Some? ==>
      && r.value.length == FirstMatch(Rules, s, 0).value.length
      && r.value.token == Rules[FirstMatch(Rules, s, 0).value.rule].token
      && 0 < r.value.length <= |s|
  {
    match FirstMatch(Rules, s, 0)
    case None => None
    case Some(h) =>
      RuleMatchesNonEmpty(h.rule);
      FirstMatchMatches(Rules, s, 0);
      Some(Choice(Rules[h.rule].token, Rules[h.rule].action, h.length))
  }

  lemma TableSearchIsValid()
    ensures ValidSearch(TableSearch)
  {
  }

  /** One call of `token` on the source's rule table. */
  function NextToken(sc: Scanner): (r: Scanned)
    requires Valid(sc)
    ensures r.Emit? ==> Valid(r.next) && r.next.input == sc.input && sc.pos < r.next.pos
    ensures r.Emit? ==> r.lexeme.value != [] && r.lexeme.token != Ignore
    ensures r.Exhausted? ==> Valid(r.next) && r.next.input == sc.input && r.next.pos == |sc.input|
  {
    TableSearchIsValid();
    Scan(sc, TableSearch)
  }
}
