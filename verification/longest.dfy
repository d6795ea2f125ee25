/**
 * A longest-match scanner with a keyword table: of all rules whose pattern matches a
 * prefix, take the longest match (the earlier rule on a tie), and turn an
 * identifier into a keyword afterwards by looking its text up in a keyword
 * table. `NextTokenIsLongestMatch` shows that the source's first-match table,
 * with its `\bkeyword\b` rules placed before the identifier rule, behaves
 * exactly like this on every input.
 */
module LongestMatch {
  import opened Opt
  import opened Chars
  import opened Lexemes
  import opened Patterns
  import opened Scanner

  /** The longest-match rule table: no keyword rules; keywords come from `Keywords`. */
  const LongestRules: seq<Rule> := [
    Rule(Ignore, Blanks, Idy),
    Rule(Ignore, LineComment, Idy),
    Rule(Eq, Literal("=="), Idy),
    Rule(Gt, Literal(">"), Idy),
    Rule(Lt, Literal("<"), Idy),
    Rule(LPar, Literal("("), Idy),
    Rule(RPar, Literal(")"), Idy),
    Rule(LBrace, Literal("{"), Idy),
    Rule(RBrace, Literal("}"), Idy),
    Rule(Semi, Literal(";"), Idy),
    Rule(Assign, Literal("="), Idy),
    Rule(Plus, Literal("+"), Idy),
    Rule(Minus, Literal("-"), Idy),
    Rule(Mul, Literal("*"), Idy),
    Rule(Num, Number, Idy),
    Rule(Id, Identifier, Idy)
  ]

  const Keywords: map<string, Token> := map["if" := If, "else" := Else, "for" := For, "int" := Int]

  /** An identifier whose text is a reserved word becomes that keyword; nothing else changes. */
  function Reclassify(token: Token, text: string): (r: Token)
    ensures r == token || (token == Id && text in Keywords && r in {If, Else, For, Int})
    ensures token == Id ==> (r == Id <==> text !in Keywords)
  {
    if token == Id && text in Keywords then Keywords[text] else token
  }

  /** The longest match among the rules at index `from` or later; the earliest rule wins a tie. */
  function Longest(rules: seq<Rule>, s: string, from: nat): (r: Option<Hit>)
    requires from <= |rules|
    decreases |rules| - from
    ensures r.Some? ==> from <= r.value.rule < |rules| && Match(rules[r.value.rule].pattern, s) == Some(r.value.length)
  {
    if from == |rules| then None
    else
      var later := Longest(rules, s, from + 1);
      match Match(rules[from].pattern, s)
      case None => later
      case Some(n) =>
        if later.Some? && later.value.length > n then later else Some(Hit(from, n))
  }

  /**
   * `Longest` picks a match no shorter than any other, strictly longer than
   * every match of an earlier rule, and finds none only when no rule matches.
   */
  lemma {:induction false} LongestIsLongest(rules: seq<Rule>, s: string, from: nat)
    requires from <= |rules|
    decreases |rules| - from
    ensures Longest(rules, s, from).Some? ==>
      var h := Longest(rules, s, from).value;
      && (forall j :: from <= j < |rules| && Match(rules[j].pattern, s).Some? ==> Match(rules[j].pattern, s).value <= h.length)
      && (forall j :: from <= j < h.rule && Match(rules[j].pattern, s).Some? ==> Match(rules[j].pattern, s).value < h.length)
    ensures Longest(rules, s, from).None? <==> forall j :: from <= j < |rules| ==> Match(rules[j].pattern, s).None?
  {
    if from < |rules| {
      LongestIsLongest(rules, s, from + 1);
    }
  }

  /** A rule that does not match can be passed over. */
  lemma LongestPasses(rules: seq<Rule>, s: string, i: nat)
    requires i < |rules| && Match(rules[i].pattern, s).None?
    ensures Longest(rules, s, i) == Longest(rules, s, i + 1)
  {
  }

  /** Rules whose pattern cannot start with the first character of `s` can be passed over. */
  lemma {:induction false} LongestSkips(rules: seq<Rule>, s: string, i: nat, k: nat)
    requires i <= k <= |rules| && s != []
    requires forall j :: i <= j < k ==> !Admits(rules[j].pattern, s[0])
    ensures Longest(rules, s, i) == Longest(rules, s, k)
    decreases k - i
  {
    if i < k {
      if Match(rules[i].pattern, s).Some? {
        MatchNeedsStart(rules[i].pattern, s);
      }
      LongestPasses(rules, s, i);
      LongestSkips(rules, s, i + 1, k);
    }
  }

  /** The match of rule `i` alone, as a search result. */
  function OnlyHit(rules: seq<Rule>, s: string, i: nat): (r: Option<Hit>)
    requires i < |rules|
    ensures r.Some? <==> Match(rules[i].pattern, s).Some?
    ensures r.Some? ==> r.value.rule == i && Some(r.value.length) == Match(rules[i].pattern, s)
  {
    match Match(rules[i].pattern, s)
    case None => None
    case Some(n) => Some(Hit(i, n))
  }

  /** Whether no rule of `rules` other than those in `except` can match text starting with `c`. */
  predicate OnlyAdmitters(rules: seq<Rule>, c: char, except: set<nat>) {
    forall j :: 0 <= j < |rules| && j !in except ==> !Admits(rules[j].pattern, c)
  }

  lemma FirstMatchNone(rules: seq<Rule>, s: string)
    requires s != [] && OnlyAdmitters(rules, s[0], {})
    ensures FirstMatch(rules, s, 0) == None
  {
    FirstMatchSkips(rules, s, 0, |rules|);
  }

  lemma LongestNone(rules: seq<Rule>, s: string)
    requires s != [] && OnlyAdmitters(rules, s[0], {})
    ensures Longest(rules, s, 0) == None
  {
    LongestSkips(rules, s, 0, |rules|);
  }

  /** With one candidate rule, the first-match search returns its match or nothing. */
  lemma FirstMatchOnly(rules: seq<Rule>, s: string, i: nat)
    requires s != [] && i < |rules| && OnlyAdmitters(rules, s[0], {i})
    ensures FirstMatch(rules, s, 0) == OnlyHit(rules, s, i)
  {
    FirstMatchSkips(rules, s, 0, i);
    FirstMatchSkips(rules, s, i + 1, |rules|);
  }

  /** With one candidate rule, the longest-match search returns its match or nothing. */
  lemma LongestOnly(rules: seq<Rule>, s: string, i: nat)
    requires s != [] && i < |rules| && OnlyAdmitters(rules, s[0], {i})
    ensures Longest(rules, s, 0) == OnlyHit(rules, s, i)
  {
    LongestSkips(rules, s, 0, i);
    LongestSkips(rules, s, i + 1, |rules|);
  }

  /** With two candidate rules, the first-match search prefers the earlier one whenever it matches. */
  lemma FirstMatchPair(rules: seq<Rule>, s: string, i: nat, k: nat)
    requires s != [] && i < k < |rules| && OnlyAdmitters(rules, s[0], {i, k})
    ensures FirstMatch(rules, s, 0) ==
      if Match(rules[i].pattern, s).Some? then OnlyHit(rules, s, i) else OnlyHit(rules, s, k)
  {
    FirstMatchSkips(rules, s, 0, i);
    FirstMatchSkips(rules, s, i + 1, k);
    FirstMatchSkips(rules, s, k + 1, |rules|);
  }

  /** With two candidate rules, the longest-match search prefers the earlier one unless the later is longer. */
  lemma LongestPair(rules: seq<Rule>, s: string, i: nat, k: nat)
    requires s != [] && i < k < |rules| && OnlyAdmitters(rules, s[0], {i, k})
    ensures Longest(rules, s, 0) ==
      if Match(rules[i].pattern, s).Some? && (Match(rules[k].pattern, s).None? || Match(rules[k].pattern, s).value <= Match(rules[i].pattern, s).value)
      then OnlyHit(rules, s, i) else OnlyHit(rules, s, k)
  {
    LongestSkips(rules, s, 0, i);
    LongestSkips(rules, s, i + 1, k);
    LongestSkips(rules, s, k + 1, |rules|);
  }

  /** The only rule of both tables that can match text starting with `c`, for a `c` that is neither `=` nor a word start. */
  function SoleRule(c: char): Option<nat> {
    if IsBlank(c) then Some(0)
    else if c == '/' then Some(1)
    else if c == '>' then Some(3)
    else if c == '<' then Some(4)
    else if c == '(' then Some(5)
    else if c == ')' then Some(6)
    else if c == '{' then Some(7)
    else if c == '}' then Some(8)
    else if c == ';' then Some(9)
    else if c == '+' then Some(11)
    else if c == '-' then Some(12)
    else if c == '*' then Some(13)
    else if IsDigit(c) then Some(14)
    else None
  }

  lemma SoleRuleIsSole(c: char)
    requires c != '=' && !IsIdentStart(c)
    ensures SoleRule(c).Some? ==> SoleRule(c).value < 15 && OnlyAdmitters(Rules, c, {SoleRule(c).value})
    ensures SoleRule(c).None? ==> OnlyAdmitters(Rules, c, {})
  {
  }

  lemma SoleRuleIsSoleInLongestRules(c: char)
    requires c != '=' && !IsIdentStart(c)
    ensures SoleRule(c).Some? ==> SoleRule(c).value < 15 && OnlyAdmitters(LongestRules, c, {SoleRule(c).value})
    ensures SoleRule(c).None? ==> OnlyAdmitters(LongestRules, c, {})
  {
  }

  /** Only the two rules for `==` and `=` can match text that starts with `=`. */
  lemma EqualsAdmitters()
    ensures OnlyAdmitters(Rules, '=', {2, 10}) && OnlyAdmitters(LongestRules, '=', {2, 10})
  {
  }

  lemma EqualsRules()
    ensures Rules[2] == LongestRules[2] == Rule(Eq, Literal("=="), Idy)
    ensures Rules[10] == LongestRules[10] == Rule(Assign, Literal("="), Idy)
  {
  }

  /** In the source's table only the four keyword rules and the identifier rule can match a word. */
  lemma WordAdmitters(c: char)
    requires IsIdentStart(c)
    ensures OnlyAdmitters(Rules, c, {15, 16, 17, 18, 19})
    ensures OnlyAdmitters(LongestRules, c, {15})
  {
  }

  /** The two tables agree on their first fifteen rules, none of which is the identifier rule. */
  lemma SharedRules()
    ensures forall j :: 0 <= j < 15 ==> LongestRules[j] == Rules[j] && Rules[j].token != Id
    ensures LongestRules[15] == Rule(Id, Identifier, Idy)
  {
  }

  /** The reserved words, in the order of their rules in the source's table. */
  const KeywordList: seq<string> := ["if", "else", "for", "int"]

  /** The position of `w` in `words`, or `|words|` when it does not occur. */
  function IndexOf(words: seq<string>, w: string): (r: nat)
    ensures r <= |words|
    ensures r < |words| ==> words[r] == w
    ensures forall k :: 0 <= k < r ==> words[k] != w
  {
    if words == [] then 0
    else if words[0] == w then 0
    else 1 + IndexOf(words[1..], w)
  }

  /** The rule of the source's table that a word `w` is scanned with. */
  function WordRule(w: string): nat {
    15 + IndexOf(KeywordList, w)
  }

  /** The rule a word is scanned with carries the token the keyword table gives it. */
  lemma WordRuleToken(w: string)
    ensures WordRule(w) < |Rules|
    ensures Rules[WordRule(w)].token == Reclassify(Id, w)
  {
    var k := IndexOf(KeywordList, w);
    if k < 4 {
      assert w == KeywordList[k];
    } else {
      assert w != "if" && w != "else" && w != "for" && w != "int" by {
        assert KeywordList[0] != w && KeywordList[1] != w && KeywordList[2] != w && KeywordList[3] != w;
      }
    }
  }

  /** A keyword rule takes a word exactly when the whole word is the keyword. */
  lemma FirstMatchKeywordStep(rules: seq<Rule>, t: string, i: nat, w: string)
    requires i < |rules| && rules[i].pattern == Keyword(w)
    requires w != [] && forall k :: 0 <= k < |w| ==> IsWordChar(w[k])
    requires t != [] && IsIdentStart(t[0])
    ensures FirstMatch(rules, t, i) ==
      if t[..MatchIdentifier(t).value] == w then Some(Hit(i, MatchIdentifier(t).value)) else FirstMatch(rules, t, i + 1)
  {
    KeywordMatchesWholeWord(w, t);
  }

  /** Rules `i`, `i + 1`, ... are the keyword rules for `words`, followed by the identifier rule. */
  predicate KeywordRun(rules: seq<Rule>, i: nat, words: seq<string>) {
    && i + |words| < |rules|
    && (forall k :: 0 <= k < |words| ==> rules[i + k].pattern == Keyword(words[k]))
    && (forall k :: 0 <= k < |words| ==> words[k] != [] && forall j :: 0 <= j < |words[k]| ==> IsWordChar(words[k][j]))
    && rules[i + |words|].pattern == Identifier
  }

  lemma KeywordRunTail(rules: seq<Rule>, i: nat, words: seq<string>)
    requires KeywordRun(rules, i, words) && words != []
    ensures KeywordRun(rules, i + 1, words[1..])
  {
    forall k | 0 <= k < |words[1..]|
      ensures rules[i + 1 + k].pattern == Keyword(words[1..][k])
    {
      assert rules[i + (k + 1)].pattern == Keyword(words[k + 1]);
    }
  }

  /**
   * Through a run of keyword rules ending in the identifier rule, a word is
   * taken whole, by the rule of the first keyword it equals, else by the
   * identifier rule.
   */
  lemma {:induction false} FirstMatchOnKeywordRun(rules: seq<Rule>, t: string, i: nat, words: seq<string>)
    requires KeywordRun(rules, i, words)
    requires t != [] && IsIdentStart(t[0])
    decreases |words|
    ensures FirstMatch(rules, t, i) == Some(Hit(i + IndexOf(words, t[..MatchIdentifier(t).value]), MatchIdentifier(t).value))
  {
    var w := t[..MatchIdentifier(t).value];
    if words != [] {
      assert rules[i + 0].pattern == Keyword(words[0]);
      FirstMatchKeywordStep(rules, t, i, words[0]);
      if w != words[0] {
        KeywordRunTail(rules, i, words);
        FirstMatchOnKeywordRun(rules, t, i + 1, words[1..]);
        assert IndexOf(words, w) == 1 + IndexOf(words[1..], w);
      }
    }
  }

  lemma SourceKeywordRun()
    ensures KeywordRun(Rules, 15, KeywordList)
  {
  }

  /** From the keyword rules on, a word is taken by its keyword rule, else by the identifier rule. */
  lemma FirstMatchFromKeywords(t: string)
    requires t != [] && IsIdentStart(t[0])
    ensures FirstMatch(Rules, t, 15) == Some(Hit(WordRule(t[..MatchIdentifier(t).value]), MatchIdentifier(t).value))
  {
    SourceKeywordRun();
    FirstMatchOnKeywordRun(Rules, t, 15, KeywordList);
  }

  lemma FirstMatchWordSkip(t: string)
    requires t != [] && IsIdentStart(t[0])
    ensures FirstMatch(Rules, t, 0) == FirstMatch(Rules, t, 15)
  {
    WordAdmitters(t[0]);
    FirstMatchSkips(Rules, t, 0, 15);
  }

  /**
   * The source's table takes a whole word: with the keyword's rule when the
   * word is a keyword (so `for` is FOR, while `forward` and `int_x` are
   * identifiers), else with the identifier rule.
   */
  lemma FirstMatchOnWord(t: string)
    requires t != [] && IsIdentStart(t[0])
    ensures FirstMatch(Rules, t, 0) == Some(Hit(WordRule(t[..MatchIdentifier(t).value]), MatchIdentifier(t).value))
  {
    FirstMatchWordSkip(t);
    FirstMatchFromKeywords(t);
  }

  /**
   * The two scanners take the same text with the same token: the first-match
   * scanner directly, the longest-match scanner after reclassifying keywords.
   */
  predicate Agree(f: Option<Hit>, l: Option<Hit>, t: string)
    requires f.Some? ==> f.value.rule < |Rules| && f.value.length <= |t|
    requires l.Some? ==> l.value.rule < |LongestRules|
  {
    match (f, l)
    case (None, None) => true
    case (Some(a), Some(b)) =>
      a.length == b.length && Rules[a.rule].token == Reclassify(LongestRules[b.rule].token, t[..a.length])
    case _ => false
  }

  lemma AgreeOnOnlyHit(t: string, i: nat)
    requires i < 15
    ensures Agree(OnlyHit(Rules, t, i), OnlyHit(LongestRules, t, i), t)
  {
    SharedRules();
  }

  /** What both tables make of text whose first character is neither `=` nor a word start. */
  function SoleHit(rules: seq<Rule>, t: string): Option<Hit>
    requires t != [] && |rules| >= 15
  {
    match SoleRule(t[0])
    case None => None
    case Some(i) => if i < |rules| then OnlyHit(rules, t, i) else None
  }

  lemma FirstMatchOnSoleRule(t: string)
    requires t != [] && t[0] != '=' && !IsIdentStart(t[0])
    ensures FirstMatch(Rules, t, 0) == SoleHit(Rules, t)
  {
    SoleRuleIsSole(t[0]);
    if SoleRule(t[0]).None? {
      FirstMatchNone(Rules, t);
    } else {
      FirstMatchOnly(Rules, t, SoleRule(t[0]).value);
    }
  }

  lemma LongestOnSoleRule(t: string)
    requires t != [] && t[0] != '=' && !IsIdentStart(t[0])
    ensures Longest(LongestRules, t, 0) == SoleHit(LongestRules, t)
  {
    SoleRuleIsSoleInLongestRules(t[0]);
    if SoleRule(t[0]).None? {
      LongestNone(LongestRules, t);
    } else {
      LongestOnly(LongestRules, t, SoleRule(t[0]).value);
    }
  }

  lemma AgreeOnSoleHit(t: string)
    requires t != [] && t[0] != '=' && !IsIdentStart(t[0])
    ensures Agree(SoleHit(Rules, t), SoleHit(LongestRules, t), t)
  {
    SoleRuleIsSole(t[0]);
    if SoleRule(t[0]).Some? {
      AgreeOnOnlyHit(t, SoleRule(t[0]).value);
    }
  }

  /** With a single candidate rule, both searches return that rule's match or nothing. */
  lemma AgreeOnSoleRule(t: string)
    requires t != [] && t[0] != '=' && !IsIdentStart(t[0])
    ensures Agree(FirstMatch(Rules, t, 0), Longest(LongestRules, t, 0), t)
  {
    FirstMatchOnSoleRule(t);
    LongestOnSoleRule(t);
    AgreeOnSoleHit(t);
  }

  /** What both tables make of text that starts with `=`. */
  function EqualsHit(t: string): Hit {
    if |t| >= 2 && t[1] == '=' then Hit(2, 2) else Hit(10, 1)
  }

  lemma FirstMatchOnEqualsPair(t: string)
    requires t != [] && t[0] == '='
    ensures FirstMatch(Rules, t, 0) ==
      if Match(Rules[2].pattern, t).Some? then OnlyHit(Rules, t, 2) else OnlyHit(Rules, t, 10)
  {
    EqualsAdmitters();
    FirstMatchPair(Rules, t, 2, 10);
  }

  lemma LongestOnEqualsPair(t: string)
    requires t != [] && t[0] == '='
    ensures Longest(LongestRules, t, 0) ==
      if Match(LongestRules[2].pattern, t).Some? && (Match(LongestRules[10].pattern, t).None? || Match(LongestRules[10].pattern, t).value <= Match(LongestRules[2].pattern, t).value)
      then OnlyHit(LongestRules, t, 2) else OnlyHit(LongestRules, t, 10)
  {
    EqualsAdmitters();
    LongestPair(LongestRules, t, 2, 10);
  }

  /** On text that starts with `=`, the rule for `==` needs a second `=` and the rule for `=` always matches. */
  lemma EqualsMatches(t: string)
    requires t != [] && t[0] == '='
    ensures Match(Literal("=="), t) == if |t| >= 2 && t[1] == '=' then Some(2) else None
    ensures Match(Literal("="), t) == Some(1)
  {
  }

  /** `==` is taken whole by the source's table; a lone `=` is an assignment. */
  lemma FirstMatchOnEquals(t: string)
    requires t != [] && t[0] == '='
    ensures FirstMatch(Rules, t, 0) == Some(EqualsHit(t))
  {
    FirstMatchOnEqualsPair(t);
    EqualsRules();
    EqualsMatches(t);
  }

  /** `==` is the longer match for the longest-match table; a lone `=` is an assignment. */
  lemma LongestOnEquals(t: string)
    requires t != [] && t[0] == '='
    ensures Longest(LongestRules, t, 0) == Some(EqualsHit(t))
  {
    LongestOnEqualsPair(t);
    EqualsRules();
    EqualsMatches(t);
  }

  lemma AgreeOnEquals(t: string)
    requires t != [] && t[0] == '='
    ensures Agree(FirstMatch(Rules, t, 0), Longest(LongestRules, t, 0), t)
  {
    FirstMatchOnEquals(t);
    LongestOnEquals(t);
    EqualsRules();
  }

  lemma LongestWordSkip(t: string)
    requires t != [] && IsIdentStart(t[0])
    ensures Longest(LongestRules, t, 0) == OnlyHit(LongestRules, t, 15)
  {
    WordAdmitters(t[0]);
    LongestOnly(LongestRules, t, 15);
  }

  lemma IdentifierHit(t: string)
    requires t != [] && IsIdentStart(t[0])
    ensures OnlyHit(LongestRules, t, 15) == Some(Hit(15, MatchIdentifier(t).value))
    ensures LongestRules[15].token == Id
  {
  }

  /** The longest-match table takes a whole word with the identifier rule. */
  lemma LongestOnWord(t: string)
    requires t != [] && IsIdentStart(t[0])
    ensures Longest(LongestRules, t, 0) == Some(Hit(15, MatchIdentifier(t).value))
    ensures LongestRules[15].token == Id
  {
    LongestWordSkip(t);
    IdentifierHit(t);
  }

  /** A word is taken whole by both scanners, and is a keyword for one exactly when it is for the other. */
  lemma AgreeOnWord(t: string)
    requires t != [] && IsIdentStart(t[0])
    ensures Agree(FirstMatch(Rules, t, 0), Longest(LongestRules, t, 0), t)
  {
    FirstMatchOnWord(t);
    LongestOnWord(t);
    WordRuleToken(t[..MatchIdentifier(t).value]);
  }

  lemma AgreeEverywhere(t: string)
    requires t != []
    ensures Agree(FirstMatch(Rules, t, 0), Longest(LongestRules, t, 0), t)
  {
    if t[0] == '=' {
      AgreeOnEquals(t);
    } else if IsIdentStart(t[0]) {
      AgreeOnWord(t);
    } else {
      AgreeOnSoleRule(t);
    }
  }

  /** Every rule of the longest-match table matches only non-empty text. */
  lemma LongestRuleMatchesNonEmpty(i: nat)
    requires i < |LongestRules|
    ensures NonEmptyMatches(LongestRules[i].pattern)
  {
  }

  /** The longest-match search: the longest match, with an identifier reclassified by the keyword table. */
  function LongestSearch(s: string): (r: Option<Choice>)
    ensures r.Some? <==> Longest(LongestRules, s, 0).Some?
    ensures r.Some? ==>
      && r.value.length == Longest(LongestRules, s, 0).value.length
      && r.value.token == Reclassify(LongestRules[Longest(LongestRules, s, 0).value.rule].token, s[..r.value.length])
      && 0 < r.value.length <= |s|
  {
    match Longest(LongestRules, s, 0)
    case None => None
    case Some(h) =>
      LongestRuleMatchesNonEmpty(h.rule);
      Some(Choice(Reclassify(LongestRules[h.rule].token, s[..h.length]), Idy, h.length))
  }

  lemma LongestSearchIsValid()
    ensures ValidSearch(LongestSearch)
  {
  }

  /** One call of the longest-match scanner with keyword lookup. */
  function ReferenceToken(sc: Scanner): (r: Scanned)
    requires Valid(sc)
    ensures r.Emit? ==> sc.pos < r.next.pos && r.lexeme.value != [] && r.lexeme.token != Ignore
  {
    LongestSearchIsValid();
    Scan(sc, LongestSearch)
  }

  /** The two searches return the same choice on every non-empty text. */
  lemma SearchesAgree(s: string)
    requires s != []
    ensures TableSearch(s) == LongestSearch(s)
  {
    AgreeEverywhere(s);
    var f := FirstMatch(Rules, s, 0);
    if f.Some? {
      var a := Rules[f.value.rule].action;
      assert a == Idy by { match a case Idy => }
    }
  }

  /** Two searches that agree on non-empty text make the same scanner. */
  lemma {:induction false} ScanRespectsSearch(sc: Scanner, a: string -> Option<Choice>, b: string -> Option<Choice>)
    requires Valid(sc) && ValidSearch(a) && ValidSearch(b)
    requires forall s :: s != [] ==> a(s) == b(s)
    decreases |sc.input| - sc.pos, 1
    ensures Scan(sc, a) == Scan(sc, b)
  {
    AfterBlanksRespectsSearch(SkipBlanks(sc), a, b);
  }

  lemma {:induction false} AfterBlanksRespectsSearch(t: Scanner, a: string -> Option<Choice>, b: string -> Option<Choice>)
    requires Valid(t) && ValidSearch(a) && ValidSearch(b)
    requires forall s :: s != [] ==> a(s) == b(s)
    decreases |t.input| - t.pos, 0
    ensures ScanAfterBlanks(t, a) == ScanAfterBlanks(t, b)
  {
    if t.pos < |t.input| {
      var s := t.input[t.pos..];
      assert a(s) == b(s);
      if a(s).Some? && a(s).value.token == Ignore {
        ScanAfterLayout(t, a);
        ScanAfterLayout(t, b);
        ScanRespectsSearch(Resume(t, a(s).value.length), a, b);
      }
    }
  }

  /** The source's first-match scanner is the longest-match scanner with keyword lookup. */
  lemma NextTokenIsLongestMatch(sc: Scanner)
    requires Valid(sc)
    ensures NextToken(sc) == ReferenceToken(sc)
  {
    TableSearchIsValid();
    LongestSearchIsValid();
    forall s | s != []
      ensures TableSearch(s) == LongestSearch(s)
    {
      SearchesAgree(s);
    }
    ScanRespectsSearch(sc, TableSearch, LongestSearch);
  }
}
