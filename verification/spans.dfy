/**
 * Which tokens stand in the lexeme stream between two positions: the link
 * between the derivations of the grammar, which are token sequences, and the
 * positions the parse functions move through.
 */
module TokenSpans {
  import opened Opt
  import opened Lexemes
  import opened Streams
  import opened Parser

  /** The tokens of the stream's lexemes. */
  function Tokens(s: Stream): (r: seq<Token>)
    ensures |r| == |s.items|
  {
    TokensOf(s.items)
  }

  function TokensOf(items: seq<Item>): (r: seq<Token>)
    ensures |r| == |items|
  {
    if items == [] then [] else [items[0].lexeme.token] + TokensOf(items[1..])
  }

  /** Token `i` of the stream is the token of its lexeme `i`. */
  lemma {:induction false} TokensOfAt(items: seq<Item>, i: nat)
    requires i < |items|
    ensures TokensOf(items)[i] == items[i].lexeme.token
  {
    if i > 0 {
      TokensOfAt(items[1..], i - 1);
    }
  }

  lemma {:induction false} TokensAt(s: Stream, i: nat)
    requires i < |s.items|
    ensures Tokens(s)[i] == s.items[i].lexeme.token
  {
    TokensOfAt(s.items, i);
  }

  /** The lexemes from `p` up to `q` carry exactly the tokens `toks`. */
  predicate Spans(s: Stream, p: nat, q: nat, toks: seq<Token>) {
    p <= q <= |s.items| && Tokens(s)[p..q] == toks
  }

  /** A span is as long as its tokens. */
  lemma {:induction false} SpansLength(s: Stream, p: nat, q: nat, toks: seq<Token>)
    requires Spans(s, p, q, toks)
    ensures q == p + |toks|
  {
  }

  /** The lookahead at `p` alone spans `p` to `p + 1`. */
  lemma {:induction false} SpansOne(s: Stream, p: nat, t: Token)
    requires Next(s, p) == Some(t)
    ensures Spans(s, p, p + 1, [t])
  {
    TokensAt(s, p);
  }

  lemma {:induction false} SpansJoin(s: Stream, p: nat, m: nat, q: nat, a: seq<Token>, b: seq<Token>)
    requires Spans(s, p, m, a) && Spans(s, m, q, b)
    ensures Spans(s, p, q, a + b)
  {
    assert Tokens(s)[p..q] == Tokens(s)[p..m] + Tokens(s)[m..q];
  }

  /** Spans split where their token sequences do. */
  lemma {:induction false} SpansSplit(s: Stream, p: nat, q: nat, a: seq<Token>, b: seq<Token>)
    requires Spans(s, p, q, a + b)
    ensures Spans(s, p, p + |a|, a) && Spans(s, p + |a|, q, b)
  {
    var w := Tokens(s)[p..q];
    assert Tokens(s)[p..p + |a|] == w[..|a|];
    assert Tokens(s)[p + |a|..q] == w[|a|..];
  }

  /** The first token of a span is the lookahead at its start. */
  lemma {:induction false} SpansHead(s: Stream, p: nat, q: nat, t: Token, rest: seq<Token>)
    requires Spans(s, p, q, [t] + rest)
    ensures p < q && Next(s, p) == Some(t) && Spans(s, p + 1, q, rest)
  {
    SpansSplit(s, p, q, [t], rest);
    assert Tokens(s)[p..p + 1][0] == Tokens(s)[p];
    TokensAt(s, p);
  }

  /** Each token of a span is the lookahead at its place. */
  lemma {:induction false} SpansAt(s: Stream, p: nat, q: nat, toks: seq<Token>, i: nat)
    requires Spans(s, p, q, toks) && i < |toks|
    ensures q == p + |toks| && Next(s, p + i) == Some(toks[i])
  {
    assert Tokens(s)[p..q][i] == Tokens(s)[p + i];
    TokensAt(s, p + i);
  }

  lemma {:induction false} SpansEmpty(s: Stream, p: nat, q: nat)
    ensures Spans(s, p, q, []) <==> p == q <= |s.items|
  {
  }

  /** A span of `a + b` is a span of `a` followed by a span of `b`, and conversely. */
  lemma {:induction false} SpansCat(s: Stream, p: nat, m: nat, q: nat, a: seq<Token>, b: seq<Token>)
    requires m == p + |a|
    ensures Spans(s, p, q, a + b) <==> Spans(s, p, m, a) && Spans(s, m, q, b)
  {
    if Spans(s, p, q, a + b) {
      SpansSplit(s, p, q, a, b);
    }
    if Spans(s, p, m, a) && Spans(s, m, q, b) {
      SpansJoin(s, p, m, q, a, b);
    }
  }

  /** A span of one token is one lexeme carrying it. */
  lemma {:induction false} SpansToken(s: Stream, p: nat, q: nat, t: Token)
    ensures Spans(s, p, q, [t]) <==> q == p + 1 && Next(s, p) == Some(t)
  {
    if Spans(s, p, q, [t]) {
      SpansAt(s, p, q, [t], 0);
    }
    if q == p + 1 && Next(s, p) == Some(t) {
      SpansOne(s, p, t);
    }
  }

  /** A span starting with `t` is the lookahead `t` followed by a span of the rest. */
  lemma {:induction false} SpansCons(s: Stream, p: nat, q: nat, t: Token, rest: seq<Token>)
    ensures Spans(s, p, q, [t] + rest) <==> Next(s, p) == Some(t) && Spans(s, p + 1, q, rest)
  {
    SpansCat(s, p, p + 1, q, [t], rest);
    SpansToken(s, p, p + 1, t);
  }

  /** A span ending with `t` is a span of the rest followed by the lookahead `t`. */
  lemma {:induction false} SpansSnoc(s: Stream, p: nat, q: nat, init: seq<Token>, t: Token)
    ensures Spans(s, p, q, init + [t]) <==> p < q && Spans(s, p, q - 1, init) && Next(s, q - 1) == Some(t)
  {
    if Spans(s, p, q, init + [t]) {
      SpansSplit(s, p, q, init, [t]);
      SpansToken(s, p + |init|, q, t);
    }
    if p < q && Spans(s, p, q - 1, init) && Next(s, q - 1) == Some(t) {
      SpansOne(s, q - 1, t);
      SpansJoin(s, p, q - 1, q, init, [t]);
    }
  }
}
