/**
 * Layout: the text the scanner consumes without producing a lexeme. It is any
 * concatenation of single blank characters and `//` comments, a comment being
 * `//` followed by characters other than a line feed.
 */
module Layout {
  import opened Chars

  predicate IsPiece(p: string) {
    || (|p| == 1 && IsBlank(p[0]))
    || (|p| >= 2 && p[0] == '/' && p[1] == '/' && '\n' !in p)
  }

  predicate AllPieces(ps: seq<string>) {
    forall i :: 0 <= i < |ps| ==> IsPiece(ps[i])
  }

  function Concat(ps: seq<string>): string {
    if ps == [] then [] else ps[0] + Concat(ps[1..])
  }

  ghost predicate IsLayout(s: string) {
    exists ps :: AllPieces(ps) && Concat(ps) == s
  }

  lemma {:induction false} ConcatAppend(ps: seq<string>, qs: seq<string>)
    ensures Concat(ps + qs) == Concat(ps) + Concat(qs)
  {
    if ps == [] {
      assert ps + qs == qs;
    } else {
      assert (ps + qs)[1..] == ps[1..] + qs;
      ConcatAppend(ps[1..], qs);
    }
  }

  lemma EmptyIsLayout()
    ensures IsLayout([])
  {
    assert AllPieces([]) && Concat([]) == [];
  }

  lemma PieceIsLayout(p: string)
    requires IsPiece(p)
    ensures IsLayout(p)
  {
    assert Concat([p]) == p + Concat([]);
    assert AllPieces([p]);
  }

  lemma {:induction false} LayoutAppend(a: string, b: string)
    requires IsLayout(a) && IsLayout(b)
    ensures IsLayout(a + b)
  {
    var ps :| AllPieces(ps) && Concat(ps) == a;
    var qs :| AllPieces(qs) && Concat(qs) == b;
    ConcatAppend(ps, qs);
    assert AllPieces(ps + qs);
  }

  /** A run of blank characters is layout. */
  lemma {:induction false} BlanksAreLayout(s: string)
    requires forall i :: 0 <= i < |s| ==> IsBlank(s[i])
    ensures IsLayout(s)
  {
    if s == [] {
      EmptyIsLayout();
    } else {
      BlanksAreLayout(s[1..]);
      PieceIsLayout(s[..1]);
      LayoutAppend(s[..1], s[1..]);
      assert s[..1] + s[1..] == s;
    }
  }

  /** A stretch of blank characters inside a text is layout. */
  lemma BlankStretchIsLayout(s: string, i: nat, j: nat)
    requires i <= j <= |s| && forall k :: i <= k < j ==> IsBlank(s[k])
    ensures IsLayout(s[i..j])
  {
    var u := s[i..j];
    assert forall k :: 0 <= k < |u| ==> IsBlank(u[k]) by {
      forall k | 0 <= k < |u| ensures IsBlank(u[k]) {
        assert u[k] == s[i + k];
      }
    }
    BlanksAreLayout(u);
  }

  /** Layout that starts with a blank character stays layout without it. */
  lemma {:induction false} DropBlank(s: string)
    requires IsLayout(s) && s != [] && IsBlank(s[0])
    ensures IsLayout(s[1..])
  {
    var ps :| AllPieces(ps) && Concat(ps) == s;
    if ps[0] == [] {
      assert false;
    }
    assert |ps[0]| == 1;
    assert s[1..] == Concat(ps[1..]);
    assert AllPieces(ps[1..]);
  }

  /** Layout that does not start with a blank character starts with a comment. */
  lemma StartsWithComment(s: string)
    requires IsLayout(s) && s != [] && !IsBlank(s[0])
    ensures |s| >= 2 && s[0] == '/' && s[1] == '/'
  {
    var ps :| AllPieces(ps) && Concat(ps) == s;
    assert ps != [];
    assert s == ps[0] + Concat(ps[1..]);
    assert s[0] == ps[0][0];
  }

  /**
   * Cutting layout at the end of its current line leaves layout: whatever
   * pieces cover the first line are blanks or comments ending on it.
   */
  lemma {:induction false} CutAtLineEnd(u: string, k: nat)
    requires IsLayout(u)
    requires k <= |u| && '\n' !in u[..k] && (k == |u| || u[k] == '\n')
    ensures IsLayout(u[k..])
    decreases k
  {
    if k == 0 {
      assert u[k..] == u;
    } else {
      var ps :| AllPieces(ps) && Concat(ps) == u;
      assert ps != [];
      var p := ps[0];
      assert u == p + Concat(ps[1..]);
      assert u[0] == p[0];
      assert |p| <= k;
      var v := Concat(ps[1..]);
      assert IsLayout(v) by { assert AllPieces(ps[1..]); }
      assert v == u[|p|..];
      assert v[..k - |p|] == u[|p|..k];
      assert '\n' !in v[..k - |p|];
      if |p| == 0 {
        assert false;
      }
      CutAtLineEnd(v, k - |p|);
      assert v[k - |p|..] == u[k..];
    }
  }
}
