/** What the lexemes of the statement splitter are, said without scanning, and that exactly its cuts are the
    semicolons that stand between them. */
module SqlLexemes {
  import opened Common
  import opened SqlSplit

  predicate At(s: string, k: nat, a: char, b: char) {
    k + 1 < |s| && s[k] == a && s[k + 1] == b
  }

  /** A line comment runs up to the first newline. */
  ghost predicate IsLineComment(s: string, n: nat) {
    && At(s, 0, '-', '-') && 2 <= n <= |s|
    && (forall k :: 2 <= k < n ==> s[k] != '\n') && (n < |s| ==> s[n] == '\n')
  }

  /** A block comment runs through the first close after its opening, or to the end; comments do not nest. */
  ghost predicate IsBlockComment(s: string, n: nat) {
    && At(s, 0, '/', '*') && 2 <= n <= |s|
    && (forall k: nat :: 2 <= k && k + 2 < n ==> !At(s, k, '*', '/'))
    && if n >= 4 && At(s, n - 2, '*', '/') then true else n == |s|
  }

  function Quotes(s: string): nat {
    if s == "" then 0 else (if s[0] == '\'' then 1 else 0) + Quotes(s[1..])
  }

  /** The quote at `k` closes: an odd number of quotes since the opening one, and no quote right after. */
  predicate Closes(s: string, k: nat) {
    1 <= k < |s| && s[k] == '\'' && Quotes(s[1..k + 1]) % 2 == 1 && (k + 1 < |s| ==> s[k + 1] != '\'')
  }

  ghost predicate IsLiteral(s: string, n: nat) {
    && s != "" && s[0] == '\'' && 1 <= n <= |s|
    && (forall k: nat :: k + 1 < n ==> !Closes(s, k))
    && (Closes(s, n - 1) || n == |s|)
  }

  /** `s[..j+1]` is a dollar tag: '$', an identifier or nothing, '$'. */
  ghost predicate IsTag(s: string, j: nat) {
    && 1 <= j < |s| && s[0] == '$' && s[j] == '$'
    && forall k :: 1 <= k < j ==> MayStandInTag(s[k], k == 1)
  }

  /** ASCII letters, digits and underscores, and no digit first. */
  predicate MayStandInTag(c: char, first: bool) {
    c == '_' || 'a' <= c <= 'z' || 'A' <= c <= 'Z' || ('0' <= c <= '9' && !first)
  }

  predicate OccursAt(s: string, t: string, k: nat) {
    k + |t| <= |s| && s[k..k + |t|] == t
  }

  /** A dollar-quoted body runs through the first repetition of its tag. */
  ghost predicate IsDollarBody(s: string, j: nat, n: nat) {
    && IsTag(s, j) && 2 * (j + 1) <= n <= |s| && OccursAt(s, s[..j + 1], n - (j + 1))
    && NoneBefore(s, s[..j + 1], j + 1, n - (j + 1))
  }

  ghost predicate NoneBefore(s: string, t: string, start: nat, end: int) {
    forall k: nat :: start <= k < end ==> !OccursAt(s, t, k)
  }

  /** The first `n` characters of `s` are a lexeme. */
  ghost predicate IsLexeme(s: string, n: nat) {
    || IsLineComment(s, n) || IsBlockComment(s, n) || IsLiteral(s, n) || (exists j :: IsDollarBody(s, j, n))
    || (&& s != "" && n == 1 && !At(s, 0, '-', '-') && !At(s, 0, '/', '*') && s[0] != '\''
        && forall j: nat, m: nat :: !IsDollarBody(s, j, m))
  }

  lemma {:induction false} NewlineIsFirst(s: string)
    ensures var n := ToNewline(s); (forall k :: 0 <= k < n ==> s[k] != '\n') && (n < |s| ==> s[n] == '\n')
  {
    if s != "" && s[0] != '\n' {
      NewlineIsFirst(s[1..]);
      forall k | 0 <= k < ToNewline(s) ensures s[k] != '\n' {
        assert k > 0 ==> s[k] == s[1..][k - 1];
      }
    }
  }

  lemma LineCommentIff(s: string, n: nat)
    requires At(s, 0, '-', '-')
    ensures IsLineComment(s, n) <==> n == LexemeLength(s)
  {
    NewlineIsFirst(s[2..]);
    var l := LexemeLength(s);
    assert forall k :: 2 <= k < |s| ==> s[k] == s[2..][k - 2];
    assert IsLineComment(s, l);
    if IsLineComment(s, n) && n < l {
      assert false;
    }
  }

  lemma {:induction false} BlockEndIsFirst(s: string)
    ensures var n := ToBlockEnd(s);
            && (forall k: nat :: k + 2 < n ==> !At(s, k, '*', '/'))
            && if n >= 2 && At(s, n - 2, '*', '/') then true else n == |s|
  {
    if |s| >= 2 && !At(s, 0, '*', '/') {
      BlockEndIsFirst(s[1..]);
      forall k: nat | k + 2 < ToBlockEnd(s) ensures !At(s, k, '*', '/') {
        assert k > 0 ==> !At(s[1..], k - 1, '*', '/');
      }
    }
  }

  lemma BlockCommentIff(s: string, n: nat)
    requires At(s, 0, '/', '*')
    ensures IsBlockComment(s, n) <==> n == LexemeLength(s)
  {
    var r := s[2..];
    BlockEndIsFirst(r);
    var l := LexemeLength(s);
    assert forall k: nat :: k >= 2 ==> (At(s, k, '*', '/') <==> At(r, k - 2, '*', '/'));
    assert IsBlockComment(s, l);
  }

  predicate ClosesIn(r: string, k: nat) {
    k < |r| && r[k] == '\'' && Quotes(r[..k + 1]) % 2 == 1 && (k + 1 < |r| ==> r[k + 1] != '\'')
  }

  lemma ClosesAfterOne(r: string, k: nat)
    requires r != "" && r[0] != '\'' && k >= 1
    ensures ClosesIn(r, k) <==> ClosesIn(r[1..], k - 1)
  {
    if k < |r| {
      assert r[..k + 1][1..] == r[1..][..k];
    }
  }

  /** A doubled quote changes no parity. */
  lemma ClosesAfterTwo(r: string, k: nat)
    requires |r| >= 2 && r[0] == '\'' && r[1] == '\''
    ensures ClosesIn(r, k) <==> k >= 2 && ClosesIn(r[2..], k - 2)
  {
    if 0 < k < |r| {
      var p := r[..k + 1];
      assert Quotes(p) == 1 + Quotes(p[1..]);
      assert p[1..][1..] == r[2..][..k - 1];
      assert Quotes(p[1..]) == 1 + Quotes(r[2..][..k - 1]);
    }
  }

  lemma {:induction false} QuoteEndIsFirst(r: string)
    ensures var n := ToQuoteEnd(r);
            && (forall k: nat :: k + 1 < n ==> !ClosesIn(r, k))
            && (n == |r| || (n > 0 && ClosesIn(r, n - 1)))
    decreases |r|
  {
    hide ClosesIn;
    if r != "" {
      if r[0] != '\'' {
        QuoteEndIsFirst(r[1..]);
        forall k: nat | k > 0 ensures ClosesIn(r, k) <==> ClosesIn(r[1..], k - 1) {
          ClosesAfterOne(r, k);
        }
        assert !ClosesIn(r, 0) by { NotAQuote(r); }
      } else if |r| > 1 && r[1] == '\'' {
        QuoteEndIsFirst(r[2..]);
        forall k: nat ensures ClosesIn(r, k) <==> k >= 2 && ClosesIn(r[2..], k - 2) {
          ClosesAfterTwo(r, k);
        }
      } else {
        LoneQuote(r);
      }
    }
  }

  lemma NotAQuote(r: string)
    requires r != "" && r[0] != '\''
    ensures !ClosesIn(r, 0)
  {
  }

  lemma LoneQuote(r: string)
    requires r != "" && r[0] == '\'' && (|r| > 1 ==> r[1] != '\'')
    ensures ClosesIn(r, 0)
  {
    assert r[..1][1..] == "";
  }

  lemma LiteralIff(s: string, n: nat)
    requires s != "" && s[0] == '\''
    ensures IsLiteral(s, n) <==> n == LexemeLength(s)
  {
    var r := s[1..];
    QuoteEndIsFirst(r);
    var l := LexemeLength(s);
    forall k: nat | k >= 1 ensures Closes(s, k) <==> ClosesIn(r, k - 1) {
      if k < |s| {
        assert s[1..k + 1] == r[..k];
      }
    }
    assert IsLiteral(s, l);
  }

  lemma {:induction false} TagIsLongest(s: string, first: bool)
    ensures var n := TagLength(s, first);
            (forall k :: 0 <= k < n ==> InTag(s[k], first && k == 0)) && (n < |s| ==> !InTag(s[n], first && n == 0))
    decreases |s|
  {
    if s != "" && InTag(s[0], first) {
      TagIsLongest(s[1..], false);
      forall k | 0 <= k < TagLength(s, first) ensures InTag(s[k], first && k == 0) {
        assert k > 0 ==> s[k] == s[1..][k - 1];
      }
    }
  }

  lemma TagIff(s: string, j: nat)
    requires s != "" && s[0] == '$'
    ensures IsTag(s, j) <==> j == 1 + TagLength(s[1..], true) && j < |s| && s[j] == '$'
  {
    var r := s[1..];
    TagIsLongest(r, true);
    var l := 1 + TagLength(r, true);
    assert forall k :: 1 <= k < |s| ==> s[k] == r[k - 1];
    assert l < |s| ==> !InTag(s[l], l == 1);
    assert forall k :: 1 <= k < l ==> InTag(s[k], k == 1);
    if IsTag(s, j) && j != l {
      assert false;
    }
  }

  lemma OccursAfterOne(s: string, t: string, k: nat)
    requires s != "" && k > 0
    ensures OccursAt(s, t, k) <==> OccursAt(s[1..], t, k - 1)
  {
    if k + |t| <= |s| {
      assert s[1..][k - 1..k - 1 + |t|] == s[k..k + |t|];
    }
  }

  lemma {:induction false} IndexIsFirst(s: string, t: string)
    requires t != ""
    ensures var k := Index(s, t);
            if k.Some? then OccursAt(s, t, k.value) && NoneBefore(s, t, 0, k.value) else NoneBefore(s, t, 0, |s|)
    decreases |s|
  {
    if |t| <= |s| && s[..|t|] != t {
      IndexIsFirst(s[1..], t);
      forall k: nat | k > 0 ensures OccursAt(s, t, k) <==> OccursAt(s[1..], t, k - 1) {
        OccursAfterOne(s, t, k);
      }
    }
  }

  lemma OccursFurther(s: string, t: string, off: nat, k: nat)
    requires off <= |s|
    ensures OccursAt(s[off..], t, k) <==> OccursAt(s, t, off + k)
  {
    if off + k + |t| <= |s| {
      assert s[off..][k..k + |t|] == s[off + k..off + k + |t|];
    }
  }

  lemma DollarIff(s: string, j: nat, n: nat)
    requires s != "" && s[0] == '$'
    ensures IsDollarBody(s, j, n) <==> IsTag(s, j) && DollarLength(s) == Some(n)
  {
    hide TagLength, Index, IsTag, OccursAt;
    TagIff(s, j);
    if IsTag(s, j) {
      FirstAfter(s, s[..j + 1], j + 1, n);
    }
  }

  /** The first occurrence past a point ends at `n`. */
  lemma FirstAfter(s: string, t: string, start: nat, n: nat)
    requires start <= |s| && |t| == start && t != ""
    ensures Index(s[start..], t).Some? && n == start + Index(s[start..], t).value + |t| <==>
            2 * start <= n <= |s| && OccursAt(s, t, n - |t|) && NoneBefore(s, t, start, n - |t|)
  {
    var r := s[start..];
    IndexIsFirst(r, t);
    forall k: nat ensures OccursAt(r, t, k) <==> OccursAt(s, t, start + k) {
      OccursFurther(s, t, start, k);
    }
    var i := Index(r, t);
    assert forall k: nat :: k >= start ==> (OccursAt(s, t, k) <==> OccursAt(r, t, k - start));
    if 2 * start <= n <= |s| && OccursAt(s, t, n - |t|) {
      assert OccursAt(r, t, n - |t| - start);
    }
  }

  /** The scanner's lexemes are the lexemes. */
  lemma LexemeIff(s: string, n: nat)
    requires s != ""
    ensures IsLexeme(s, n) <==> n == LexemeLength(s)
  {
    hide IsLineComment, IsBlockComment, IsLiteral, IsDollarBody, DollarLength;
    WhatEachStartsWith(s);
    if At(s, 0, '-', '-') {
      LineCommentIff(s, n);
    } else if At(s, 0, '/', '*') {
      BlockCommentIff(s, n);
    } else if s[0] == '\'' {
      LiteralIff(s, n);
    } else if s[0] == '$' {
      forall j: nat, m: nat ensures IsDollarBody(s, j, m) <==> IsTag(s, j) && DollarLength(s) == Some(m) {
        DollarIff(s, j, m);
      }
      BodyHasATag(s);
    }
  }

  lemma WhatEachStartsWith(s: string)
    requires s != ""
    ensures forall n :: IsLineComment(s, n) ==> At(s, 0, '-', '-')
    ensures forall n :: IsBlockComment(s, n) ==> At(s, 0, '/', '*')
    ensures forall n :: IsLiteral(s, n) ==> s[0] == '\''
    ensures forall j, n :: IsDollarBody(s, j, n) ==> s[0] == '$'
  {
  }

  lemma BodyHasATag(s: string)
    requires s != "" && s[0] == '$'
    ensures DollarLength(s).Some? ==> exists j: nat :: IsTag(s, j)
  {
    TagIff(s, 1 + TagLength(s[1..], true));
  }

  /** `k` is a boundary between lexemes of `s`. */
  ghost predicate Boundary(s: string, k: nat)
    decreases |s|
  {
    k == 0 || exists n: nat :: 1 <= n <= |s| && IsLexeme(s, n) && n <= k && Boundary(s[n..], k - n)
  }

  /** The first cut is at the first semicolon that starts a lexeme. */
  lemma {:induction false} CutIsFirstFreeSemicolon(s: string)
    ensures var c := CutAt(s);
            && Boundary(s, c) && (c < |s| ==> s[c] == ';')
            && forall k: nat :: k < c && Boundary(s, k) ==> s[k] != ';'
    decreases |s|
  {
    hide IsLexeme, LexemeLength;
    var c := CutAt(s);
    if c > 0 {
      var n := LexemeLength(s);
      LexemeIff(s, n);
      CutIsFirstFreeSemicolon(s[n..]);
      forall k: nat | k < c && Boundary(s, k) ensures s[k] != ';' {
        if k > 0 {
          var m: nat :| 1 <= m <= |s| && IsLexeme(s, m) && m <= k && Boundary(s[m..], k - m);
          LexemeIff(s, m);
          assert s[k] == s[n..][k - n];
        }
      }
    }
  }

  /** Boundaries after the first lexeme are those of what follows it. */
  lemma BoundaryAfterLexeme(s: string, k: nat)
    requires s != "" && k > 0
    ensures Boundary(s, k) <==> LexemeLength(s) <= k && Boundary(s[LexemeLength(s)..], k - LexemeLength(s))
  {
    hide IsLexeme, LexemeLength;
    LexemeIff(s, LexemeLength(s));
    if Boundary(s, k) {
      var m: nat :| 1 <= m <= |s| && IsLexeme(s, m) && m <= k && Boundary(s[m..], k - m);
      LexemeIff(s, m);
    }
  }

  lemma SemicolonIsALexeme(s: string)
    requires CutAt(s) == 0 < |s|
    ensures LexemeLength(s) == 1
  {
  }

  lemma NoSemicolonAtOnce(s: string)
    requires 0 < CutAt(s)
    ensures s != "" && s[0] != ';'
  {
    hide LexemeLength;
  }

  lemma {:induction false} BoundaryAfterCut(s: string, k: nat)
    requires CutAt(s) < |s| && CutAt(s) < k
    ensures Boundary(s, k) <==> Boundary(s[CutAt(s) + 1..], k - CutAt(s) - 1)
    decreases |s|
  {
    hide Boundary, CutAt, LexemeLength;
    var c := CutAt(s);
    BoundaryAfterLexeme(s, k);
    if c == 0 {
      SemicolonIsALexeme(s);
    } else {
      var n := LexemeLength(s);
      NoSemicolonAtOnce(s);
      CutAtAfterLexeme(s);
      BoundaryAfterCut(s[n..], k - n);
      assert s[n..][c - n + 1..] == s[c + 1..];
    }
  }

  /** Position `k` of the joined text is one of the semicolons between the pieces. */
  predicate IsJoint(ps: seq<string>, k: nat) {
    |ps| > 1 && (k == |ps[0]| || (k > |ps[0]| && IsJoint(ps[1..], k - |ps[0]| - 1)))
  }

  /** The text is cut at exactly the semicolons that start a lexeme: none inside a comment, a literal or a
      dollar-quoted body, and none left out. */
  lemma {:induction false} CutsAreTheFreeSemicolons(s: string, k: nat)
    ensures IsJoint(Pieces(s), k) <==> k < |s| && s[k] == ';' && Boundary(s, k)
    decreases |s|
  {
    hide Boundary, CutAt;
    var c := CutAt(s);
    CutIsFirstFreeSemicolon(s);
    if c < |s| {
      var rest := Pieces(s[c + 1..]);
      assert ([s[..c]] + rest)[1..] == rest;
      if k > c {
        CutsAreTheFreeSemicolons(s[c + 1..], k - c - 1);
        BoundaryAfterCut(s, k);
      }
    }
  }
}
