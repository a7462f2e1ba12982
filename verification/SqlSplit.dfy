/** Splitting a migration file into statements (initialize/migrate_sql.go): semicolons inside line comments, block
    comments, string literals and dollar-quoted bodies do not cut. */
module SqlSplit {
  import opened Common
  import opened WhiteSpace

  // ---------------------------------------------------------------- lexemes, as lengths of what a suffix starts with

  function ToNewline(s: string): (n: nat)
    ensures n <= |s|
  {
    if s == "" || s[0] == '\n' then 0 else 1 + ToNewline(s[1..])
  }

  /** To just after the first close of a block comment, or to the end. */
  function ToBlockEnd(s: string): (n: nat)
    ensures n <= |s|
  {
    if |s| < 2 then |s| else if s[0] == '*' && s[1] == '/' then 2 else 1 + ToBlockEnd(s[1..])
  }

  /** To just after the closing quote, doubled quotes skipped, or to the end. */
  function ToQuoteEnd(s: string): (n: nat)
    ensures n <= |s|
  {
    if s == "" then 0
    else if s[0] != '\'' then 1 + ToQuoteEnd(s[1..])
    else if |s| > 1 && s[1] == '\'' then 2 + ToQuoteEnd(s[2..])
    else 1
  }

  predicate IsLetter(c: char) {
    'a' <= c <= 'z' || 'A' <= c <= 'Z'
  }

  predicate InTag(c: char, first: bool) {
    c == '_' || IsLetter(c) || (!first && '0' <= c <= '9')
  }

  function TagLength(s: string, first: bool): (n: nat)
    ensures n <= |s|
  {
    if s == "" || !InTag(s[0], first) then 0 else 1 + TagLength(s[1..], false)
  }

  /** The first occurrence of `t`. */
  function Index(s: string, t: string): (k: Option<nat>)
    ensures k.Some? ==> k.value + |t| <= |s|
  {
    if |s| < |t| then None
    else if s[..|t|] == t then Some(0)
    else if s == "" then None
    else
      match Index(s[1..], t)
      case None => None
      case Some(k) => Some(k + 1)
  }

  /** The length of the dollar-quoted body that `s`, which starts with '$', opens. */
  function DollarLength(s: string): (n: Option<nat>)
    requires s != "" && s[0] == '$'
    ensures n.Some? ==> 2 <= n.value <= |s|
  {
    var j := 1 + TagLength(s[1..], true);
    if j >= |s| || s[j] != '$' then None
    else
      match Index(s[j + 1..], s[..j + 1])
      case None => None
      case Some(k) => Some(j + 1 + k + (j + 1))
  }

  /** The length of the lexeme a non-empty suffix starts with. */
  function LexemeLength(s: string): (n: nat)
    requires s != ""
    ensures 1 <= n <= |s|
  {
    if s[0] == '-' && |s| > 1 && s[1] == '-' then 2 + ToNewline(s[2..])
    else if s[0] == '/' && |s| > 1 && s[1] == '*' then 2 + ToBlockEnd(s[2..])
    else if s[0] == '\'' then 1 + ToQuoteEnd(s[1..])
    else if s[0] == '$' && DollarLength(s).Some? then DollarLength(s).value
    else 1
  }

  // ---------------------------------------------------------------- pieces and statements

  /** The first semicolon that is a lexeme of its own, or the end. */
  function CutAt(s: string): (c: nat)
    ensures c <= |s| && (c < |s| ==> s[c] == ';')
    decreases |s|
  {
    if s == "" || s[0] == ';' then 0 else LexemeLength(s) + CutAt(s[LexemeLength(s)..])
  }

  function Pieces(s: string): (ps: seq<string>)
    ensures ps != []
    decreases |s|
  {
    var c := CutAt(s);
    if c == |s| then [s] else [s[..c]] + Pieces(s[c + 1..])
  }

  function Kept(ps: seq<string>): seq<string> {
    if ps == [] then [] else (if Trim(ps[0]) == "" then [] else [Trim(ps[0])]) + Kept(ps[1..])
  }

  function Statements(sql: string): seq<string> {
    Kept(Pieces(sql))
  }

  // ---------------------------------------------------------------- the loops of the source

  /** Cutting the rest of a text is cutting the text. */
  lemma SplitOfRest(s: string, i: nat, j: nat)
    requires i <= j <= |s|
    ensures s[i..][..j - i] == s[i..j] && s[i..][j - i..] == s[j..]
  {
  }

  method DollarQuoteEnd(sql: string, i: nat) returns (end: nat, ok: bool)
    requires i < |sql| && sql[i] == '$'
    ensures ok <==> DollarLength(sql[i..]).Some?
    ensures ok ==> end == i + DollarLength(sql[i..]).value
  {
    hide Index;
    var j := i + 1;
    while j < |sql| && (sql[j] == '_' || IsLetter(sql[j]) || (j > i + 1 && '0' <= sql[j] <= '9'))
      invariant i + 1 <= j <= |sql|
      invariant i + 1 + TagLength(sql[i + 1..], true) == j + TagLength(sql[j..], j == i + 1)
    {
      j := j + 1;
    }
    assert sql[i..][1..] == sql[i + 1..];
    if j >= |sql| || sql[j] != '$' {
      return 0, false;
    }
    var tag := sql[i..j + 1];
    SplitOfRest(sql, i, j + 1);
    var k := Index(sql[j + 1..], tag);
    if k.None? {
      return 0, false;
    }
    return j + 1 + k.value + |tag|, true;
  }

  /** A piece with text put before it. */
  function After(b: string, ps: seq<string>): seq<string>
    requires ps != []
  {
    [b + ps[0]] + ps[1..]
  }

  lemma AfterNothing(ps: seq<string>)
    requires ps != []
    ensures After("", ps) == ps
  {
    assert "" + ps[0] == ps[0];
  }

  lemma CutAtAfterLexeme(s: string)
    requires s != "" && s[0] != ';'
    ensures CutAt(s) == LexemeLength(s) + CutAt(s[LexemeLength(s)..])
  {
    hide LexemeLength;
  }

  lemma PiecesAtCut(s: string)
    ensures var c := CutAt(s); Pieces(s) == if c == |s| then [s] else [s[..c]] + Pieces(s[c + 1..])
  {
    hide CutAt;
  }

  /** Text put before a piece that is followed by others, or is the last. */
  lemma AfterPieces(b: string, p: string, ps: seq<string>)
    ensures After(b, [p] + ps) == [b + p] + ps
    ensures After(b, [p]) == [b + p]
  {
  }

  lemma PiecesOfLexeme(s: string)
    requires s != "" && s[0] != ';'
    ensures var n := LexemeLength(s); Pieces(s) == After(s[..n], Pieces(s[n..]))
  {
    hide LexemeLength, CutAt, Pieces, After;
    var n := LexemeLength(s);
    var rest := s[n..];
    var c := CutAt(rest);
    CutAtAfterLexeme(s);
    PiecesAtCut(s);
    PiecesAtCut(rest);
    if c == |rest| {
      AfterPieces(s[..n], rest, []);
      assert s[..n] + rest == s;
    } else {
      AfterPieces(s[..n], rest[..c], Pieces(rest[c + 1..]));
      assert s[..n] + rest[..c] == s[..n + c];
      SplitOfRest(s, n, n + c + 1);
    }
  }

  /** A lexeme that is no semicolon goes into the piece being built. */
  lemma NextLexeme(sql: string, i: nat, j: nat, b: string)
    requires i < j <= |sql| && sql[i] != ';' && j == i + LexemeLength(sql[i..])
    ensures After(b, Pieces(sql[i..])) == After(b + sql[i..j], Pieces(sql[j..]))
  {
    hide LexemeLength, Pieces, CutAt;
    PiecesOfLexeme(sql[i..]);
    assert sql[i..][..j - i] == sql[i..j] && sql[i..][j - i..] == sql[j..];
    var ps := Pieces(sql[j..]);
    assert b + (sql[i..j] + ps[0]) == (b + sql[i..j]) + ps[0];
  }

  lemma Cut(sql: string, i: nat, b: string)
    requires i < |sql| && sql[i] == ';'
    ensures Kept(After(b, Pieces(sql[i..]))) == (if Trim(b) == "" then [] else [Trim(b)]) + Kept(Pieces(sql[i + 1..]))
  {
    hide Trim;
    assert CutAt(sql[i..]) == 0;
    assert sql[i..][1..] == sql[i + 1..] && b + "" == b;
    assert Pieces(sql[i..]) == [""] + Pieces(sql[i + 1..]);
    assert After(b, Pieces(sql[i..])) == [b] + Pieces(sql[i + 1..]);
  }

  lemma EndOfText(b: string)
    ensures Kept(After(b, Pieces(""))) == if Trim(b) == "" then [] else [Trim(b)]
  {
    hide Trim;
    assert b + "" == b && After(b, Pieces("")) == [b];
  }

  lemma OneCharacter(sql: string, i: nat)
    requires i < |sql| && sql[i] != '\''
             && (i + 1 < |sql| ==> (sql[i] != '-' || sql[i + 1] != '-') && (sql[i] != '/' || sql[i + 1] != '*'))
    requires sql[i] == '$' ==> DollarLength(sql[i..]).None?
    ensures LexemeLength(sql[i..]) == 1
  {
    hide DollarLength;
  }

  lemma DollarBody(sql: string, i: nat)
    requires i < |sql| && sql[i] == '$' && DollarLength(sql[i..]).Some?
    ensures LexemeLength(sql[i..]) == DollarLength(sql[i..]).value
  {
    hide DollarLength;
  }

  method LineCommentEnd(sql: string, i: nat) returns (j: nat)
    requires i + 1 < |sql| && sql[i] == '-' && sql[i + 1] == '-'
    ensures j == i + LexemeLength(sql[i..]) && i < j <= |sql|
  {
    j := i + 2;
    assert sql[i..][2..] == sql[j..];
    while j < |sql| && sql[j] != '\n'
      invariant i + 2 <= j <= |sql| && i + LexemeLength(sql[i..]) == j + ToNewline(sql[j..])
    {
      j := j + 1;
    }
  }

  method BlockCommentEnd(sql: string, i: nat) returns (j: nat)
    requires i + 1 < |sql| && sql[i] == '/' && sql[i + 1] == '*'
    ensures j == i + LexemeLength(sql[i..]) && i < j <= |sql|
  {
    j := i + 2;
    assert sql[i..][2..] == sql[j..];
    while j + 1 < |sql| && !(sql[j] == '*' && sql[j + 1] == '/')
      invariant i + 2 <= j <= |sql| && i + LexemeLength(sql[i..]) == j + ToBlockEnd(sql[j..])
    {
      j := j + 1;
    }
    if j + 1 >= |sql| {
      j := |sql|;
    } else {
      j := j + 2;
    }
  }

  method LiteralEnd(sql: string, i: nat) returns (j: nat)
    requires i < |sql| && sql[i] == '\''
    ensures j == i + LexemeLength(sql[i..]) && i < j <= |sql|
  {
    j := i + 1;
    assert sql[i..][1..] == sql[j..];
    while j < |sql|
      invariant i + 1 <= j <= |sql| && i + LexemeLength(sql[i..]) == j + ToQuoteEnd(sql[j..])
    {
      if sql[j] == '\'' {
        if j + 1 < |sql| && sql[j + 1] == '\'' {
          j := j + 2;
          continue;
        }
        j := j + 1;
        break;
      }
      j := j + 1;
    }
  }

  /** The cases of the scanner that write a lexeme to the statement being built. */
  method LexemeEnd(sql: string, i: nat) returns (j: nat)
    requires i < |sql| && sql[i] != ';'
    ensures j == i + LexemeLength(sql[i..]) && i < j <= |sql|
  {
    hide LexemeLength, DollarLength;
    var c := sql[i];
    if c == '-' && i + 1 < |sql| && sql[i + 1] == '-' {
      j := LineCommentEnd(sql, i);
    } else if c == '/' && i + 1 < |sql| && sql[i + 1] == '*' {
      j := BlockCommentEnd(sql, i);
    } else if c == '\'' {
      j := LiteralEnd(sql, i);
    } else if c == '$' {
      var end, ok := DollarQuoteEnd(sql, i);
      if ok {
        DollarBody(sql, i);
        return end;
      }
      OneCharacter(sql, i);
      j := i + 1;
    } else {
      OneCharacter(sql, i);
      j := i + 1;
    }
  }

  method SplitStatements(sql: string) returns (out: seq<string>)
    ensures out == Statements(sql)
  {
    hide LexemeLength, Pieces, Kept, After, Trim;
    out := [];
    var b := "";
    var i := 0;
    StartOfText(sql);
    while i < |sql|
      invariant 0 <= i <= |sql|
      invariant Statements(sql) == out + Kept(After(b, Pieces(sql[i..])))
      decreases |sql| - i
    {
      if sql[i] == ';' {
        CutMoves(sql, i, b, out);
        var s := Trim(b);
        if s != "" {
          out := out + [s];
        }
        b := "";
        i := i + 1;
      } else {
        var j := LexemeEnd(sql, i);
        NextLexeme(sql, i, j, b);
        b := b + sql[i..j];
        i := j;
      }
    }
    EndMoves(sql, i, b, out);
    var s := Trim(b);
    if s != "" {
      out := out + [s];
    }
  }

  lemma StartOfText(sql: string)
    ensures Statements(sql) == [] + Kept(After("", Pieces(sql[0..])))
  {
    hide Pieces, Kept, After;
    AfterNothing(Pieces(sql));
    assert sql[0..] == sql;
  }

  /** A semicolon moves the trimmed text into the output. */
  lemma CutMoves(sql: string, i: nat, b: string, out: seq<string>)
    requires i < |sql| && sql[i] == ';'
    ensures out + Kept(After(b, Pieces(sql[i..]))) ==
            (if Trim(b) == "" then out else out + [Trim(b)]) + Kept(After("", Pieces(sql[i + 1..])))
  {
    hide Pieces, Kept, After, Trim;
    Cut(sql, i, b);
    AfterNothing(Pieces(sql[i + 1..]));
    var rest := Kept(Pieces(sql[i + 1..]));
    if Trim(b) == "" {
      assert [] + rest == rest;
    } else {
      assert out + ([Trim(b)] + rest) == out + [Trim(b)] + rest;
    }
  }

  /** So does the end of the text. */
  lemma EndMoves(sql: string, i: nat, b: string, out: seq<string>)
    requires i == |sql|
    ensures out + Kept(After(b, Pieces(sql[i..]))) == if Trim(b) == "" then out else out + [Trim(b)]
  {
    hide Pieces, Kept, After, Trim;
    assert sql[i..] == "";
    EndOfText(b);
    assert out + [] == out;
  }

  // ---------------------------------------------------------------- nothing is lost

  function Join(ps: seq<string>): string
    requires ps != []
  {
    if |ps| == 1 then ps[0] else ps[0] + ";" + Join(ps[1..])
  }

  /** The pieces joined by semicolons are the input. */
  lemma {:induction false} PiecesRejoin(s: string)
    ensures Join(Pieces(s)) == s
    decreases |s|
  {
    hide LexemeLength;
    var c := CutAt(s);
    if c < |s| {
      PiecesRejoin(s[c + 1..]);
      var rest := Pieces(s[c + 1..]);
      assert ([s[..c]] + rest)[1..] == rest;
      assert s[..c] + ";" + s[c + 1..] == s;
    }
  }

  lemma {:induction false} KeptFrom(ps: seq<string>, st: string) returns (p: string)
    requires st in Kept(ps)
    ensures p in ps && st == Trim(p) && st != ""
    decreases |ps|
  {
    hide Trim;
    if st == Trim(ps[0]) && Trim(ps[0]) != "" {
      p := ps[0];
    } else {
      p := KeptFrom(ps[1..], st);
    }
  }

  /** Statements are trimmed and not empty. */
  lemma StatementsAreTrimmed(sql: string, st: string)
    requires st in Statements(sql)
    ensures st != "" && !IsSpace(st[0]) && !IsSpace(st[|st| - 1])
  {
    var p := KeptFrom(Pieces(sql), st);
    TrimTrims(p);
  }

  // ---------------------------------------------------------------- cutting text short keeps its lexemes

  function Min(a: nat, b: nat): nat {
    if a < b then a else b
  }

  lemma {:induction false} ToNewlineCut(s: string, n: nat)
    requires n <= |s|
    ensures ToNewline(s[..n]) == Min(n, ToNewline(s))
    decreases n
  {
    if n > 0 && s[0] != '\n' {
      ToNewlineCut(s[1..], n - 1);
      assert s[..n][1..] == s[1..][..n - 1];
    }
  }

  lemma {:induction false} ToBlockEndCut(s: string, n: nat)
    requires n <= |s|
    ensures ToBlockEnd(s[..n]) == Min(n, ToBlockEnd(s))
    decreases n
  {
    if n > 1 && !(s[0] == '*' && s[1] == '/') {
      ToBlockEndCut(s[1..], n - 1);
      assert s[..n][1..] == s[1..][..n - 1];
    }
  }

  lemma {:induction false} ToQuoteEndCut(s: string, n: nat)
    requires n <= |s|
    ensures ToQuoteEnd(s[..n]) == Min(n, ToQuoteEnd(s))
    decreases n
  {
    if n > 0 {
      if s[0] != '\'' {
        ToQuoteEndCut(s[1..], n - 1);
        assert s[..n][1..] == s[1..][..n - 1];
      } else if n > 1 && s[1] == '\'' {
        ToQuoteEndCut(s[2..], n - 2);
        assert s[..n][2..] == s[2..][..n - 2];
      }
    }
  }

  lemma {:induction false} TagLengthCut(s: string, first: bool, n: nat)
    requires n <= |s|
    ensures TagLength(s[..n], first) == Min(n, TagLength(s, first))
    decreases n
  {
    if n > 0 && InTag(s[0], first) {
      TagLengthCut(s[1..], false, n - 1);
      assert s[..n][1..] == s[1..][..n - 1];
    }
  }

  /** Text cut short holds the first occurrence exactly if that occurrence lies before the cut. */
  lemma {:induction false} IndexCut(s: string, t: string, n: nat)
    requires n <= |s| && t != ""
    ensures Index(s[..n], t) == if Index(s, t).Some? && Index(s, t).value + |t| <= n then Index(s, t) else None
    decreases n
  {
    if |t| <= n {
      assert s[..n][..|t|] == s[..|t|];
      if s[..|t|] != t {
        IndexCut(s[1..], t, n - 1);
        assert s[..n][1..] == s[1..][..n - 1];
        assert Index(s[..n], t) == Next(Index(s[..n][1..], t));
        assert Index(s, t) == Next(Index(s[1..], t));
      }
    }
  }

  function Next(k: Option<nat>): Option<nat> {
    if k.None? then None else Some(k.value + 1)
  }

  lemma DollarCut(s: string, n: nat)
    requires 1 <= n <= |s| && s[0] == '$'
    ensures DollarLength(s[..n]) ==
            if DollarLength(s).Some? && DollarLength(s).value <= n then DollarLength(s) else None
  {
    hide Index, TagLength;
    TagLengthCut(s[1..], true, n - 1);
    assert s[..n][1..] == s[1..][..n - 1];
    var j := 1 + TagLength(s[1..], true);
    if j < n && s[j] == '$' {
      IndexCut(s[j + 1..], s[..j + 1], n - (j + 1));
      assert s[..n][j + 1..] == s[j + 1..][..n - (j + 1)];
      assert s[..n][..j + 1] == s[..j + 1];
    }
  }

  predicate OpensDollarBody(s: string)
    requires s != ""
  {
    s[0] == '$' && DollarLength(s).Some?
  }

  lemma LexemeCut(s: string, n: nat)
    requires 1 <= n <= |s|
    ensures LexemeLength(s) <= n ==> LexemeLength(s[..n]) == LexemeLength(s)
    ensures LexemeLength(s) > n && !OpensDollarBody(s) ==> LexemeLength(s[..n]) == n
  {
    hide DollarLength;
    if s[0] == '\'' {
      ToQuoteEndCut(s[1..], n - 1);
      assert s[..n][1..] == s[1..][..n - 1];
    } else if s[0] == '$' {
      DollarCut(s, n);
    } else if n > 1 {
      ToNewlineCut(s[2..], n - 2);
      ToBlockEndCut(s[2..], n - 2);
      assert s[..n][2..] == s[2..][..n - 2];
    }
  }

  // ---------------------------------------------------------------- a statement stands alone

  /** No semicolon of `s` is a lexeme. */
  predicate Whole(s: string) {
    CutAt(s) == |s|
  }

  /** What stands before the first cut is whole. */
  lemma {:induction false} BeforeCutIsWhole(s: string)
    ensures Whole(s[..CutAt(s)])
    decreases |s|
  {
    hide LexemeLength;
    var c := CutAt(s);
    if c > 0 {
      var n := LexemeLength(s);
      BeforeCutIsWhole(s[n..]);
      LexemeCut(s, c);
      assert s[..c][n..] == s[n..][..c - n];
    }
  }

  lemma {:induction false} PiecesAreWhole(s: string, p: string)
    requires p in Pieces(s)
    ensures Whole(p)
    decreases |s|
  {
    hide CutAt;
    BeforeCutIsWhole(s);
    assert s[..|s|] == s;
    if CutAt(s) < |s| && p != s[..CutAt(s)] {
      PiecesAreWhole(s[CutAt(s) + 1..], p);
    }
  }

  /** White space before whole text can go. */
  lemma {:induction false} TrimLeftKeepsWhole(s: string)
    requires Whole(s)
    ensures Whole(TrimLeft(s))
    decreases |s|
  {
    if s != "" && IsSpace(s[0]) {
      assert LexemeLength(s) == 1;
      TrimLeftKeepsWhole(s[1..]);
    }
  }

  /** So can white space after it: a lexeme that reaches into it is a comment or literal that
      then ends with the text. */
  lemma {:induction false} CutSpaceKeepsWhole(s: string, n: nat)
    requires Whole(s) && n <= |s| && forall k :: n <= k < |s| ==> IsSpace(s[k])
    ensures Whole(s[..n])
    decreases |s|
  {
    hide LexemeLength;
    if n > 0 {
      var l := LexemeLength(s);
      LexemeCut(s, n);
      if l <= n {
        CutSpaceKeepsWhole(s[l..], n - l);
        assert s[..n][l..] == s[l..][..n - l];
      } else {
        assert !OpensDollarBody(s) by {
          if OpensDollarBody(s) {
            BodyEndsInDollar(s);
          }
        }
        assert s[..n][n..] == "";
      }
    }
  }

  lemma BodyEndsInDollar(s: string)
    requires s != "" && OpensDollarBody(s)
    ensures s[LexemeLength(s) - 1] == '$' && !IsSpace('$')
  {
    hide Index;
    var j := 1 + TagLength(s[1..], true);
    var k := IndexFinds(s[j + 1..], s[..j + 1]);
    assert s[j + 1..][k..k + j + 1][j] == s[..j + 1][j];
  }

  lemma {:induction false} IndexFinds(s: string, t: string) returns (k: nat)
    requires Index(s, t).Some?
    ensures k == Index(s, t).value && s[k..k + |t|] == t
  {
    if s[..|t|] == t {
      k := 0;
    } else {
      k := IndexFinds(s[1..], t);
      assert s[1..][k..k + |t|] == s[k + 1..k + 1 + |t|];
      k := k + 1;
    }
  }

  /** Splitting any statement again gives just that statement. */
  lemma StatementsStandAlone(sql: string, st: string)
    requires st in Statements(sql)
    ensures Statements(st) == [st]
  {
    hide CutAt, Trim, IsSpace;
    var p := KeptFrom(Pieces(sql), st);
    PiecesAreWhole(sql, p);
    TrimKeepsWhole(p);
    TrimTrims(p);
    TrimTrims(st);
    assert Pieces(st) == [st];
    assert Kept([st]) == [Trim(st)];
  }

  lemma TrimKeepsWhole(s: string)
    requires Whole(s)
    ensures Whole(Trim(s))
  {
    hide IsSpace, CutAt;
    TrimLeftKeepsWhole(s);
    CutSpaceKeepsWhole(TrimLeft(s), |Trim(s)|);
  }
}
