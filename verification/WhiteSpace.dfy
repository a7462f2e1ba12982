/** Trimming white space, as strings.TrimSpace does. */
module WhiteSpace {
  /** The characters of unicode.IsSpace. */
  predicate IsSpace(c: char) {
    c == '\t' || c == '\n' || c == '\r' || c == ' ' ||
    (var u := c as int;
     u == 0x0b || u == 0x0c || u == 0x85 || u == 0xa0 || u == 0x1680 || 0x2000 <= u <= 0x200a
     || u == 0x2028 || u == 0x2029 || u == 0x202f || u == 0x205f || u == 0x3000)
  }

  /** White space is the twenty-five code points with the Unicode property White_Space. */
  lemma SpacesAre(c: char)
    ensures IsSpace(c) <==>
            c as int in {0x09, 0x0a, 0x0b, 0x0c, 0x0d, 0x20, 0x85, 0xa0, 0x1680, 0x2000, 0x2001, 0x2002, 0x2003, 0x2004,
                         0x2005, 0x2006, 0x2007, 0x2008, 0x2009, 0x200a, 0x2028, 0x2029, 0x202f, 0x205f, 0x3000}
  {
  }

  function TrimLeft(s: string): (t: string)
    ensures t != "" ==> !IsSpace(t[0])
  {
    if s == "" || !IsSpace(s[0]) then s else TrimLeft(s[1..])
  }

  function TrimRight(s: string): (t: string)
    ensures t != "" ==> !IsSpace(t[|t| - 1])
    ensures |t| <= |s| && t == s[..|t|] && forall k :: |t| <= k < |s| ==> IsSpace(s[k])
  {
    if s == "" || !IsSpace(s[|s| - 1]) then s else TrimRight(s[..|s| - 1])
  }

  function Trim(s: string): string {
    TrimRight(TrimLeft(s))
  }

  predicate TrimmedAlready(s: string) {
    s != "" ==> !IsSpace(s[0]) && !IsSpace(s[|s| - 1])
  }

  lemma TrimTrims(s: string)
    ensures TrimmedAlready(Trim(s))
    ensures TrimmedAlready(s) ==> Trim(s) == s
  {
    hide IsSpace;
    var t := TrimLeft(s);
    if Trim(s) != "" {
      assert Trim(s)[0] == t[0];
    }
  }
}
