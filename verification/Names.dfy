/** Text normalisation shared by the services: `str::trim` and `to_ascii_lowercase`. */
module Names {

  /** The Unicode White_Space property, which is what `str::trim` strips. */
  predicate White(c: char) {
    var n := c as int;
    || 9 <= n <= 13 || n == 32 || n == 0x85 || n == 0xA0 || n == 0x1680
    || 0x2000 <= n <= 0x200A || n == 0x2028 || n == 0x2029 || n == 0x202F || n == 0x205F || n == 0x3000
  }

  const SPACES := "\t\n\U{B}\U{C}\r \U{85}\U{A0}\U{1680}\U{2000}\U{2001}\U{2002}\U{2003}\U{2004}\U{2005}\U{2006}"
    + "\U{2007}\U{2008}\U{2009}\U{200A}\U{2028}\U{2029}\U{202F}\U{205F}\U{3000}"

  /** The 25 characters of White_Space, one by one. */
  lemma WhiteIs(c: char)
    ensures White(c) <==> c in SPACES
  {
    assert SPACES[0] as int == 9;
  }

  function TrimStart(s: string): string {
    if s != [] && White(s[0]) then TrimStart(s[1..]) else s
  }

  function TrimEnd(s: string): string {
    if s != [] && White(s[|s| - 1]) then TrimEnd(s[..|s| - 1]) else s
  }

  function Trim(s: string): string {
    TrimEnd(TrimStart(s))
  }

  function LowerChar(c: char): char {
    if 'A' <= c <= 'Z' then c - 'A' + 'a' else c
  }

  function Lower(s: string): string {
    seq(|s|, i requires 0 <= i < |s| => LowerChar(s[i]))
  }

  const UPPER := "ABCDEFGHIJKLMNOPQRSTUVWXYZ"
  const LOWER := "abcdefghijklmnopqrstuvwxyz"
  const DIGITS := "0123456789"

  /** The 26 capitals of ASCII become small letters, and no other character changes. */
  lemma LowerIs(s: string)
    ensures |UPPER| == |LOWER| == 26 && |Lower(s)| == |s|
    ensures forall i, k :: 0 <= i < |s| && 0 <= k < 26 && s[i] == UPPER[k] ==> Lower(s)[i] == LOWER[k]
    ensures forall i :: 0 <= i < |s| && s[i] !in UPPER ==> Lower(s)[i] == s[i]
  {
    forall c: char | 'A' <= c <= 'Z'
      ensures c in UPPER
    {
      assert UPPER[c as int - 'A' as int] == c;
    }
  }

  /** Capitals, small letters and digits of ASCII by the order of their codes are those by name. */
  lemma Alphanumeric(c: char)
    ensures c in UPPER <==> 'A' <= c <= 'Z'
    ensures c in LOWER <==> 'a' <= c <= 'z'
    ensures c in DIGITS <==> '0' <= c <= '9'
  {
    NamedCapital(c);
    NamedSmall(c);
    NamedDigit(c);
  }

  lemma NamedCapital(c: char)
    ensures c in UPPER <==> 'A' <= c <= 'Z'
  {
    if 'A' <= c <= 'Z' {
      assert UPPER[c as int - 'A' as int] == c;
    }
  }

  lemma NamedSmall(c: char)
    ensures c in LOWER <==> 'a' <= c <= 'z'
  {
    if 'a' <= c <= 'z' {
      assert LOWER[c as int - 'a' as int] == c;
    }
  }

  lemma NamedDigit(c: char)
    ensures c in DIGITS <==> '0' <= c <= '9'
  {
    if '0' <= c <= '9' {
      assert DIGITS[c as int - '0' as int] == c;
    }
  }

  function Normal(s: string): string {
    Lower(Trim(s))
  }

  predicate Trimmed(s: string) {
    s == [] || (!White(s[0]) && !White(s[|s| - 1]))
  }

  lemma {:induction false} TrimStartSpec(s: string)
    ensures TrimStart(s) == [] || !White(TrimStart(s)[0])
  {
    if s != [] && White(s[0]) {
      TrimStartSpec(s[1..]);
    }
  }

  lemma {:induction false} TrimEndSpec(s: string)
    requires s == [] || !White(s[0])
    ensures Trimmed(TrimEnd(s))
  {
    if s != [] && White(s[|s| - 1]) {
      TrimEndSpec(s[..|s| - 1]);
    }
  }

  lemma {:induction false} TrimStartCuts(s: string) returns (front: string)
    ensures s == front + TrimStart(s) && forall i :: 0 <= i < |front| ==> White(front[i])
  {
    if s != [] && White(s[0]) {
      var more := TrimStartCuts(s[1..]);
      front := [s[0]] + more;
    } else {
      front := [];
    }
  }

  lemma {:induction false} TrimEndCuts(s: string) returns (back: string)
    ensures s == TrimEnd(s) + back && forall i :: 0 <= i < |back| ==> White(back[i])
  {
    if s != [] && White(s[|s| - 1]) {
      var more := TrimEndCuts(s[..|s| - 1]);
      back := more + [s[|s| - 1]];
      assert s == s[..|s| - 1] + [s[|s| - 1]];
    } else {
      back := [];
    }
  }

  /** Trimming takes white space from both ends, and nothing else. */
  lemma TrimCuts(s: string) returns (front: string, back: string)
    ensures s == front + Trim(s) + back && Trimmed(Trim(s))
    ensures forall i :: 0 <= i < |front| ==> White(front[i])
    ensures forall i :: 0 <= i < |back| ==> White(back[i])
  {
    front := TrimStartCuts(s);
    back := TrimEndCuts(TrimStart(s));
    TrimStartSpec(s);
    TrimEndSpec(TrimStart(s));
    assert s == front + (Trim(s) + back);
  }

  /** Trimming removes everything it can, and trimming or normalising again changes nothing. */
  lemma NormalIsStable(s: string)
    ensures Trimmed(Trim(s)) && Trim(Trim(s)) == Trim(s)
    ensures Normal(Normal(s)) == Normal(s)
    ensures Trimmed(Normal(s))
  {
    TrimStartSpec(s);
    TrimEndSpec(TrimStart(s));
    var n := Normal(s);
    assert Trimmed(n);
    assert Trim(n) == n;
    assert Lower(n) == n;
  }
}
