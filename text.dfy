/** Character and string helpers that the attachment code takes from Ruby:
    the `\s` class, `blank?`, ASCII `downcase`, `File.basename` and the
    decimal rendering of integers inside string interpolation. */
module Text {

  import opened Wrappers

  /** Ruby's `\s` character class: space, tab, line feed, vertical tab,
      form feed and carriage return. */
  predicate IsWhitespace(c: char) {
    c == ' ' || c == '\t' || c == '\n' || c == '\U{0B}' || c == '\U{0C}' || c == '\r'
  }

  /** `String#blank?`: empty or made only of whitespace. */
  predicate Blank(s: string) {
    forall i | 0 <= i < |s| :: IsWhitespace(s[i])
  }

  /** `Object#blank?` on a nullable string: nil is blank. */
  predicate BlankOpt(s: Option<string>) {
    s.None? || Blank(s.value)
  }

  lemma BlankIffEmptyWithoutWhitespace(s: string)
    requires forall i | 0 <= i < |s| :: !IsWhitespace(s[i])
    ensures Blank(s) <==> s == []
  {
    if s != [] {
      assert !IsWhitespace(s[0]);
    }
  }

  function DowncaseChar(c: char): (d: char)
    ensures 'A' <= c <= 'Z' ==> 'a' <= d <= 'z'
    ensures !('A' <= c <= 'Z') ==> d == c
  {
    if 'A' <= c <= 'Z' then (c - 'A' + 'a') as char else c
  }

  /** `String#downcase` on ASCII letters; every other character is kept. */
  function Downcase(s: string): (r: string)
    ensures |r| == |s|
    ensures forall i | 0 <= i < |s| :: r[i] == DowncaseChar(s[i])
    ensures forall i | 0 <= i < |r| :: !('A' <= r[i] <= 'Z')
  {
    if s == [] then [] else [DowncaseChar(s[0])] + Downcase(s[1..])
  }

  lemma DowncaseKeepsLowerCase(s: string)
    requires forall i | 0 <= i < |s| :: !('A' <= s[i] <= 'Z')
    ensures Downcase(s) == s
  {
  }

  /** `s` with every trailing '/' removed. */
  function StripTrailingSlashes(s: string): (r: string)
    ensures r <= s
    ensures r == [] || r[|r| - 1] != '/'
    ensures forall i | |r| <= i < |s| :: s[i] == '/'
  {
    if s != [] && s[|s| - 1] == '/' then StripTrailingSlashes(s[..|s| - 1]) else s
  }

  /** The part of `s` after its last '/' (all of `s` when it has none). */
  function AfterLastSlash(s: string): (r: string)
    ensures |r| <= |s| && r == s[|s| - |r|..]
    ensures forall i | 0 <= i < |r| :: r[i] != '/'
    ensures |r| < |s| ==> s[|s| - |r| - 1] == '/'
  {
    if s == [] || s[|s| - 1] == '/' then [] else AfterLastSlash(s[..|s| - 1]) + [s[|s| - 1]]
  }

  /** `File.basename` (POSIX separators): trailing slashes are ignored, a
      name made only of slashes is "/", otherwise the last path component. */
  function Basename(s: string): (r: string)
  {
    if s == [] then []
    else
      var t := StripTrailingSlashes(s);
      if t == [] then "/" else AfterLastSlash(t)
  }

  lemma BasenameIsLastComponent(s: string)
    ensures Basename(s) == "/" || forall i | 0 <= i < |Basename(s)| :: Basename(s)[i] != '/'
    ensures s != [] ==> Basename(s) != []
  {
    if s != [] {
      var t := StripTrailingSlashes(s);
      if t != [] {
        assert t[|t| - 1] != '/';
        assert AfterLastSlash(t) != [];
      }
    }
  }

  /** A name without separators is its own base name. */
  lemma BasenameOfPlainName(s: string)
    requires forall i | 0 <= i < |s| :: s[i] != '/'
    ensures Basename(s) == s
  {
    if s != [] {
      assert s[|s| - 1] != '/';
      assert StripTrailingSlashes(s) == s;
    }
  }

  predicate IsDigit(c: char) {
    '0' <= c <= '9'
  }

  function DigitChar(d: nat): (c: char)
    requires d < 10
    ensures IsDigit(c)
  {
    ('0' as int + d) as char
  }

  function DigitValue(c: char): (d: nat)
    requires IsDigit(c)
    ensures d < 10
  {
    c as int - '0' as int
  }

  /** Decimal digits of a natural number, most significant first. */
  function NatToString(n: nat): (s: string)
    ensures s != []
    ensures forall i | 0 <= i < |s| :: IsDigit(s[i])
  {
    if n < 10 then [DigitChar(n)] else NatToString(n / 10) + [DigitChar(n % 10)]
  }

  /** The value of a string of decimal digits. */
  function ParseNat(s: string): nat
    requires forall i | 0 <= i < |s| :: IsDigit(s[i])
  {
    if s == [] then 0 else 10 * ParseNat(s[..|s| - 1]) + DigitValue(s[|s| - 1])
  }

  lemma {:induction false} ParseNatToString(n: nat)
    ensures ParseNat(NatToString(n)) == n
  {
    if n >= 10 {
      var s := NatToString(n);
      assert s[..|s| - 1] == NatToString(n / 10);
      ParseNatToString(n / 10);
    }
  }

  /** How Ruby interpolates an integer: decimal, with a leading '-' when negative. */
  function IntToString(n: int): (s: string)
    ensures s != []
    ensures n >= 0 ==> s == NatToString(n)
    ensures n < 0 ==> s == "-" + NatToString(-n)
  {
    if n < 0 then "-" + NatToString(-n) else NatToString(n)
  }

  /** How Ruby interpolates a nullable integer: nil becomes the empty string. */
  function ShowOpt(n: Option<int>): (s: string)
    ensures s == [] <==> n.None?
  {
    if n.None? then "" else IntToString(n.value)
  }

  /** Reading back a rendered nullable integer gives the integer. */
  function ReadOpt(s: string): Option<int> {
    if s == [] then None
    else if s[0] == '-' && (forall i | 1 <= i < |s| :: IsDigit(s[i])) then Some(-(ParseNat(s[1..]) as int))
    else if forall i | 0 <= i < |s| :: IsDigit(s[i]) then Some(ParseNat(s))
    else None
  }

  lemma ReadShowOpt(n: Option<int>)
    ensures ReadOpt(ShowOpt(n)) == n
  {
    if n.Some? {
      var v := n.value;
      if v < 0 {
        ParseNatToString(-v);
        assert ShowOpt(n)[1..] == NatToString(-v);
      } else {
        ParseNatToString(v);
        assert ShowOpt(n)[0] != '-';
      }
    }
  }
}
