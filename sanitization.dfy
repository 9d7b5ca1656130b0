/** The path sanitiser of `Cms::Behaviors::Attaching`: a fixed, ordered list
    of three (character class, replacement) rules folded over the input with
    a global substitution each. */
module Sanitization {

  import opened Text

  /** The character classes of the three rules. */
  datatype CharClass = Whitespace | Joiners | Illegal

  /** `/\s/`, `/[&+()]/` and `/[=?!'"{}\[\]#<>%]/`. */
  predicate Matches(cls: CharClass, c: char) {
    match cls
    case Whitespace => IsWhitespace(c)
    case Joiners => c == '&' || c == '+' || c == '(' || c == ')'
    case Illegal =>
      c == '=' || c == '?' || c == '!' || c == '\'' || c == '"' || c == '{' || c == '}' ||
      c == '[' || c == ']' || c == '#' || c == '<' || c == '>' || c == '%'
  }

  predicate MatchesAny(c: char) {
    Matches(Whitespace, c) || Matches(Joiners, c) || Matches(Illegal, c)
  }

  datatype Rule = Rule(cls: CharClass, replacement: string)

  /** The rule list, in the order it is applied. */
  const SANITIZATION_RULES: seq<Rule> := [Rule(Whitespace, "_"), Rule(Joiners, "-"), Rule(Illegal, "")]

  /** `String#gsub` with a one-character class and a literal replacement:
      every character of the class becomes `rep`, every other is kept. */
  function Gsub(s: string, cls: CharClass, rep: string): (r: string)
    ensures forall c | c in r :: (c in s && !Matches(cls, c)) || c in rep
    ensures |rep| <= 1 ==> |r| <= |s|
  {
    if s == [] then []
    else (if Matches(cls, s[0]) then rep else [s[0]]) + Gsub(s[1..], cls, rep)
  }

  /** `inject` over the rules: each rule rewrites the previous rule's output. */
  function ApplyRules(rules: seq<Rule>, s: string): string {
    if rules == [] then s
    else ApplyRules(rules[1..], Gsub(s, rules[0].cls, rules[0].replacement))
  }

  /** `sanitize_file_path` on a string (the caller has already applied `to_s`). */
  function SanitizeFilePath(s: string): string {
    ApplyRules(SANITIZATION_RULES, s)
  }

  /** What the three rules together do to one character. */
  function CleanChar(c: char): string {
    if IsWhitespace(c) then "_"
    else if Matches(Joiners, c) then "-"
    else if Matches(Illegal, c) then ""
    else [c]
  }

  /** Reference definition: every character rewritten on its own. */
  function CleanEach(s: string): string {
    if s == [] then [] else CleanChar(s[0]) + CleanEach(s[1..])
  }

  /** The reference rewrite leaves no character that any rule matches. */
  lemma {:induction false} CleanEachIsClean(s: string)
    ensures forall c | c in CleanEach(s) :: !MatchesAny(c)
  {
    if s != [] {
      CleanEachIsClean(s[1..]);
      assert forall c | c in CleanChar(s[0]) :: !MatchesAny(c);
    }
  }

  lemma {:induction false} GsubAppend(a: string, b: string, cls: CharClass, rep: string)
    ensures Gsub(a + b, cls, rep) == Gsub(a, cls, rep) + Gsub(b, cls, rep)
  {
    if a == [] {
      assert a + b == b;
    } else {
      assert (a + b)[1..] == a[1..] + b;
      GsubAppend(a[1..], b, cls, rep);
    }
  }

  lemma GsubOneChar(c: char, cls: CharClass, rep: string)
    ensures Gsub([c], cls, rep) == if Matches(cls, c) then rep else [c]
  {
    assert [c][1..] == [];
  }

  /** The fold written out: whitespace first, joiners second, illegal characters last. */
  lemma SanitizeInOrder(s: string)
    ensures SanitizeFilePath(s) == Gsub(Gsub(Gsub(s, Whitespace, "_"), Joiners, "-"), Illegal, "")
  {
    var rules := SANITIZATION_RULES;
    var s1 := Gsub(s, Whitespace, "_");
    var s2 := Gsub(s1, Joiners, "-");
    var s3 := Gsub(s2, Illegal, "");
    assert rules[0] == Rule(Whitespace, "_");
    assert ApplyRules(rules, s) == ApplyRules(rules[1..], s1);
    assert rules[1..][0] == Rule(Joiners, "-");
    assert ApplyRules(rules[1..], s1) == ApplyRules(rules[2..], s2);
    assert rules[2..][0] == Rule(Illegal, "");
    assert rules[2..][1..] == [];
    assert ApplyRules(rules[2..], s2) == ApplyRules([], s3);
  }

  lemma SanitizeOneChar(c: char)
    ensures SanitizeFilePath([c]) == CleanChar(c)
  {
    SanitizeInOrder([c]);
    GsubOneChar(c, Whitespace, "_");
    var g1 := Gsub([c], Whitespace, "_");
    if IsWhitespace(c) {
      GsubOneChar('_', Joiners, "-");
      GsubOneChar('_', Illegal, "");
    } else {
      GsubOneChar(c, Joiners, "-");
      if Matches(Joiners, c) {
        GsubOneChar('-', Illegal, "");
      } else {
        GsubOneChar(c, Illegal, "");
      }
    }
  }

  lemma SanitizeAppend(a: string, b: string)
    ensures SanitizeFilePath(a + b) == SanitizeFilePath(a) + SanitizeFilePath(b)
  {
    SanitizeInOrder(a + b);
    SanitizeInOrder(a);
    SanitizeInOrder(b);
    GsubAppend(a, b, Whitespace, "_");
    var a1, b1 := Gsub(a, Whitespace, "_"), Gsub(b, Whitespace, "_");
    GsubAppend(a1, b1, Joiners, "-");
    var a2, b2 := Gsub(a1, Joiners, "-"), Gsub(b1, Joiners, "-");
    GsubAppend(a2, b2, Illegal, "");
  }

  /** Applying the rules in sequence is the same as rewriting each character
      on its own: no rule rewrites what an earlier rule produced. */
  lemma {:induction false} SanitizeIsCharwise(s: string)
    ensures SanitizeFilePath(s) == CleanEach(s)
  {
    if s != [] {
      assert s == [s[0]] + s[1..];
      SanitizeAppend([s[0]], s[1..]);
      SanitizeOneChar(s[0]);
      SanitizeIsCharwise(s[1..]);
    }
  }

  /** No character of any rule survives sanitisation. */
  lemma SanitizedIsClean(s: string)
    ensures forall c | c in SanitizeFilePath(s) :: !MatchesAny(c)
  {
    SanitizeIsCharwise(s);
    CleanEachIsClean(s);
  }

  /** A string free of rule characters is left as it is. */
  lemma {:induction false} CleanEachFixesClean(s: string)
    requires forall c | c in s :: !MatchesAny(c)
    ensures CleanEach(s) == s
  {
    if s != [] {
      assert s[0] in s;
      assert forall c | c in s[1..] :: c in s;
      CleanEachFixesClean(s[1..]);
    }
  }

  /** Sanitising twice is sanitising once. */
  lemma SanitizeIdempotent(s: string)
    ensures SanitizeFilePath(SanitizeFilePath(s)) == SanitizeFilePath(s)
  {
    var t := SanitizeFilePath(s);
    SanitizedIsClean(s);
    SanitizeIsCharwise(t);
    CleanEachFixesClean(t);
  }

  /** A sanitised path is blank exactly when it is empty. */
  lemma SanitizedBlankIffEmpty(s: string)
    ensures Blank(SanitizeFilePath(s)) <==> SanitizeFilePath(s) == []
  {
    var t := SanitizeFilePath(s);
    SanitizedIsClean(s);
    assert forall i | 0 <= i < |t| :: t[i] in t;
    BlankIffEmptyWithoutWhitespace(t);
  }

  lemma CleanEachCons(c: char, t: string)
    ensures CleanEach([c] + t) == CleanChar(c) + CleanEach(t)
  {
    assert ([c] + t)[1..] == t;
  }

  lemma CleanEachExample()
    ensures CleanEach("a b&c=d") == "a_b-cd"
  {
    var s0: string := [];
    var s1 := ['d'] + s0;
    var s2 := ['='] + s1;
    var s3 := ['c'] + s2;
    var s4 := ['&'] + s3;
    var s5 := ['b'] + s4;
    var s6 := [' '] + s5;
    var s7 := ['a'] + s6;
    CleanEachCons('d', s0);
    CleanEachCons('=', s1);
    CleanEachCons('c', s2);
    CleanEachCons('&', s3);
    CleanEachCons('b', s4);
    CleanEachCons(' ', s5);
    CleanEachCons('a', s6);
    assert CleanEach(s7) == "a_b-cd";
    assert s7 == "a b&c=d";
  }
}
