/**
 * The four fixed regular expressions of the validators, given meaning by a
 * small semantics of anchored patterns (`^...$` with `RegExp.test`), and the
 * character-level predicates the validators evaluate instead, proved equal.
 */
module Patterns {
  import opened Decimal

  /** The fragment of JavaScript patterns these validators use. */
  datatype Re =
    | Class(accepts: char -> bool)   // a bracket class such as `[A-Za-z]`, or one literal character
    | Cat(left: Re, right: Re)       // concatenation
    | Plus(body: Re)                 // one or more repetitions, `+`

  /** `s` matches `re` as a whole (the pattern is anchored at both ends). */
  ghost predicate Matches(re: Re, s: string)
    decreases re, |s|
  {
    match re
    case Class(p) => |s| == 1 && p(s[0])
    case Cat(a, b) => exists i :: 0 <= i <= |s| && Matches(a, s[..i]) && Matches(b, s[i..])
    case Plus(a) =>
      Matches(a, s) || exists i :: 0 < i < |s| && Matches(a, s[..i]) && Matches(re, s[i..])
  }

  function Lit(c: char): Re {
    Class(x => x == c)
  }

  /** `re{n}` for n >= 1. */
  function Repeat(re: Re, n: nat): Re
    requires n >= 1
    decreases n
  {
    if n == 1 then re else Cat(re, Repeat(re, n - 1))
  }

  predicate All(s: string, p: char -> bool) {
    forall k :: 0 <= k < |s| ==> p(s[k])
  }

  // Character classes

  predicate IsAsciiLetter(c: char) {
    'A' <= c <= 'Z' || 'a' <= c <= 'z'
  }

  /** `[A-Za-z0-9]`; `IsDigit` is also `\d` outside Unicode mode. */
  predicate IsAsciiAlphanumeric(c: char) {
    IsAsciiLetter(c) || IsDigit(c)
  }

  /** `[a-f\d]` under the `i` flag: case folding adds `A-F` and nothing outside ASCII. */
  predicate IsHexDigit(c: char) {
    IsDigit(c) || 'a' <= c <= 'f' || 'A' <= c <= 'F'
  }

  /** `\s`: the ECMAScript white space and line terminator characters. */
  predicate IsJsSpace(c: char) {
    var u := c as int;
    (9 <= u <= 13) || u == 32 || u == 0xA0 || u == 0x1680 || (0x2000 <= u <= 0x200A) ||
    u == 0x2028 || u == 0x2029 || u == 0x202F || u == 0x205F || u == 0x3000 || u == 0xFEFF
  }

  /** `[^\s@]`. */
  predicate IsEmailChar(c: char) {
    !IsJsSpace(c) && c != '@'
  }

  // The validators' patterns

  /** `/^[A-Za-z]+$/` */
  const AlphaPattern: Re := Plus(Class(IsAsciiLetter))

  /** `/^[A-Za-z0-9]+$/` */
  const AlphanumericPattern: Re := Plus(Class(IsAsciiAlphanumeric))

  /** `/^[a-f\d]{24}$/i` */
  const MongoIdPattern: Re := Repeat(Class(IsHexDigit), 24)

  /** `/^[^\s@]+@[^\s@]+\.[^\s@]+$/`, read from the `@` on. */
  const EmailDomainPattern: Re := Cat(Plus(Class(IsEmailChar)), Cat(Lit('.'), Plus(Class(IsEmailChar))))
  const EmailPattern: Re := Cat(Plus(Class(IsEmailChar)), Cat(Lit('@'), EmailDomainPattern))

  // Generic facts about the semantics

  /** `[...]+` matches exactly the non-empty strings of class members. */
  lemma {:induction false} PlusClass(p: char -> bool, s: string)
    ensures Matches(Plus(Class(p)), s) <==> |s| > 0 && All(s, p)
    decreases |s|
  {
    var re := Plus(Class(p));
    if |s| > 1 {
      PlusClass(p, s[1..]);
      if Matches(re, s) {
        assert !Matches(Class(p), s);
        var i :| 0 < i < |s| && Matches(Class(p), s[..i]) && Matches(re, s[i..]);
        assert i == 1;
      }
      if All(s, p) {
        assert Matches(Class(p), s[..1]);
        assert All(s[1..], p);
      }
    }
  }

  /** `[...]{n}` matches exactly the strings of `n` class members. */
  lemma RepeatClass(p: char -> bool, n: nat, s: string)
    requires n >= 1
    ensures Matches(Repeat(Class(p), n), s) <==> |s| == n && All(s, p)
  {
    if Matches(Repeat(Class(p), n), s) {
      RepeatClassMatched(p, n, s);
    }
    if |s| == n && All(s, p) {
      RepeatClassMembers(p, n, s);
    }
  }

  lemma {:induction false} RepeatClassMatched(p: char -> bool, n: nat, s: string)
    requires n >= 1 && Matches(Repeat(Class(p), n), s)
    ensures |s| == n && All(s, p)
    decreases n
  {
    if n > 1 {
      var i :| 0 <= i <= |s| && Matches(Class(p), s[..i]) && Matches(Repeat(Class(p), n - 1), s[i..]);
      assert i == 1;
      RepeatClassMatched(p, n - 1, s[1..]);
      assert forall k :: 1 <= k < |s| ==> s[k] == s[1..][k - 1];
    }
  }

  lemma {:induction false} RepeatClassMembers(p: char -> bool, n: nat, s: string)
    requires n >= 1 && |s| == n && All(s, p)
    ensures Matches(Repeat(Class(p), n), s)
    decreases n
  {
    if n > 1 {
      assert All(s[1..], p);
      RepeatClassMembers(p, n - 1, s[1..]);
      assert Matches(Class(p), s[..1]);
    }
  }

  /** A literal followed by a pattern: the first character is the literal. */
  lemma LitThen(c: char, re: Re, s: string)
    ensures Matches(Cat(Lit(c), re), s) <==> |s| > 0 && s[0] == c && Matches(re, s[1..])
  {
    if Matches(Cat(Lit(c), re), s) {
      var i :| 0 <= i <= |s| && Matches(Lit(c), s[..i]) && Matches(re, s[i..]);
      assert i == 1;
    }
    if |s| > 0 && s[0] == c && Matches(re, s[1..]) {
      assert Matches(Lit(c), s[..1]);
    }
  }

  // The character-level forms the validators evaluate

  predicate AlphaText(s: string) {
    |s| > 0 && All(s, IsAsciiLetter)
  }

  predicate AlphanumericText(s: string) {
    |s| > 0 && All(s, IsAsciiAlphanumeric)
  }

  predicate MongoIdText(s: string) {
    |s| == 24 && All(s, IsHexDigit)
  }

  /** Index of the first `c` in `s`, or `|s|` when there is none. */
  function IndexOf(s: string, c: char): (i: nat)
    ensures i <= |s|
    ensures i < |s| ==> s[i] == c
    ensures forall k :: 0 <= k < i ==> s[k] != c
  {
    if s == [] || s[0] == c then 0 else 1 + IndexOf(s[1..], c)
  }

  /** After the `@`: no white space or `@`, and a dot with a character on each side. */
  predicate EmailDomainText(d: string) {
    All(d, IsEmailChar) && |d| >= 2 && '.' in d[1..|d| - 1]
  }

  /** A non-empty local part, one `@`, and a dotted domain, without white space. */
  predicate EmailText(s: string) {
    var at := IndexOf(s, '@');
    0 < at < |s| && All(s[..at], IsEmailChar) && EmailDomainText(s[at + 1..])
  }

  // The character-level forms agree with the patterns

  lemma AlphaTextMatches(s: string)
    ensures Matches(AlphaPattern, s) <==> AlphaText(s)
  {
    PlusClass(IsAsciiLetter, s);
  }

  lemma AlphanumericTextMatches(s: string)
    ensures Matches(AlphanumericPattern, s) <==> AlphanumericText(s)
  {
    PlusClass(IsAsciiAlphanumeric, s);
  }

  lemma MongoIdTextMatches(s: string)
    ensures Matches(MongoIdPattern, s) <==> MongoIdText(s)
  {
    RepeatClass(IsHexDigit, 24, s);
  }

  lemma EmailDomainTextMatches(d: string)
    ensures Matches(EmailDomainPattern, d) <==> EmailDomainText(d)
  {
    if Matches(EmailDomainPattern, d) {
      EmailDomainMatchIsText(d);
    }
    if EmailDomainText(d) {
      EmailDomainTextIsMatch(d);
    }
  }

  lemma EmailDomainMatchIsText(d: string)
    requires Matches(EmailDomainPattern, d)
    ensures EmailDomainText(d)
  {
    var part := Plus(Class(IsEmailChar));
    var j :| 0 <= j <= |d| && Matches(part, d[..j]) && Matches(Cat(Lit('.'), part), d[j..]);
    PlusClass(IsEmailChar, d[..j]);
    LitThen('.', part, d[j..]);
    PlusClass(IsEmailChar, d[j + 1..]);
    assert d == d[..j] + [d[j]] + d[j + 1..];
    assert d[1..|d| - 1][j - 1] == '.';
  }

  lemma EmailDomainTextIsMatch(d: string)
    requires EmailDomainText(d)
    ensures Matches(EmailDomainPattern, d)
  {
    var part := Plus(Class(IsEmailChar));
    var j' :| 0 <= j' < |d[1..|d| - 1]| && d[1..|d| - 1][j'] == '.';
    var j := j' + 1;
    PlusClass(IsEmailChar, d[..j]);
    PlusClass(IsEmailChar, d[j + 1..]);
    LitThen('.', part, d[j..]);
    assert d[j..][1..] == d[j + 1..];
    assert d[..j] + d[j..] == d;
  }

  lemma EmailTextMatches(s: string)
    ensures Matches(EmailPattern, s) <==> EmailText(s)
  {
    if Matches(EmailPattern, s) {
      EmailMatchIsText(s);
    }
    if EmailText(s) {
      EmailTextIsMatch(s);
    }
  }

  lemma EmailMatchIsText(s: string)
    requires Matches(EmailPattern, s)
    ensures EmailText(s)
  {
    var i :| 0 <= i <= |s| && Matches(Plus(Class(IsEmailChar)), s[..i]) && Matches(Cat(Lit('@'), EmailDomainPattern), s[i..]);
    PlusClass(IsEmailChar, s[..i]);
    LitThen('@', EmailDomainPattern, s[i..]);
    assert s[i..][1..] == s[i + 1..];
    EmailDomainTextMatches(s[i + 1..]);
    assert forall k :: 0 <= k < i ==> s[k] == s[..i][k];
    assert IndexOf(s, '@') == i;
  }

  lemma EmailTextIsMatch(s: string)
    requires EmailText(s)
    ensures Matches(EmailPattern, s)
  {
    var at := IndexOf(s, '@');
    PlusClass(IsEmailChar, s[..at]);
    EmailDomainTextMatches(s[at + 1..]);
    LitThen('@', EmailDomainPattern, s[at..]);
    assert s[at..][1..] == s[at + 1..];
    assert s[..at] + s[at..] == s;
  }
}
