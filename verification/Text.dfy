/** Outcomes shared by every component. */
module Outcomes {
  datatype Option<+T> = None | Some(value: T)

  datatype Result<+T, +E> = Ok(value: T) | Err(error: E)
}

/** The few string operations the services rely on, and why the strings they build are unambiguous. */
module Text {

  predicate IsSpace(c: char) {
    c == ' ' || '\t' <= c <= '\r' || c == '\U{00A0}'
  }

  predicate IsDigit(c: char) {
    '0' <= c <= '9'
  }

  predicate IsLower(c: char) {
    'a' <= c <= 'z'
  }

  predicate IsUpper(c: char) {
    'A' <= c <= 'Z'
  }

  function TrimLeft(s: string): (r: string)
    ensures |r| <= |s|
    ensures r != "" ==> !IsSpace(r[0])
    ensures s != "" && !IsSpace(s[0]) ==> r == s
    ensures forall c | c in r :: c in s
  {
    if s != "" && IsSpace(s[0]) then TrimLeft(s[1..]) else s
  }

  function TrimRight(s: string): (r: string)
    ensures r <= s
    ensures r != "" ==> !IsSpace(r[|r| - 1])
    ensures s != "" && !IsSpace(s[|s| - 1]) ==> r == s
  {
    if s != "" && IsSpace(s[|s| - 1]) then TrimRight(s[..|s| - 1]) else s
  }

  /** JavaScript's `trim`, on the white space that reaches these services. */
  function Trim(s: string): (r: string)
    ensures |r| <= |s|
    ensures r != "" ==> !IsSpace(r[0]) && !IsSpace(r[|r| - 1])
    ensures forall c | c in r :: c in s
  {
    TrimRight(TrimLeft(s))
  }

  lemma TrimIdempotent(s: string)
    ensures Trim(Trim(s)) == Trim(s)
  {
  }

  predicate Blank(s: string) {
    Trim(s) == ""
  }

  function LowerChar(c: char): (r: char)
    ensures !IsUpper(r)
  {
    if IsUpper(c) then c - 'A' + 'a' else c
  }

  /** `toLowerCase` on ASCII letters. */
  function Lower(s: string): (r: string)
    ensures |r| == |s|
    ensures forall i | 0 <= i < |s| :: r[i] == LowerChar(s[i])
  {
    if s == "" then "" else [LowerChar(s[0])] + Lower(s[1..])
  }

  /** `toUpperCase` on ASCII letters. */
  function Upper(s: string): (r: string)
    ensures |r| == |s|
  {
    if s == "" then "" else [if IsLower(s[0]) then s[0] - 'a' + 'A' else s[0]] + Upper(s[1..])
  }

  /** Decimal rendering of a number, as in a template string. */
  function Decimal(n: nat): (r: string)
    ensures r != "" && (|r| == 1 <==> n < 10)
    ensures forall c | c in r :: IsDigit(c)
  {
    if n < 10 then [n as char + '0'] else Decimal(n / 10) + [(n % 10) as char + '0']
  }

  lemma {:induction false} DecimalInjective(m: nat, n: nat)
    requires Decimal(m) == Decimal(n)
    ensures m == n
    decreases m
  {
    var a, b := Decimal(m), Decimal(n);
    if 10 <= m && 10 <= n {
      assert a[..|a| - 1] == Decimal(m / 10) && b[..|b| - 1] == Decimal(n / 10);
      DecimalInjective(m / 10, n / 10);
      assert a[|a| - 1] == (m % 10) as char + '0' && b[|b| - 1] == (n % 10) as char + '0';
    }
  }

  lemma DecimalShort(n: nat)
    requires n < 1000
    ensures |Decimal(n)| <= 3
  {
  }

  /** A text before the first separator can be told apart from what follows it. */
  lemma {:induction false} HeadUnambiguous(a: string, b: string, a': string, b': string, sep: char)
    requires sep !in a && sep !in a'
    requires a + [sep] + b == a' + [sep] + b'
    ensures a == a' && b == b'
  {
    var whole, whole' := a + [sep] + b, a' + [sep] + b';
    assert whole[|a|] == sep && whole'[|a'|] == sep;
    assert forall i | 0 <= i < |a| :: whole[i] == a[i];
    assert forall i | 0 <= i < |a'| :: whole'[i] == a'[i];
    assert a == whole[..|a|] && a' == whole'[..|a'|];
    assert b == whole[|a| + 1..] && b' == whole'[|a'| + 1..];
  }

  /** A text after the last separator can be told apart from what precedes it. */
  lemma {:induction false} TailUnambiguous(a: string, b: string, a': string, b': string, sep: char)
    requires sep !in b && sep !in b'
    requires a + [sep] + b == a' + [sep] + b'
    ensures a == a' && b == b'
  {
    var whole, whole' := a + [sep] + b, a' + [sep] + b';
    assert whole[|a|] == sep && whole'[|a'|] == sep;
    assert forall i | |a| < i < |whole| :: whole[i] == b[i - |a| - 1];
    assert forall i | |a'| < i < |whole'| :: whole'[i] == b'[i - |a'| - 1];
    assert a == whole[..|a|] && a' == whole'[..|a'|];
    assert b == whole[|a| + 1..] && b' == whole'[|a'| + 1..];
  }

  /** `split`, on a one-character separator. */
  function Split(s: string, sep: char): (parts: seq<string>)
    ensures |parts| >= 1
    ensures sep !in s ==> parts == [s]
  {
    if s == "" then [""]
    else
      var rest := Split(s[1..], sep);
      assert s == [s[0]] + s[1..];
      if s[0] == sep then [""] + rest else [[s[0]] + rest[0]] + rest[1..]
  }

  /** The pattern `^head tail*$`, on ASCII classes. */
  predicate AllTail(s: string, extra: string, upper: bool) {
    forall c | c in s :: IsLower(c) || IsDigit(c) || c in extra || (upper && IsUpper(c))
  }

  predicate StartsAlnum(s: string, upper: bool) {
    s != "" && (IsLower(s[0]) || IsDigit(s[0]) || (upper && IsUpper(s[0])))
  }
}
