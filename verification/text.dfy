/**
 String helpers the source gets from Python: `str()` of an identifier or an
 integer, `%`-interpolation of a message template, `str.join`, and the
 case-insensitive comparison behind Django's `iexact` lookup.
 */
module Text {

  predicate IsDigit(c: char)
  {
    '0' <= c <= '9'
  }

  function DigitChar(d: nat): (c: char)
    requires d < 10
    ensures IsDigit(c)
  {
    ['0', '1', '2', '3', '4', '5', '6', '7', '8', '9'][d]
  }

  function DigitValue(c: char): nat
    requires IsDigit(c)
  {
    (c as int - '0' as int) as nat
  }

  /** Decimal rendering of a natural number, as Python's `str` gives it. */
  function NatToString(n: nat): (s: string)
    ensures |s| > 0
    ensures forall i :: 0 <= i < |s| ==> IsDigit(s[i])
    decreases n
  {
    if n < 10 then [DigitChar(n)] else NatToString(n / 10) + [DigitChar(n % 10)]
  }

  /** Reads a non-empty run of decimal digits back as a number. */
  function ParseNat(s: string): nat
    requires |s| > 0
    requires forall i :: 0 <= i < |s| ==> IsDigit(s[i])
  {
    if |s| == 1 then DigitValue(s[0]) else ParseNat(s[..|s| - 1]) * 10 + DigitValue(s[|s| - 1])
  }

  lemma DigitRoundTrip(d: nat)
    requires d < 10
    ensures DigitValue(DigitChar(d)) == d
  {
  }

  /** Rendering then reading a number gives the number back. */
  lemma {:induction false} NatToStringRoundTrip(n: nat)
    ensures ParseNat(NatToString(n)) == n
    decreases n
  {
    if n < 10 {
      DigitRoundTrip(n);
    } else {
      var prefix := NatToString(n / 10);
      var s := NatToString(n);
      assert s == prefix + [DigitChar(n % 10)];
      assert s[..|s| - 1] == prefix;
      NatToStringRoundTrip(n / 10);
      DigitRoundTrip(n % 10);
    }
  }

  /** Distinct numbers render differently. */
  lemma NatToStringInjective(a: nat, b: nat)
    requires NatToString(a) == NatToString(b)
    ensures a == b
  {
    NatToStringRoundTrip(a);
    NatToStringRoundTrip(b);
  }

  /** Python's `str` of an integer: a minus sign before the magnitude when negative. */
  function IntToString(i: int): (s: string)
    ensures |s| > 0
    ensures (s[0] == '-') <==> i < 0
  {
    if i < 0 then "-" + NatToString(-i) else NatToString(i)
  }

  /** A message template with one `%(key)s` placeholder: the text before and after it. */
  datatype Template = Template(head: string, tail: string)

  /** `template % {key: arg}`: the argument sits between the head and the tail. */
  function Format(t: Template, arg: string): (m: string)
    ensures |m| == |t.head| + |arg| + |t.tail|
    ensures m[..|t.head|] == t.head
    ensures m[|t.head|..|t.head| + |arg|] == arg
    ensures m[|t.head| + |arg|..] == t.tail
  {
    t.head + arg + t.tail
  }

  /** A formatted message determines the argument that was interpolated into it. */
  lemma FormatInjective(t: Template, a: string, b: string)
    requires Format(t, a) == Format(t, b)
    ensures a == b
  {
    var m := Format(t, a);
    assert |a| == |b|;
    assert a == m[|t.head|..|t.head| + |a|];
  }

  /** A message template with two placeholders. */
  datatype Template2 = Template2(head: string, middle: string, tail: string)

  function Format2(t: Template2, first: string, second: string): (m: string)
    ensures m == Format(Template(t.head, t.middle + second + t.tail), first)
    ensures m == Format(Template(t.head + first + t.middle, t.tail), second)
  {
    t.head + first + t.middle + second + t.tail
  }

  /** Python's `sep.join(parts)`. */
  function Join(sep: string, parts: seq<string>): (s: string)
    ensures |parts| == 0 ==> s == ""
    ensures |parts| == 1 ==> s == parts[0]
  {
    if |parts| == 0 then ""
    else if |parts| == 1 then parts[0]
    else Join(sep, parts[..|parts| - 1]) + sep + parts[|parts| - 1]
  }

  /** Every part appears in the joined string, in order: for two parts, `a + sep + b`. */
  lemma JoinTwo(sep: string, a: string, b: string)
    ensures Join(sep, [a, b]) == a + sep + b
  {
    assert [a, b][..1] == [a];
  }

  /** ASCII lower-casing of one character; every other character is left alone. */
  function Lower(c: char): (r: char)
    ensures 'A' <= c <= 'Z' ==> 'a' <= r <= 'z'
    ensures !('A' <= c <= 'Z') ==> r == c
  {
    if 'A' <= c <= 'Z' then (c as int - 'A' as int + 'a' as int) as char else c
  }

  function LowerString(s: string): (r: string)
    ensures |r| == |s|
    ensures forall i :: 0 <= i < |s| ==> r[i] == Lower(s[i])
  {
    seq(|s|, i requires 0 <= i < |s| => Lower(s[i]))
  }

  /** Case-insensitive equality, Django's `iexact` restricted to ASCII letters. */
  predicate IEquals(a: string, b: string)
  {
    LowerString(a) == LowerString(b)
  }

  /** Two strings that differ only in the case of ASCII letters compare equal. */
  lemma IEqualsIgnoresCase(a: string, b: string)
    requires |a| == |b|
    requires forall i :: 0 <= i < |a| ==> a[i] == b[i] || Lower(a[i]) == Lower(b[i])
    ensures IEquals(a, b)
  {
    assert forall i :: 0 <= i < |a| ==> LowerString(a)[i] == LowerString(b)[i];
  }

  /** `iexact` never equates strings of different lengths, nor strings that differ outside letter case. */
  lemma IEqualsOnlyCase(a: string, b: string, i: nat)
    requires IEquals(a, b)
    requires i < |a|
    ensures |a| == |b|
    ensures Lower(a[i]) == Lower(b[i])
  {
    assert |LowerString(a)| == |LowerString(b)|;
    assert LowerString(a)[i] == LowerString(b)[i];
  }
}
