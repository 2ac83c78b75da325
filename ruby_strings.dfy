/**
  The pieces of Ruby and ActiveSupport string behaviour that the census
  handler relies on: `String#blank?`, anchored character-class regular
  expressions of the form \A[...]*\z, `String#to_i`, `Integer#to_s` and the
  zero-padded conversions `strftime` uses for %Y, %m and %d.
*/
module RubyStrings {

  /** A character of the class [[:space:]] on a Unicode string: the White_Space characters. */
  predicate IsSpace(c: char) {
    ('\t' <= c <= '\r') || c == ' ' || c == '\U{0085}' || c == '\U{00A0}' || c == '\U{1680}'
    || ('\U{2000}' <= c <= '\U{200A}') || c == '\U{2028}' || c == '\U{2029}'
    || c == '\U{202F}' || c == '\U{205F}' || c == '\U{3000}'
  }

  /** A character the integer parser behind `String#to_i` skips before a number. */
  predicate IsAsciiSpace(c: char) {
    ('\t' <= c <= '\r') || c == ' '
  }

  predicate IsDigit(c: char) {
    '0' <= c <= '9'
  }

  predicate AllDigits(s: string) {
    forall i :: 0 <= i < |s| ==> IsDigit(s[i])
  }

  /** Whether the anchored expression \A[cls]*\z matches s, scanning it left to right. */
  function MatchesClassStar(s: string, cls: char -> bool): (m: bool)
    ensures m <==> forall i :: 0 <= i < |s| ==> cls(s[i])
  {
    if s == [] then true else cls(s[0]) && MatchesClassStar(s[1..], cls)
  }

  /** ActiveSupport's `String#blank?`: the string is empty or holds only whitespace. */
  predicate BlankString(s: string) {
    MatchesClassStar(s, IsSpace)
  }

  function DigitChar(d: nat): (c: char)
    requires d < 10
    ensures IsDigit(c)
  {
    ('0' as int + d) as char
  }

  function DigitValue(c: char): (d: nat)
    requires IsDigit(c)
    ensures d < 10 && DigitChar(d) == c
  {
    c as int - '0' as int
  }

  /** The value of a run of decimal digits, most significant digit first. */
  function DigitsValue(ds: string): nat
    requires AllDigits(ds)
  {
    if ds == [] then 0 else 10 * DigitsValue(ds[..|ds| - 1]) + DigitValue(ds[|ds| - 1])
  }

  function Pow10(k: nat): nat {
    if k == 0 then 1 else 10 * Pow10(k - 1)
  }

  /** `Integer#to_s` of a non-negative integer: its decimal digits, with no leading zero. */
  function NatToS(n: nat): (ds: string)
    ensures |ds| >= 1 && AllDigits(ds)
    ensures DigitsValue(ds) == n
    ensures |ds| > 1 ==> ds[0] != '0'
    decreases n
  {
    if n < 10 then [DigitChar(n)]
    else
      var ds := NatToS(n / 10) + [DigitChar(n % 10)];
      assert ds[..|ds| - 1] == NatToS(n / 10);
      ds
  }

  lemma {:induction false} NatToSLength(n: nat, k: nat)
    requires 1 <= k && n < Pow10(k)
    ensures |NatToS(n)| <= k
  {
    if n >= 10 {
      assert k >= 2;
      assert n / 10 < Pow10(k - 1);
      NatToSLength(n / 10, k - 1);
    }
  }

  lemma {:induction false} ZerosValue(z: string)
    requires forall i :: 0 <= i < |z| ==> z[i] == '0'
    ensures AllDigits(z) && DigitsValue(z) == 0
  {
    if z != [] {
      ZerosValue(z[..|z| - 1]);
    }
  }

  /** Leading zeros do not change the value of a run of digits. */
  lemma {:induction false} LeadingZerosValue(z: string, ds: string)
    requires forall i :: 0 <= i < |z| ==> z[i] == '0'
    requires AllDigits(ds)
    ensures AllDigits(z + ds) && DigitsValue(z + ds) == DigitsValue(ds)
    decreases |ds|
  {
    if ds == [] {
      assert z + ds == z;
      ZerosValue(z);
    } else {
      var zs := z + ds;
      assert zs[..|zs| - 1] == z + ds[..|ds| - 1];
      LeadingZerosValue(z, ds[..|ds| - 1]);
    }
  }

  /** The digits of n, padded on the left with zeros to at least width characters. */
  function ZeroPad(n: nat, width: nat): (s: string)
    ensures AllDigits(s) && DigitsValue(s) == n
    ensures |s| == if |NatToS(n)| < width then width else |NatToS(n)|
    ensures |s| >= 1
  {
    var ds := NatToS(n);
    var z := if |ds| < width then seq(width - |ds|, i => '0') else [];
    LeadingZerosValue(z, ds);
    z + ds
  }

  /** C's "%0*d" conversion: n in decimal, zero-padded after any sign to at least width characters. */
  function PadInt(n: int, width: nat): (s: string)
    ensures |s| >= width && |s| >= 1
    ensures var len := |NatToS(if n >= 0 then n else -n)| + (if n < 0 then 1 else 0);
      |s| == if len < width then width else len
    ensures n >= 0 ==> AllDigits(s) && DigitsValue(s) == n
    ensures n < 0 ==> s[0] == '-' && AllDigits(s[1..]) && DigitsValue(s[1..]) == -n
  {
    if n >= 0 then ZeroPad(n, width) else "-" + ZeroPad(-n, if width > 0 then width - 1 else 0)
  }

  /** `Integer#to_s`: the shortest decimal rendering, which `to_i` reads back. */
  function IntToS(n: int): (s: string)
    ensures n >= 0 ==> s == NatToS(n)
    ensures ToI(s) == n
  {
    ToIPadInt(n, 0);
    PadInt(n, 0)
  }

  function DropSpaces(s: string): (t: string)
    ensures t == [] || !IsAsciiSpace(t[0])
  {
    if s != [] && IsAsciiSpace(s[0]) then DropSpaces(s[1..]) else s
  }

  /** The first k characters of s are digits and the one after them, if any, is not. */
  predicate DigitRun(s: string, k: int) {
    0 <= k <= |s| && AllDigits(s[..k]) && (k == |s| || !IsDigit(s[k]))
  }

  /** The longest prefix of s made of decimal digits. */
  function DigitPrefix(s: string): (p: string)
    ensures |p| <= |s| && p == s[..|p|] && AllDigits(p)
    ensures |p| < |s| ==> !IsDigit(s[|p|])
  {
    if s != [] && IsDigit(s[0]) then [s[0]] + DigitPrefix(s[1..]) else []
  }

  /** The same, for the digits after a leading character such as a sign. */
  lemma DigitPrefixIsRunAfterSign(s: string)
    ensures s != [] ==> forall k :: DigitRun(s[1..], k) ==> DigitPrefix(s[1..]) == s[1..][..k]
  {
    if s != [] {
      DigitPrefixIsRun(s[1..]);
    }
  }

  /** A digit run ending where the digits stop is the longest digit prefix. */
  lemma DigitPrefixIsRun(s: string)
    ensures forall k :: DigitRun(s, k) ==> DigitPrefix(s) == s[..k]
  {
    var p := DigitPrefix(s);
    forall k | DigitRun(s, k)
      ensures p == s[..k]
    {
    }
  }

  /**
    `String#to_i` in base 10: leading whitespace is skipped, an optional sign
    is read, then the longest run of decimal digits; no digits gives 0.
  */
  function ToI(s: string): (r: int)
    ensures AllDigits(s) ==> r == DigitsValue(s)
    ensures s == [] || !(IsDigit(s[0]) || IsAsciiSpace(s[0]) || s[0] == '-' || s[0] == '+') ==> r == 0
    ensures DropSpaces(s) != [] && DropSpaces(s)[0] == '-' ==> r <= 0
    ensures forall k :: DigitRun(s, k) && (s == [] || IsDigit(s[0]) || !(IsAsciiSpace(s[0]) || s[0] == '-' || s[0] == '+'))
                        ==> r == DigitsValue(s[..k])
    ensures forall k :: s != [] && s[0] == '-' && DigitRun(s[1..], k) ==> r == -(DigitsValue(s[1..][..k]) as int)
    ensures forall k :: s != [] && s[0] == '+' && DigitRun(s[1..], k) ==> r == DigitsValue(s[1..][..k])
  {
    var t := DropSpaces(s);
    DigitPrefixIsRun(s);
    DigitPrefixIsRunAfterSign(s);
    assert s != [] && !IsAsciiSpace(s[0]) ==> t == s;
    assert AllDigits(s) && s != [] ==> !IsAsciiSpace(s[0]) && t == s;
    assert AllDigits(s) ==> |DigitPrefix(s)| == |s| && DigitPrefix(s) == s[..|s|] == s;
    if t != [] && t[0] == '-' then -(DigitsValue(DigitPrefix(t[1..])) as int)
    else if t != [] && t[0] == '+' then DigitsValue(DigitPrefix(t[1..]))
    else DigitsValue(DigitPrefix(t))
  }

  /** Leading ASCII whitespace is skipped. */
  lemma ToISkipsLeadingSpace(s: string)
    requires s != [] && IsAsciiSpace(s[0])
    ensures ToI(s) == ToI(s[1..])
  {
  }

  /** `to_i` reads the leading digits and gives 0 when no digit starts the string. */
  lemma ToIDigitPrefixExamples()
    ensures ToI("12abc") == 12 && ToI("03") == 3
    ensures ToI("x1") == 0 && ToI("") == 0
  {
    assert DigitRun("12abc", 2) && "12abc"[..2] == "12";
    assert DigitsValue("12") == 12;
    assert DigitRun("03", 2) && "03"[..2] == "03";
  }

  /** `to_i` skips leading whitespace and honours a sign. */
  lemma ToISignAndSpaceExamples()
    ensures ToI(" 7") == 7 && ToI("+7") == 7 && ToI("-5") == -5
  {
    ToISkipsLeadingSpace(" 7");
    assert " 7"[1..] == "7";
    assert DigitRun("+7"[1..], 1);
    assert DigitRun("-5"[1..], 1);
  }

  /** `to_i` reads back any zero-padded rendering of an integer, `Integer#to_s` included. */
  lemma ToIPadInt(n: int, width: nat)
    ensures ToI(PadInt(n, width)) == n
  {
    var s := PadInt(n, width);
    if n < 0 {
      assert DropSpaces(s) == s;
      var ds := s[1..];
      assert |DigitPrefix(ds)| == |ds| && DigitPrefix(ds) == ds[..|ds|] == ds;
    }
  }
}
