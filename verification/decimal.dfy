/** Decimal text of integers: `str(n)` and MicroPython's `int(s)`, as used
    for the boot counter kept in RTC memory and for echoing the
    configuration. */
module Decimal {
  import opened Wrappers

  predicate IsDigit(c: char)
  {
    '0' <= c <= '9'
  }

  predicate AllDigits(s: string)
  {
    forall i :: 0 <= i < |s| ==> IsDigit(s[i])
  }

  function DigitChar(d: nat): (c: char)
    requires d < 10
    ensures IsDigit(c)
  {
    ('0' as int + d) as char
  }

  function DigitValue(c: char): (d: nat)
    requires IsDigit(c)
    ensures d < 10
  {
    c as int - '0' as int
  }

  /** The decimal digits of `n`, most significant first, without leading
      zeros ("0" for zero). */
  function Digits(n: nat): (s: string)
    ensures |s| >= 1 && AllDigits(s)
    ensures |s| > 1 ==> s[0] != '0'
  {
    if n < 10 then [DigitChar(n)]
    else Digits(n / 10) + [DigitChar(n % 10)]
  }

  /** `str(n)`: a minus sign for negative numbers, then the digits. */
  function Show(n: int): (s: string)
    ensures |s| >= 1
    ensures n < 0 <==> s[0] == '-'
  {
    if n < 0 then "-" + Digits(-n) else Digits(n)
  }

  /** The number a string of digits denotes. */
  function ValueOf(s: string): nat
    requires AllDigits(s)
  {
    if |s| == 0 then 0
    else 10 * ValueOf(s[..|s| - 1]) + DigitValue(s[|s| - 1])
  }

  /** The characters MicroPython's `int()` skips around a number: the space
      and the ASCII controls tab through carriage return. */
  predicate IsSpace(c: char)
  {
    c == ' ' || '\t' <= c <= '\r'
  }

  function TrimStart(s: string): (t: string)
    ensures |t| <= |s|
    ensures |t| > 0 ==> !IsSpace(t[0])
  {
    if |s| > 0 && IsSpace(s[0]) then TrimStart(s[1..]) else s
  }

  function TrimEnd(s: string): (t: string)
    ensures |t| <= |s|
    ensures |t| > 0 ==> !IsSpace(t[|t| - 1]) && t[0] == s[0]
  {
    if |s| > 0 && IsSpace(s[|s| - 1]) then TrimEnd(s[..|s| - 1]) else s
  }

  /** `int(s)`: surrounding spaces are skipped, then an optional sign and
      one or more decimal digits; anything else raises ValueError (None). */
  function Parse(s: string): (r: Option<int>)
  {
    ParseNumber(TrimEnd(TrimStart(s)))
  }

  /** What `int()` makes of the text once the spaces around it are gone. */
  function ParseNumber(t: string): (r: Option<int>)
  {
    if |t| == 0 then None
    else
      var body := if t[0] == '-' || t[0] == '+' then t[1..] else t;
      if |body| == 0 || !AllDigits(body) then None
      else if t[0] == '-' then Some(0 - ValueOf(body) as int)
      else Some(ValueOf(body))
  }

  /** Reading the digits of `n` gives `n`. */
  lemma {:induction false} DigitsValue(n: nat)
    ensures ValueOf(Digits(n)) == n
  {
    if n >= 10 {
      DigitsValue(n / 10);
      var s := Digits(n);
      assert s[..|s| - 1] == Digits(n / 10);
    }
  }

  lemma NoSpaceInNumber(s: string)
    requires |s| >= 1 && (IsDigit(s[0]) || s[0] == '-' || s[0] == '+')
    requires IsDigit(s[|s| - 1])
    ensures TrimEnd(TrimStart(s)) == s
  {
    assert TrimStart(s) == s;
    assert TrimEnd(s) == s;
  }

  /** `int(str(n)) == n`: the text written for a number reads back as that
      number. */
  lemma ShowParse(n: int)
    ensures Parse(Show(n)) == Some(n)
  {
    var s := Show(n);
    var d := if n < 0 then -n else n;
    DigitsValue(d);
    NoSpaceInNumber(s);
    if n < 0 {
      assert s[1..] == Digits(d);
    }
  }

  /** Text made only of spaces, including the empty text, is not a number. */
  lemma ParseBlank(s: string)
    requires forall i :: 0 <= i < |s| ==> IsSpace(s[i])
    ensures Parse(s) == None
  {
    BlankTrims(s);
  }

  lemma {:induction false} BlankTrims(s: string)
    requires forall i :: 0 <= i < |s| ==> IsSpace(s[i])
    ensures TrimStart(s) == []
  {
    if |s| > 0 {
      BlankTrims(s[1..]);
    }
  }

  /** `z` zero digits. */
  function Zeros(z: nat): (s: string)
    ensures |s| == z && AllDigits(s)
    ensures forall i :: 0 <= i < z ==> s[i] == '0'
  {
    seq(z, i => '0')
  }

  /** Leading zeros add nothing to the value of a string of digits. */
  lemma {:induction false} LeadingZerosValue(z: nat, d: string)
    requires AllDigits(d)
    ensures AllDigits(Zeros(z) + d)
    ensures ValueOf(Zeros(z) + d) == ValueOf(d)
  {
    var w := Zeros(z) + d;
    assert AllDigits(w) by {
      forall i | 0 <= i < |w| ensures IsDigit(w[i]) {
        if i >= z {
          assert w[i] == d[i - z];
        }
      }
    }
    if |d| == 0 {
      assert w == Zeros(z);
      if z > 0 {
        assert w[..|w| - 1] == Zeros(z - 1) + d;
        LeadingZerosValue(z - 1, d);
      }
    } else {
      assert w[..|w| - 1] == Zeros(z) + d[..|d| - 1];
      LeadingZerosValue(z, d[..|d| - 1]);
    }
  }

  /** Skipping leading white space stops at the first other character. */
  lemma {:induction false} TrimStartAt(s: string, i: nat)
    requires i <= |s|
    requires forall k :: 0 <= k < i ==> IsSpace(s[k])
    requires i < |s| ==> !IsSpace(s[i])
    ensures TrimStart(s) == s[i..]
  {
    if i > 0 {
      TrimStartAt(s[1..], i - 1);
      assert s[1..][i - 1..] == s[i..];
    }
  }

  /** Dropping trailing white space stops at the last other character. */
  lemma {:induction false} TrimEndAt(s: string, j: nat)
    requires 0 < j <= |s|
    requires forall k :: j <= k < |s| ==> IsSpace(s[k])
    requires !IsSpace(s[j - 1])
    ensures TrimEnd(s) == s[..j]
  {
    if j < |s| {
      TrimEndAt(s[..|s| - 1], j);
      assert s[..|s| - 1][..j] == s[..j];
    }
  }

  /** An optional sign and then digits, leading zeros allowed, read as
      their value, negated after a minus. */
  lemma ParseNumberReads(t: string)
    requires |t| >= 1 && (t[0] == '+' || t[0] == '-' || IsDigit(t[0]))
    requires AllDigits(t[1..])
    requires t[0] == '+' || t[0] == '-' ==> |t| >= 2
    ensures ParseNumber(t) ==
      Some(if t[0] == '-' then 0 - ValueOf(t[1..]) as int
           else if t[0] == '+' then ValueOf(t[1..]) as int
           else ValueOf(t) as int)
  {
    if IsDigit(t[0]) {
      assert AllDigits(t) by {
        forall k | 0 < k < |t| ensures IsDigit(t[k]) {
          assert t[k] == t[1..][k - 1];
        }
      }
    }
  }

  /** `int()` reads the number between the white space around it: `s[i..j]`
      is an optional sign and then digits, leading zeros allowed. */
  lemma ParseAcceptsPadding(s: string, i: nat, j: nat)
    requires i < j <= |s|
    requires forall k :: 0 <= k < i ==> IsSpace(s[k])
    requires forall k :: j <= k < |s| ==> IsSpace(s[k])
    requires s[i] == '+' || s[i] == '-' || IsDigit(s[i])
    requires AllDigits(s[i + 1..j])
    requires s[i] == '+' || s[i] == '-' ==> i + 1 < j
    ensures Parse(s) ==
      Some(if s[i] == '-' then 0 - ValueOf(s[i + 1..j]) as int
           else if s[i] == '+' then ValueOf(s[i + 1..j]) as int
           else ValueOf(s[i..j]) as int)
  {
    TrimStartAt(s, i);
    if j - 1 > i {
      assert s[j - 1] == s[i + 1..j][j - 2 - i];
    }
    TrimEndAt(s[i..], j - i);
    var t := s[i..j];
    assert s[i..][..j - i] == t;
    assert t[1..] == s[i + 1..j];
    ParseNumberReads(t);
  }

  /** A white-space character between a first and a last digit is not
      skipped: `int()` refuses the text. */
  lemma ParseRefusesInnerSpace(s: string, k: nat)
    requires 0 < k < |s| - 1
    requires IsDigit(s[0]) && IsDigit(s[|s| - 1])
    requires IsSpace(s[k])
    ensures Parse(s) == None
  {
    NoSpaceInNumber(s);
    assert !IsDigit(s[k]);
  }
}
