/**
 Text formatting of integers as the firmware does it with Python's `str(i)`
 and the format spec `f'{i:5}'` (right-aligned in a field of width 5,
 padded with spaces, never truncated).
 */
module Format {

  predicate IsDigit(c: char)
  {
    '0' <= c <= '9'
  }

  function DigitChar(d: int): (c: char)
    requires 0 <= d < 10
    ensures IsDigit(c)
  {
    ('0' as int + d) as char
  }

  function DigitValue(c: char): int
  {
    c as int - '0' as int
  }

  /** Decimal digits of `n`, most significant first, without leading zeros. */
  function NatToStr(n: nat): (s: string)
    ensures |s| > 0
    ensures forall k :: 0 <= k < |s| ==> IsDigit(s[k])
    ensures s[0] == '0' <==> n == 0
  {
    if n < 10 then [DigitChar(n)] else NatToStr(n / 10) + [DigitChar(n % 10)]
  }

  /** `str(i)` for an integer: an optional minus sign, then the digits. */
  function IntToStr(i: int): (s: string)
    ensures |s| > 0 && s[0] != ' '
    ensures s[0] == '-' <==> i < 0
  {
    if i < 0 then "-" + NatToStr(-i) else NatToStr(i)
  }

  /** Value of a string of decimal digits (the reading direction of `NatToStr`). */
  function ParseNat(s: string): nat
  {
    if |s| == 0 then 0
    else
      var d := DigitValue(s[|s| - 1]);
      ParseNat(s[..|s| - 1]) * 10 + (if 0 <= d < 10 then d else 0)
  }

  /** Value of an optionally signed decimal string (the reading direction of `IntToStr`). */
  function ParseInt(s: string): int
  {
    if |s| > 0 && s[0] == '-' then -(ParseNat(s[1..]) as int) else ParseNat(s)
  }

  lemma {:induction false} NatToStrRoundTrip(n: nat)
    ensures ParseNat(NatToStr(n)) == n
  {
    if n >= 10 {
      var prefix := NatToStr(n / 10);
      var s := prefix + [DigitChar(n % 10)];
      assert s[..|s| - 1] == prefix;
      NatToStrRoundTrip(n / 10);
    }
  }

  /** `str` loses nothing: the decimal text of `i` reads back as `i`. */
  lemma IntToStrRoundTrip(i: int)
    ensures ParseInt(IntToStr(i)) == i
  {
    if i < 0 {
      assert IntToStr(i)[1..] == NatToStr(-i);
      NatToStrRoundTrip(-i);
    } else {
      NatToStrRoundTrip(i);
    }
  }

  /** Distinct integers are printed as distinct strings. */
  lemma IntToStrInjective(i: int, j: int)
    requires IntToStr(i) == IntToStr(j)
    ensures i == j
  {
    IntToStrRoundTrip(i);
    IntToStrRoundTrip(j);
  }

  function Spaces(n: nat): (s: string)
    ensures |s| == n && forall k :: 0 <= k < n ==> s[k] == ' '
  {
    seq(n, _ => ' ')
  }

  /** Python's right alignment of a number in a field of `width`. */
  function RightAlign(s: string, width: nat): string
  {
    if |s| >= width then s else Spaces(width - |s|) + s
  }

  /** `f'{i:w}'` for an integer `i`: the field is `max(width, len(str(i)))`
      characters long, ends with `str(i)` and is padded in front with spaces
      only. */
  function FormatInt(i: int, width: nat): (r: string)
    ensures |r| == (if |IntToStr(i)| >= width then |IntToStr(i)| else width)
    ensures r[|r| - |IntToStr(i)|..] == IntToStr(i)
    ensures forall k :: 0 <= k < |r| - |IntToStr(i)| ==> r[k] == ' '
  {
    RightAlign(IntToStr(i), width)
  }

  /** Removes the leading spaces of a string. */
  function TrimLeft(s: string): string
  {
    if |s| > 0 && s[0] == ' ' then TrimLeft(s[1..]) else s
  }

  lemma {:induction false} TrimLeftSpaces(n: nat, s: string)
    requires |s| > 0 && s[0] != ' '
    ensures TrimLeft(Spaces(n) + s) == s
  {
    if n > 0 {
      assert (Spaces(n) + s)[1..] == Spaces(n - 1) + s;
      TrimLeftSpaces(n - 1, s);
    }
  }

  /** The padded field still reads back as the number it shows. */
  lemma FormatIntRoundTrip(i: int, width: nat)
    ensures ParseInt(TrimLeft(FormatInt(i, width))) == i
  {
    var s := IntToStr(i);
    if |s| < width {
      TrimLeftSpaces(width - |s|, s);
    }
    IntToStrRoundTrip(i);
  }
}
