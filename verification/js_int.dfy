/** JavaScript's `parseInt` with no radix argument, and the decimal text of
    an integer that `String(n)` produces, so that numbers sent as text can be
    read back. NaN is None. */
module JsInt {
  import opened Wrappers
  import Strings

  /** The value of `c` as a digit in base 10 or 16. */
  function DigitValue(c: char, radix: nat): (r: Option<nat>)
    requires radix == 10 || radix == 16
    ensures r.Some? ==> r.value < radix
    ensures r.Some? && radix == 10 ==> '0' <= c <= '9'
  {
    if '0' <= c <= '9' then Some(c as int - '0' as int)
    else if radix == 16 && 'a' <= c <= 'f' then Some(c as int - 'a' as int + 10)
    else if radix == 16 && 'A' <= c <= 'F' then Some(c as int - 'A' as int + 10)
    else None
  }

  predicate AllDigits(s: string, radix: nat)
    requires radix == 10 || radix == 16
  {
    forall i :: 0 <= i < |s| ==> DigitValue(s[i], radix).Some?
  }

  /** The length of the longest run of digits `s` starts with. */
  function DigitRun(s: string, radix: nat): (n: nat)
    requires radix == 10 || radix == 16
    ensures n <= |s| && AllDigits(s[..n], radix)
    ensures n < |s| ==> DigitValue(s[n], radix).None?
    decreases |s|
  {
    if |s| == 0 || DigitValue(s[0], radix).None? then 0
    else
      var rest := DigitRun(s[1..], radix);
      assert s[..1 + rest] == [s[0]] + s[1..][..rest];
      1 + rest
  }

  /** The number a run of digits denotes, most significant digit first. */
  function ValueOf(digits: string, radix: nat): nat
    requires radix == 10 || radix == 16
    requires AllDigits(digits, radix)
    decreases |digits|
  {
    if |digits| == 0 then 0
    else
      assert AllDigits(digits[..|digits| - 1], radix);
      ValueOf(digits[..|digits| - 1], radix) * radix + DigitValue(digits[|digits| - 1], radix).value
  }

  /** The sign and the text after it. */
  function SignOf(t: string): (int, string) {
    if |t| > 0 && t[0] == '-' then (-1, t[1..])
    else if |t| > 0 && t[0] == '+' then (1, t[1..])
    else (1, t)
  }

  predicate HexPrefix(u: string) {
    |u| >= 2 && u[0] == '0' && (u[1] == 'x' || u[1] == 'X')
  }

  /** The digits after the sign: a `0x` prefix switches to base 16, then
      the longest run of digits counts and anything after it is ignored; no
      digit at all is NaN. */
  function ParseUnsigned(u: string): (r: Option<nat>)
    ensures r.None? <==> if HexPrefix(u) then DigitRun(u[2..], 16) == 0 else DigitRun(u, 10) == 0
  {
    var radix := if HexPrefix(u) then 16 else 10;
    var v := if HexPrefix(u) then u[2..] else u;
    var n := DigitRun(v, radix);
    if n == 0 then None else Some(ValueOf(v[..n], radix))
  }

  /** `parseInt(s)`: leading white space skipped, then an optional sign
      before the digits. */
  function ParseInt(s: string): (r: Option<int>)
    ensures r.None? <==> ParseUnsigned(SignOf(Strings.TrimStart(s)).1).None?
  {
    var (sign, u) := SignOf(Strings.TrimStart(s));
    match ParseUnsigned(u)
    case None => None
    case Some(n) => Some(sign * n)
  }

  function DigitChar(d: nat): (c: char)
    requires d < 10
    ensures DigitValue(c, 10) == Some(d)
  {
    ('0' as int + d) as char
  }

  /** `String(n)` for a natural number: its decimal digits. */
  function Decimal(n: nat): (s: string)
    ensures |s| > 0 && AllDigits(s, 10)
    ensures ValueOf(s, 10) == n
    decreases n
  {
    if n < 10 then [DigitChar(n)]
    else
      var s := Decimal(n / 10) + [DigitChar(n % 10)];
      assert s[..|s| - 1] == Decimal(n / 10);
      s
  }

  /** `String(i)` for an integer: a minus sign before the digits of a
      negative number. */
  function Render(i: int): string {
    if i < 0 then "-" + Decimal(-i) else Decimal(i)
  }

  /** Reading digits back: the run covers the whole decimal text, whatever
      follows it, as long as it does not start with a digit. */
  lemma {:induction false} DecimalRun(n: nat, rest: string)
    requires |rest| == 0 || DigitValue(rest[0], 10).None?
    ensures DigitRun(Decimal(n) + rest, 10) == |Decimal(n)|
  {
    var s := Decimal(n);
    RunOfDigits(s, rest);
  }

  lemma {:induction false} RunOfDigits(s: string, rest: string)
    requires AllDigits(s, 10)
    requires |rest| == 0 || DigitValue(rest[0], 10).None?
    ensures DigitRun(s + rest, 10) == |s|
    decreases |s|
  {
    if |s| > 0 {
      assert (s + rest)[1..] == s[1..] + rest;
      RunOfDigits(s[1..], rest);
    } else {
      assert s + rest == rest;
    }
  }

  /** The decimal text of `n`, followed by text that starts with neither
      a digit nor an `x` (which would make `0x…` hexadecimal), reads as `n`. */
  lemma ParseDecimal(n: nat, rest: string)
    requires |rest| == 0 || (DigitValue(rest[0], 10).None? && rest[0] != 'x' && rest[0] != 'X')
    ensures ParseUnsigned(Decimal(n) + rest) == Some(n)
  {
    var d := Decimal(n);
    DecimalNotHex(n, rest);
    DecimalRun(n, rest);
    assert (d + rest)[..|d|] == d;
  }

  /** Decimal text is never mistaken for a `0x` prefix. */
  lemma DecimalNotHex(n: nat, rest: string)
    requires |rest| == 0 || (rest[0] != 'x' && rest[0] != 'X')
    ensures !HexPrefix(Decimal(n) + rest)
  {
    var d := Decimal(n);
    var u := d + rest;
    if |u| >= 2 {
      if |d| >= 2 {
        assert u[1] == d[1];
        assert DigitValue(d[1], 10).Some?;
      } else {
        assert u[1] == rest[0];
      }
    }
  }

  /** `parseInt(String(i)) == i`, with the same freedom for what follows. */
  lemma ParseRender(i: int, rest: string)
    requires |rest| == 0 || (DigitValue(rest[0], 10).None? && rest[0] != 'x' && rest[0] != 'X')
    ensures ParseInt(Render(i) + rest) == Some(i)
  {
    var n := if i < 0 then -i else i;
    RenderUnpadded(i, rest);
    RenderSign(i, rest);
    ParseDecimal(n, rest);
  }

  lemma RenderUnpadded(i: int, rest: string)
    ensures Strings.TrimStart(Render(i) + rest) == Render(i) + rest
  {
    var t := Render(i) + rest;
    assert t[0] == Render(i)[0];
    assert !Strings.IsSpace(t[0]);
  }

  lemma RenderSign(i: int, rest: string)
    ensures SignOf(Render(i) + rest) == if i < 0 then (-1, Decimal(-i) + rest) else (1, Decimal(i) + rest)
  {
    var t := Render(i) + rest;
    if i < 0 {
      assert t == ['-'] + (Decimal(-i) + rest);
      assert t[1..] == Decimal(-i) + rest;
    } else {
      assert t[0] == Decimal(i)[0];
    }
  }

  /** Blank text, or text without leading digits, reads as NaN. */
  lemma BlankIsNaN(s: string)
    requires forall i :: 0 <= i < |s| ==> Strings.IsSpace(s[i])
    ensures ParseInt(s) == None
  {
    assert Strings.TrimStart(s) == [];
  }
}
