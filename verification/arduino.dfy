/** A small optional-value datatype shared by the lookups of the model. */
module Options {
  datatype Option<+T> = None | Some(value: T)
}

/**
 * The integer widths and the Arduino-core routines the firmware leans on:
 * `unsigned long` and `uint8_t` arithmetic, `map`, `String(n)`,
 * `String::toInt`, `isspace` and `tolower`.
 */
module Arduino {

  /** `uint8_t`. */
  type Byte = x: int | 0 <= x < 256

  const ULONG_MODULUS: int := 0x1_0000_0000

  /** `unsigned long` (and `unsigned int`) on the ESP32: 32 bits. */
  type ULong = x: int | 0 <= x < 0x1_0000_0000

  /** The value of an `int` converted to `unsigned int` (two's complement, 32 bits). */
  function ToUnsigned(x: int): (u: ULong)
    ensures 0 <= x < ULONG_MODULUS ==> u == x
    ensures -ULONG_MODULUS <= x < 0 ==> u == x + ULONG_MODULUS
    ensures ULONG_MODULUS <= x < 2 * ULONG_MODULUS ==> u == x - ULONG_MODULUS
    ensures (u - x) % ULONG_MODULUS == 0
  {
    if 0 <= x < ULONG_MODULUS then x
    else if -ULONG_MODULUS <= x < 0 then x + ULONG_MODULUS
    else if ULONG_MODULUS <= x < 2 * ULONG_MODULUS then x - ULONG_MODULUS
    else x % ULONG_MODULUS
  }

  /** `now - since` on two `unsigned long` values, which wraps around. */
  function Elapsed(now: ULong, since: ULong): (d: ULong)
    ensures since <= now ==> d == now - since
    ensures now < since ==> d == now - since + ULONG_MODULUS
  {
    (now - since) % ULONG_MODULUS
  }

  /** C's `/` on a `long` and a positive divisor: the quotient is truncated toward zero. */
  function TruncDiv(a: int, b: int): int
    requires b > 0
  {
    if a >= 0 then a / b else -((-a) / b)
  }

  /**
   * Arduino's `map(x, in_min, in_max, out_min, out_max)`, assumed to be the
   * standard integer formula `(x - in_min) * (out_max - out_min) / (in_max - in_min) + out_min`
   * on `long`; the range bounds in this firmware keep every product far from overflow.
   */
  function MapRange(x: int, inMin: int, inMax: int, outMin: int, outMax: int): (r: int)
    requires inMin < inMax
    ensures x == inMin ==> r == outMin
    ensures x == inMax ==> r == outMax
  {
    TruncDivOfMultiple(outMax - outMin, inMax - inMin);
    TruncDiv((x - inMin) * (outMax - outMin), inMax - inMin) + outMin
  }

  lemma {:induction false} MulAtLeast(b: nat, m: nat)
    requires m >= 1
    ensures b * m >= b
  {
    if m > 1 {
      MulAtLeast(b, m - 1);
      assert b * m == b * (m - 1) + b;
    }
  }

  lemma DivOfProduct(k: nat, b: int)
    requires b > 0
    ensures (b * k) / b == k
  {
    var q := (b * k) / b;
    var r := (b * k) % b;
    assert b * k == b * q + r && 0 <= r < b;
    assert b * (k - q) == r by {
      assert b * (k - q) == b * k - b * q;
    }
    if k - q > 0 {
      MulAtLeast(b, k - q);
    }
  }

  /** A multiple of the divisor divides exactly, whatever its sign. */
  lemma TruncDivOfMultiple(k: int, b: int)
    requires b > 0
    ensures TruncDiv(b * k, b) == k
  {
    if k >= 0 {
      DivOfProduct(k, b);
    } else {
      assert -(b * k) == b * -k;
      DivOfProduct(-k, b);
    }
  }

  /** C's `isspace` in the "C" locale. */
  predicate IsSpace(c: char)
  {
    c == ' ' || c == '\t' || c == '\n' || c == '\U{0B}' || c == '\U{0C}' || c == '\r'
  }

  predicate IsUpper(c: char) { 'A' <= c <= 'Z' }

  /** C's `tolower` in the "C" locale: only the ASCII capitals change. */
  function ToLower(c: char): (l: char)
    ensures !IsUpper(l)
    ensures IsUpper(c) ==> l as int == c as int + 32
    ensures !IsUpper(c) ==> l == c
  {
    if IsUpper(c) then (c as int + 32) as char else c
  }

  predicate IsDigit(c: char) { '0' <= c <= '9' }

  function DigitChar(d: nat): (c: char)
    requires d < 10
    ensures IsDigit(c) && c as int - '0' as int == d
  {
    ('0' as int + d) as char
  }

  /** `String(n)` for an unsigned value: its decimal digits, no leading zeros. */
  function DecimalString(n: nat): (s: string)
    ensures |s| > 0 && forall i :: 0 <= i < |s| ==> IsDigit(s[i])
    ensures n > 0 ==> s[0] != '0'
  {
    if n < 10 then [DigitChar(n)] else DecimalString(n / 10) + [DigitChar(n % 10)]
  }

  /** The value of a string of decimal digits. */
  function DigitsValue(ds: string): nat
    requires forall i :: 0 <= i < |ds| ==> IsDigit(ds[i])
  {
    if ds == [] then 0
    else assert IsDigit(ds[|ds| - 1]); 10 * DigitsValue(ds[..|ds| - 1]) + (ds[|ds| - 1] as int - '0' as int)
  }

  /** The longest prefix of `s` made of decimal digits. */
  function LeadingDigits(s: string): (ds: string)
    ensures |ds| <= |s| && ds == s[..|ds|]
    ensures forall i :: 0 <= i < |ds| ==> IsDigit(ds[i])
    ensures |ds| < |s| ==> !IsDigit(s[|ds|])
  {
    if s == [] || !IsDigit(s[0]) then [] else [s[0]] + LeadingDigits(s[1..])
  }

  /** The text after `atol`'s leading whitespace (also the front half of `String::trim`). */
  function TrimStart(s: string): (r: string)
    ensures |r| <= |s|
    ensures r == [] || !IsSpace(r[0])
  {
    if s != [] && IsSpace(s[0]) then TrimStart(s[1..]) else s
  }

  /** What `TrimStart` drops is a run of whitespace at the front; the rest is kept as it was. */
  lemma {:induction false} TrimStartSkipsSpaces(s: string)
    ensures var r := TrimStart(s);
      && r == s[|s| - |r|..]
      && forall i :: 0 <= i < |s| - |r| ==> IsSpace(s[i])
  {
    if s != [] && IsSpace(s[0]) {
      TrimStartSkipsSpaces(s[1..]);
    }
  }

  /**
   * `String::toInt`, which is `atol`: leading whitespace skipped, an
   * optional sign, then the value of the run of digits that follows (0 when
   * there is none). Values beyond the range of `long` are not modelled.
   */
  function ToInt(s: string): (n: int)
    ensures n < 0 ==> TrimStart(s) != [] && TrimStart(s)[0] == '-'
  {
    var t := TrimStart(s);
    if t != [] && t[0] == '-' then -(DigitsValue(LeadingDigits(t[1..])) as int)
    else if t != [] && t[0] == '+' then DigitsValue(LeadingDigits(t[1..]))
    else DigitsValue(LeadingDigits(t))
  }

  /** An `int` stored into a `uint8_t`: its low eight bits. */
  function ToByte(x: int): (b: Byte)
    ensures 0 <= x < 256 ==> b == x
    ensures -256 <= x < 0 ==> b == x + 256
  {
    x % 256
  }

  lemma {:induction false} DecimalStringValue(n: nat)
    ensures DigitsValue(DecimalString(n)) == n
  {
    var s := DecimalString(n);
    if n >= 10 {
      DecimalStringValue(n / 10);
      assert s[..|s| - 1] == DecimalString(n / 10);
    }
  }

  lemma {:induction false} LeadingDigitsOfDigits(ds: string, rest: string)
    requires forall i :: 0 <= i < |ds| ==> IsDigit(ds[i])
    requires rest == [] || !IsDigit(rest[0])
    ensures LeadingDigits(ds + rest) == ds
  {
    if ds != [] {
      assert (ds + rest)[1..] == ds[1..] + rest;
      LeadingDigitsOfDigits(ds[1..], rest);
    }
  }

  lemma {:induction false} TrimStartOfTrimmed(s: string)
    requires s == [] || !IsSpace(s[0])
    ensures TrimStart(s) == s
  {
  }

  /** `String(n).toInt() == n`, also when the number is followed by a non-digit. */
  lemma ToIntDecimal(n: nat, rest: string)
    requires rest == [] || !IsDigit(rest[0])
    ensures ToInt(DecimalString(n) + rest) == n
  {
    var s := DecimalString(n) + rest;
    assert s[0] == DecimalString(n)[0];
    TrimStartOfTrimmed(s);
    LeadingDigitsOfDigits(DecimalString(n), rest);
    DecimalStringValue(n);
  }

  /** A minus sign in front of the digits negates the value. */
  lemma ToIntNegative(n: nat, rest: string)
    requires rest == [] || !IsDigit(rest[0])
    ensures ToInt("-" + DecimalString(n) + rest) == -(n as int)
  {
    var d := DecimalString(n);
    assert "-" + d + rest == "-" + (d + rest);
    ToIntMinus(d + rest);
    LeadingDigitsOfDigits(d, rest);
    DecimalStringValue(n);
  }

  /** After a leading minus sign, the digits that follow are read and negated. */
  lemma ToIntMinus(x: string)
    ensures ToInt("-" + x) == -(DigitsValue(LeadingDigits(x)) as int)
  {
    var s := "-" + x;
    assert s[0] == '-';
    TrimStartOfTrimmed(s);
    assert s[1..] == x;
  }

  /** Text that does not start with whitespace, a sign or a digit reads as 0. */
  lemma ToIntNoDigits(s: string)
    requires s == [] || (!IsSpace(s[0]) && !IsDigit(s[0]) && s[0] != '-' && s[0] != '+')
    ensures ToInt(s) == 0
  {
    TrimStartOfTrimmed(s);
  }
}
