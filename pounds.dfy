/**
 * Money on the shopping-list page, in whole pence. The page shows amounts as
 * `£` followed by JavaScript's `toFixed(2)` text, and reads the running
 * total back with `parseFloat(text.substring(1)) || 0`.
 */
module Pounds {
  import opened Wrappers
  import opened JsText

  /** The digit character of a value below ten. */
  function DigitChar(d: nat): (c: char)
    requires d < 10
    ensures IsDigit(c) && DigitValue(c) == d
  {
    ('0' as int + d) as char
  }

  /** The decimal numeral of `n`, without leading zeros. */
  function Decimal(n: nat): string {
    if n < 10 then [DigitChar(n)] else Decimal(n / 10) + [DigitChar(n % 10)]
  }

  /** The numeral is a non-empty run of digits denoting `n`. */
  lemma {:induction false} DecimalDenotes(n: nat)
    ensures Decimal(n) != [] && AllDigits(Decimal(n))
    ensures DigitsValue(Decimal(n)) == n
  {
    if n >= 10 {
      DecimalDenotes(n / 10);
      var s := Decimal(n);
      assert s[..|s| - 1] == Decimal(n / 10);
    }
  }

  /** The minus sign of a negative amount, nothing otherwise. */
  function SignText(negative: bool): string {
    if negative then "-" else ""
  }

  /** `amount.toFixed(2)` for an exact amount of `p` pence: sign, pounds, a point and two pence digits. */
  function FixedTwo(p: int): string {
    var a := if p < 0 then -p else p;
    var c := a % 100;
    SignText(p < 0) + (Decimal(a / 100) + ['.', DigitChar(c / 10), DigitChar(c % 10)])
  }

  /** The text the page shows for `p` pence. */
  function FormatPounds(p: int): string {
    "£" + FixedTwo(p)
  }

  /** The pence of the first two fraction digits, missing digits counting as zero. */
  function Cents(f: string): (c: nat)
    requires AllDigits(f)
    ensures c < 100
  {
    if |f| == 0 then 0
    else if |f| == 1 then 10 * DigitValue(f[0])
    else 10 * DigitValue(f[0]) + DigitValue(f[1])
  }

  /** The fraction digits right after a leading `.`, if `rest` starts with one. */
  function Fraction(rest: string): (f: string)
    ensures AllDigits(f)
  {
    if rest != [] && rest[0] == '.' then rest[1..][..DigitPrefixLength(rest[1..])] else []
  }

  /**
   * The unsigned part of `parseFloat`, in pence: the integer digits and the
   * digits after a `.`; None (NaN) when there are digits on neither side.
   */
  function UnsignedAmount(u: string): Option<nat> {
    var n := DigitPrefixLength(u);
    var f := Fraction(u[n..]);
    if n == 0 && f == [] then None
    else
      var pounds: nat := DigitsValue(u[..n]);
      Some(pounds * 100 + Cents(f))
  }

  /** `v` with the sign the text gave it. */
  function Signed(negative: bool, v: nat): int {
    if negative then -(v as int) else v
  }

  /** `parseFloat(s)` read to whole pence: leading whitespace skipped, an optional sign, then the unsigned part. */
  function ParseAmount(s: string): Option<int> {
    var t := TrimStart(s);
    match UnsignedAmount(Unsigned(t))
    case None => None
    case Some(v) => Some(Signed(t != [] && t[0] == '-', v))
  }

  /** `text.substring(1)`. */
  function Substring1(text: string): string {
    if text == [] then [] else text[1..]
  }

  /** `parseFloat(text.substring(1)) || 0`: the shown total, or 0 when it does not parse. */
  function ParseTotal(text: string): int {
    ParseAmount(Substring1(text)).GetOr(0)
  }

  /** The pieces of a `digits.xy` text, as the parse finds them. */
  lemma AmountParts(d: string, x: char, y: char)
    requires d != [] && AllDigits(d) && IsDigit(x) && IsDigit(y)
    ensures var u := d + ['.', x, y];
      DigitPrefixLength(u) == |d| && u[..|d|] == d && Fraction(u[|d|..]) == [x, y]
  {
    var tail := ['.', x, y];
    DigitPrefixOfDigits(d, tail);
    assert (d + tail)[|d|..] == tail;
    DigitPrefixOfDigits([x, y], []);
    assert [x, y] + [] == [x, y];
    assert tail[1..] == [x, y];
  }

  /** A sign in front of a text starting with a digit is neither trimmed nor part of the digits. */
  lemma SignedText(neg: bool, u: string)
    requires u != [] && IsDigit(u[0])
    ensures var t := SignText(neg) + u;
      TrimStart(t) == t && Unsigned(t) == u && (t[0] == '-' <==> neg)
  {
    var t := SignText(neg) + u;
    if neg {
      assert t == ['-'] + u;
      assert t[0] == '-' && t[1..] == u;
    } else {
      assert t == u;
      assert t[0] != '-' && t[0] != '+';
    }
    assert !IsWhitespace(t[0]);
  }

  /** The unsigned parse of a `digits.xy` text. */
  lemma UnsignedAmountOfParts(d: string, x: char, y: char)
    requires d != [] && AllDigits(d) && IsDigit(x) && IsDigit(y)
    ensures UnsignedAmount(d + ['.', x, y]) == Some(DigitsValue(d) * 100 + 10 * DigitValue(x) + DigitValue(y))
  {
    AmountParts(d, x, y);
  }

  /** A sign written in front of `u` is the sign the parse gives. */
  lemma ParseAmountSigned(negative: bool, u: string)
    requires u != [] && IsDigit(u[0])
    ensures ParseAmount(SignText(negative) + u)
      == match UnsignedAmount(u) case None => None case Some(v) => Some(Signed(negative, v))
  {
    SignedText(negative, u);
  }

  /** Reading back what toFixed(2) wrote gives the same amount. */
  lemma ParseFixedTwo(p: int)
    ensures ParseAmount(FixedTwo(p)) == Some(p)
  {
    var a := if p < 0 then -p else p;
    var c := a % 100;
    var d, x, y := Decimal(a / 100), DigitChar(c / 10), DigitChar(c % 10);
    DecimalDenotes(a / 100);
    var u := d + ['.', x, y];
    assert FixedTwo(p) == SignText(p < 0) + u;
    UnsignedAmountOfParts(d, x, y);
    assert UnsignedAmount(u) == Some(a) by {
      assert (a / 100) * 100 + 10 * (c / 10) + c % 10 == a;
    }
    ParseAmountSigned(p < 0, u);
    assert Signed(p < 0, a) == p;
  }

  /** The total a page shows is read back exactly: the parse of the formatted total is that total. */
  lemma ParseTotalOfFormat(p: int)
    ensures ParseTotal(FormatPounds(p)) == p
  {
    ParseFixedTwo(p);
    assert Substring1(FormatPounds(p)) == FixedTwo(p);
  }
}
