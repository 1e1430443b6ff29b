/**
 * The JavaScript string built-ins that the price server and the shopping-list
 * page rely on, on `string` = `seq<char>`: String.prototype.trim,
 * String.prototype.toLowerCase (on ASCII letters), the quantity field's
 * `replace(/[^0-9]/g, '')`, and `parseInt(text, 10)`.
 */
module JsText {
  import opened Wrappers
  import opened Sequences

  /** ECMAScript WhiteSpace and LineTerminator code points: what trim strips. */
  predicate IsWhitespace(c: char) {
    || c == '\t' || c == '\n' || c == '\U{000B}' || c == '\U{000C}' || c == '\r'
    || c == ' ' || c == '\U{00A0}' || c == '\U{1680}' || ('\U{2000}' <= c <= '\U{200A}')
    || c == '\U{2028}' || c == '\U{2029}' || c == '\U{202F}' || c == '\U{205F}'
    || c == '\U{3000}' || c == '\U{FEFF}'
  }

  /** String.prototype.trimStart: drops the leading whitespace, and only that. */
  function TrimStart(s: string): (r: string)
    ensures |r| <= |s| && r == s[|s| - |r|..]
    ensures r == [] || !IsWhitespace(r[0])
    ensures forall i :: 0 <= i < |s| - |r| ==> IsWhitespace(s[i])
  {
    if s != [] && IsWhitespace(s[0]) then TrimStart(s[1..]) else s
  }

  /** String.prototype.trimEnd: drops the trailing whitespace, and only that. */
  function TrimEnd(s: string): (r: string)
    ensures |r| <= |s| && r == s[..|r|]
    ensures r == [] || !IsWhitespace(r[|r| - 1])
    ensures forall i :: |r| <= i < |s| ==> IsWhitespace(s[i])
  {
    if s != [] && IsWhitespace(s[|s| - 1]) then TrimEnd(s[..|s| - 1]) else s
  }

  /**
   * String.prototype.trim: the unique slice of `s` that neither starts nor
   * ends with whitespace and around which there is only whitespace.
   */
  function Trim(s: string): (r: string)
    ensures r == [] || (!IsWhitespace(r[0]) && !IsWhitespace(r[|r| - 1]))
    ensures var k := |s| - |TrimStart(s)|;
      && k + |r| <= |s| && r == s[k..k + |r|]
      && (forall i :: 0 <= i < k ==> IsWhitespace(s[i]))
      && (forall i :: k + |r| <= i < |s| ==> IsWhitespace(s[i]))
  {
    TrimEnd(TrimStart(s))
  }

  /** Trimming a text that has no whitespace at either end leaves it as it is. */
  lemma TrimUntouched(s: string)
    requires s == [] || (!IsWhitespace(s[0]) && !IsWhitespace(s[|s| - 1]))
    ensures Trim(s) == s
  {
    assert TrimStart(s) == s;
    assert TrimEnd(s) == s;
  }

  /** Every character of `s` is whitespace. */
  predicate AllWhitespace(s: string) {
    forall i :: 0 <= i < |s| ==> IsWhitespace(s[i])
  }

  /** trimStart removes exactly a whitespace prefix in front of a non-whitespace character. */
  lemma {:induction false} TrimStartPadded(pre: string, m: string)
    requires AllWhitespace(pre) && m != [] && !IsWhitespace(m[0])
    ensures TrimStart(pre + m) == m
  {
    if pre != [] {
      assert (pre + m)[1..] == pre[1..] + m;
      TrimStartPadded(pre[1..], m);
    } else {
      assert pre + m == m;
    }
  }

  /** trimEnd removes exactly a whitespace suffix behind a non-whitespace character. */
  lemma {:induction false} TrimEndPadded(m: string, post: string)
    requires AllWhitespace(post) && m != [] && !IsWhitespace(m[|m| - 1])
    ensures TrimEnd(m + post) == m
    decreases |post|
  {
    if post != [] {
      var p := post[..|post| - 1];
      assert (m + post)[..|m + post| - 1] == m + p;
      TrimEndPadded(m, p);
    } else {
      assert m + post == m;
    }
  }

  /** trim removes exactly the whitespace padding around a text that has none at its ends. */
  lemma TrimPadded(pre: string, m: string, post: string)
    requires AllWhitespace(pre) && AllWhitespace(post)
    requires m != [] && !IsWhitespace(m[0]) && !IsWhitespace(m[|m| - 1])
    ensures Trim(pre + m + post) == m
  {
    assert pre + m + post == pre + (m + post);
    TrimStartPadded(pre, m + post);
    TrimEndPadded(m, post);
  }

  /** trim is idempotent. */
  lemma TrimIdempotent(s: string)
    ensures Trim(Trim(s)) == Trim(s)
  {
    TrimUntouched(Trim(s));
  }

  /** An upper-case ASCII letter. */
  predicate IsUpper(c: char) {
    'A' <= c <= 'Z'
  }

  /** The lower-case form of one character: ASCII letters only. */
  function LowerChar(c: char): char {
    if IsUpper(c) then (c as int + 32) as char else c
  }

  /**
   * String.prototype.toLowerCase, restricted to ASCII: the same length, no
   * upper-case letter left, each upper-case letter replaced by its lower-case
   * partner and every other character kept.
   */
  function ToLower(s: string): (r: string)
    ensures |r| == |s|
    ensures forall i :: 0 <= i < |s| ==> !IsUpper(r[i])
    ensures forall i :: 0 <= i < |s| && !IsUpper(s[i]) ==> r[i] == s[i]
    ensures forall i :: 0 <= i < |s| && IsUpper(s[i]) ==> r[i] as int == s[i] as int + 32
  {
    seq(|s|, i requires 0 <= i < |s| => LowerChar(s[i]))
  }

  /** A text without upper-case letters is its own lower-case form. */
  lemma LowerOfLower(s: string)
    requires forall i :: 0 <= i < |s| ==> !IsUpper(s[i])
    ensures ToLower(s) == s
  {
  }

  /** A character that `[0-9]` matches. */
  predicate IsDigit(c: char) {
    '0' <= c <= '9'
  }

  /** Every character of `s` is a decimal digit. */
  predicate AllDigits(s: string) {
    forall i :: 0 <= i < |s| ==> IsDigit(s[i])
  }

  /**
   * `s.replace(/[^0-9]/g, '')`: only digits remain, and every digit of `s`
   * remains as often as it occurs in `s`.
   */
  function DigitsOnly(s: string): (r: string)
    ensures AllDigits(r)
    ensures forall c :: IsDigit(c) ==> multiset(r)[c] == multiset(s)[c]
  {
    if s == [] then []
    else
      assert s == [s[0]] + s[1..];
      if IsDigit(s[0]) then [s[0]] + DigitsOnly(s[1..]) else DigitsOnly(s[1..])
  }

  /** The digit filter keeps the surviving characters in their original order. */
  lemma {:induction false} DigitsOnlyKeepsOrder(s: string)
    ensures IsSubsequence(DigitsOnly(s), s)
  {
    if s != [] {
      DigitsOnlyKeepsOrder(s[1..]);
      var d := DigitsOnly(s[1..]);
      // A dropped non-digit can never be the next kept character.
      assert !IsDigit(s[0]) && d != [] ==> d[0] != s[0];
    }
  }

  /** A text of digits only passes the filter unchanged. */
  lemma {:induction false} DigitsOnlyOfDigits(s: string)
    requires AllDigits(s)
    ensures DigitsOnly(s) == s
  {
    if s != [] {
      DigitsOnlyOfDigits(s[1..]);
    }
  }

  /** The digit filter is idempotent. */
  lemma DigitsOnlyIdempotent(s: string)
    ensures DigitsOnly(DigitsOnly(s)) == DigitsOnly(s)
  {
    DigitsOnlyOfDigits(DigitsOnly(s));
  }

  /** The value of a decimal digit. */
  function DigitValue(c: char): nat
    requires IsDigit(c)
  {
    c as int - '0' as int
  }

  /** The number a run of decimal digits denotes, most significant first. */
  function DigitsValue(s: string): nat
    requires AllDigits(s)
  {
    if s == [] then 0 else DigitsValue(s[..|s| - 1]) * 10 + DigitValue(s[|s| - 1])
  }

  /** The length of the longest prefix of `s` made of digits. */
  function DigitPrefixLength(s: string): (n: nat)
    ensures n <= |s| && AllDigits(s[..n])
    ensures n < |s| ==> !IsDigit(s[n])
  {
    if s != [] && IsDigit(s[0]) then
      var n := 1 + DigitPrefixLength(s[1..]);
      assert s[..n] == [s[0]] + s[1..][..n - 1];
      n
    else 0
  }

  /** The digit prefix of a digits-then-non-digit text is exactly those digits. */
  lemma {:induction false} DigitPrefixOfDigits(d: string, rest: string)
    requires AllDigits(d)
    requires rest == [] || !IsDigit(rest[0])
    ensures DigitPrefixLength(d + rest) == |d|
  {
    if d != [] {
      assert (d + rest)[1..] == d[1..] + rest;
      DigitPrefixOfDigits(d[1..], rest);
    }
  }

  /** `t` without one leading `+` or `-` sign. */
  function Unsigned(t: string): string {
    if t != [] && (t[0] == '-' || t[0] == '+') then t[1..] else t
  }

  /**
   * `parseInt(s, 10)`: leading whitespace skipped, an optional sign, then the
   * longest run of digits; `None` (NaN) when that run is empty.
   */
  function ParseInt(s: string): (r: Option<int>)
    ensures r.None? <==> DigitPrefixLength(Unsigned(TrimStart(s))) == 0
  {
    var t := TrimStart(s);
    var u := Unsigned(t);
    var n := DigitPrefixLength(u);
    if n == 0 then None
    else if t[0] == '-' then Some(-(DigitsValue(u[..n]) as int))
    else Some(DigitsValue(u[..n]))
  }

  /** A non-empty run of digits parses to the number it denotes. */
  lemma ParseIntOfDigits(s: string)
    requires s != [] && AllDigits(s)
    ensures ParseInt(s) == Some(DigitsValue(s))
  {
    assert !IsWhitespace(s[0]);
    assert TrimStart(s) == s;
    assert Unsigned(s) == s;
    DigitPrefixOfDigits(s, []);
    assert s + [] == s;
    assert s[..|s|] == s;
  }

  /** A run of digits denotes zero exactly when every digit is `0`. */
  lemma {:induction false} DigitsValueZero(s: string)
    requires AllDigits(s)
    ensures DigitsValue(s) == 0 <==> forall i :: 0 <= i < |s| ==> s[i] == '0'
  {
    if s != [] {
      var p := s[..|s| - 1];
      DigitsValueZero(p);
      assert forall i :: 0 <= i < |p| ==> p[i] == s[i];
    }
  }

  /**
   * After the digit filter, `parseInt` gives NaN exactly when no digit was
   * typed, and otherwise a number that is not negative and that is zero only
   * when every typed digit is `0`.
   */
  lemma FilteredQuantity(s: string)
    ensures var d := DigitsOnly(s);
      && (ParseInt(d).None? <==> d == [])
      && (ParseInt(d).Some? ==>
            && ParseInt(d).value >= 0
            && (ParseInt(d).value == 0 <==> forall i :: 0 <= i < |d| ==> d[i] == '0'))
  {
    var d := DigitsOnly(s);
    if d == [] {
      assert TrimStart(d) == [];
    } else {
      ParseIntOfDigits(d);
      DigitsValueZero(d);
    }
  }
}
