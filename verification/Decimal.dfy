/** Decimal numerals as printf writes them and strtol reads them. */
module Decimal {
  import opened Wrappers

  function DigitChar(d: nat): char
    requires d < 10
  {
    '0' + d as char
  }

  predicate IsDigit(c: char) { '0' <= c <= '9' }

  function DigitValue(c: char): (d: nat)
    requires IsDigit(c)
    ensures d < 10
  {
    (c - '0') as nat
  }

  /** "%d" of a natural number. */
  function Show(n: nat): (s: string)
    ensures |s| > 0 && forall k :: 0 <= k < |s| ==> IsDigit(s[k])
  {
    if n < 10 then [DigitChar(n)] else Show(n / 10) + [DigitChar(n % 10)]
  }

  /** The number of digits at the front of a text. */
  function DigitRun(s: string): (n: nat)
    ensures n <= |s| && forall k :: 0 <= k < n ==> IsDigit(s[k])
    ensures n < |s| ==> !IsDigit(s[n])
  {
    if s == [] || !IsDigit(s[0]) then 0 else 1 + DigitRun(s[1..])
  }

  /** The value of a text of digits. */
  function Value(s: string): nat
    requires forall k :: 0 <= k < |s| ==> IsDigit(s[k])
  {
    if s == [] then 0 else 10 * Value(s[..|s| - 1]) + DigitValue(s[|s| - 1])
  }

  lemma {:induction false} ValueOfShow(n: nat)
    ensures Value(Show(n)) == n
  {
    if n >= 10 {
      var s := Show(n);
      assert s[..|s| - 1] == Show(n / 10);
      ValueOfShow(n / 10);
    }
  }

  /** A numeral followed by something that is not a digit is read back to exactly its end. */
  lemma {:induction false} RunOfDigits(digits: string, rest: string)
    requires forall k :: 0 <= k < |digits| ==> IsDigit(digits[k])
    requires rest == [] || !IsDigit(rest[0])
    ensures DigitRun(digits + rest) == |digits| && (digits + rest)[..|digits|] == digits
  {
    if digits == [] {
      assert digits + rest == rest;
    } else {
      assert (digits + rest)[1..] == digits[1..] + rest;
      RunOfDigits(digits[1..], rest);
    }
  }

  /** Larger numbers have no shorter numerals. */
  lemma {:induction false} ShowMonotone(m: nat, n: nat)
    requires m <= n
    ensures |Show(m)| <= |Show(n)|
  {
    if n >= 10 && m >= 10 {
      assert m / 10 <= n / 10;
      ShowMonotone(m / 10, n / 10);
    }
  }

  function TenTo(k: nat): nat { if k == 0 then 1 else 10 * TenTo(k - 1) }

  /** A numeral has at most k digits exactly when the number is below the k-th power of ten. */
  lemma {:induction false} ShowLength(n: nat, k: nat)
    requires k > 0
    ensures |Show(n)| <= k <==> n < TenTo(k)
  {
    if n >= 10 {
      if k > 1 { ShowLength(n / 10, k - 1); } else { assert |Show(n / 10)| > 0; }
    } else {
      TenToGrows(k);
    }
  }

  lemma {:induction false} TenToGrows(k: nat)
    requires k > 0
    ensures TenTo(k) >= 10
  {
    if k > 1 { TenToGrows(k - 1); }
  }

  // ---------------------------------------------------------------- which text a numeral is

  /** The characters of the ten digits. */
  lemma TenDigits(d: nat)
    requires d < 10
    ensures DigitChar(d) == "0123456789"[d] && DigitValue("0123456789"[d]) == d
  {
  }

  /** The first digit counts as many powers of ten as there are digits behind it. */
  lemma {:induction false} ValueFromFront(s: string)
    requires s != "" && forall k :: 0 <= k < |s| ==> IsDigit(s[k])
    ensures Value(s) == DigitValue(s[0]) * TenTo(|s| - 1) + Value(s[1..])
  {
    if |s| > 1 {
      var init, d := s[..|s| - 1], DigitValue(s[0]);
      ValueFromFront(init);
      assert init[1..] == s[1..][..|s| - 2];
      assert 10 * (d * TenTo(|s| - 2)) == d * TenTo(|s| - 1);
    } else {
      assert s[..0] == "" && s[1..] == "";
    }
  }

  /** Digits, and no zero in front of others. */
  predicate Canonical(s: string) {
    s != "" && (forall k :: 0 <= k < |s| ==> IsDigit(s[k])) && (s[0] == '0' ==> |s| == 1)
  }

  lemma {:induction false} ShowIsCanonical(n: nat)
    ensures Canonical(Show(n)) && (n > 0 ==> Show(n)[0] != '0')
  {
    if n >= 10 { ShowIsCanonical(n / 10); }
  }

  lemma {:induction false} ValuePositive(s: string)
    requires Canonical(s) && s[0] != '0'
    ensures Value(s) > 0
  {
    if |s| > 1 { ValuePositive(s[..|s| - 1]); }
  }

  /** There is only one such text for a number. */
  lemma {:induction false} ShowOfValue(s: string)
    requires Canonical(s)
    ensures Show(Value(s)) == s
  {
    var init, d := s[..|s| - 1], DigitValue(s[|s| - 1]);
    assert s == init + [DigitChar(d)];
    if |s| > 1 {
      ShowOfValue(init);
      ValuePositive(init);
      assert Value(s) / 10 == Value(init) && Value(s) % 10 == d;
    } else {
      assert Value(init) == 0;
    }
  }

  /** The numeral at the front of a text, which may have no needless zeros, and what follows it. */
  function Numeral(text: string): (r: Option<(nat, string)>)
    ensures r.Some? ==> |r.value.1| < |text|
  {
    var n := DigitRun(text);
    if Canonical(text[..n]) then Some((Value(text[..n]), text[n..])) else None
  }

  /** A text starts with the numeral of n exactly when it is "%d" of n and something that is not a digit. */
  lemma {:induction false} NumeralExactly(text: string, n: nat, rest: string)
    ensures Numeral(text) == Some((n, rest)) <==>
      text == Show(n) + rest && (rest == "" || !IsDigit(rest[0]))
  {
    var k := DigitRun(text);
    hide Show, DigitRun, Value;
    if text == Show(n) + rest && (rest == "" || !IsDigit(rest[0])) {
      RunOfDigits(Show(n), rest);
      ShowIsCanonical(n);
      ValueOfShow(n);
      assert text[k..] == rest;
    }
    if Numeral(text) == Some((n, rest)) {
      ShowOfValue(text[..k]);
      assert text == text[..k] + text[k..];
    }
  }

  /** What follows `front`, if the text starts with it. */
  function After(text: string, front: string): Option<string> {
    if front <= text then Some(text[|front|..]) else None
  }

  lemma AfterExactly(text: string, front: string, rest: string)
    ensures After(text, front) == Some(rest) <==> text == front + rest
  {
    if front <= text { assert text == front + text[|front|..]; }
  }

  /** Counts the digits of a number by repeated division; 0 has none. */
  method Digit(number: nat) returns (digits: nat)
    ensures digits == if number == 0 then 0 else |Show(number)|
  {
    var n := number;
    digits := 0;
    while n != 0
      invariant digits + (if n == 0 then 0 else |Show(n)|) == if number == 0 then 0 else |Show(number)|
      decreases n
    {
      n := n / 10;
      digits := digits + 1;
    }
  }
}
