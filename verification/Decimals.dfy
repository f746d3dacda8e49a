// Decimal numerals as Number reads them and as padStart writes them.
module Decimals {
  predicate IsDigit(c: char) {
    '0' <= c <= '9'
  }

  predicate Digits(s: string) {
    forall i | 0 <= i < |s| :: IsDigit(s[i])
  }

  function Digit(n: nat): (c: char)
    requires n < 10
    ensures IsDigit(c)
  {
    (48 + n) as char
  }

  // Number of a string of digits; the empty string reads as 0.
  function Value(s: string): nat
    requires Digits(s)
  {
    if s == "" then 0 else 10 * Value(s[..|s| - 1]) + (s[|s| - 1] as int - 48)
  }

  function Power(w: nat): (p: nat)
    ensures p >= 1
  {
    if w == 0 then 1 else 10 * Power(w - 1)
  }

  // The last w digits of n, with leading zeros.
  function Pad(n: nat, w: nat): (s: string)
    ensures |s| == w && Digits(s)
  {
    if w == 0 then "" else Pad(n / 10, w - 1) + [Digit(n % 10)]
  }

  // String(n), without leading zeros.
  function Plain(n: nat): (s: string)
    ensures s != "" && Digits(s)
  {
    (if n < 10 then "" else Plain(n / 10)) + [Digit(n % 10)]
  }

  // String(n).padStart(2, "0").
  function PadStart2(n: nat): (s: string)
    ensures |s| >= 2 && Digits(s)
  {
    if |Plain(n)| < 2 then "0" + Plain(n) else Plain(n)
  }

  lemma ValueOfAppend(s: string, n: nat)
    requires Digits(s) && n < 10
    ensures Digits(s + [Digit(n)]) && Value(s + [Digit(n)]) == 10 * Value(s) + n
  {
    var t := s + [Digit(n)];
    assert t[..|t| - 1] == s && t[|t| - 1] == Digit(n);
  }

  lemma {:induction false} PadHasValue(n: nat, w: nat)
    requires n < Power(w)
    ensures Value(Pad(n, w)) == n
  {
    if w > 0 {
      PadHasValue(n / 10, w - 1);
      ValueOfAppend(Pad(n / 10, w - 1), n % 10);
    }
  }

  lemma Tenth(n: nat, digit: nat)
    requires digit < 10
    ensures (10 * n + digit) / 10 == n && (10 * n + digit) % 10 == digit
  {
  }

  lemma {:induction false} ValueHasPad(s: string)
    requires Digits(s)
    ensures Value(s) < Power(|s|) && Pad(Value(s), |s|) == s
  {
    if s != "" {
      var init, last := s[..|s| - 1], s[|s| - 1] as int - 48;
      assert Value(s) == 10 * Value(init) + last && Digit(last) == s[|s| - 1];
      hide Value;
      ValueHasPad(init);
      Tenth(Value(init), last);
      assert s == init + [s[|s| - 1]];
    }
  }

  lemma {:induction false} PlainHasValue(n: nat)
    ensures Value(Plain(n)) == n
    decreases n
  {
    if n < 10 {
      ValueOfAppend("", n);
    } else {
      PlainHasValue(n / 10);
      ValueOfAppend(Plain(n / 10), n % 10);
    }
  }

  lemma {:induction false} PlainOfValue(s: string)
    requires Digits(s) && s != "" && (s[0] == '0' ==> |s| == 1)
    ensures Plain(Value(s)) == s
    ensures |s| > 1 ==> Value(s) >= 10
    ensures s[0] != '0' ==> Value(s) > 0
    decreases |s|
  {
    var init, last := s[..|s| - 1], s[|s| - 1] as int - 48;
    assert Digit(last) == s[|s| - 1];
    assert s == init + [s[|s| - 1]];
    assert Value(s) == 10 * Value(init) + last;
    if |s| > 1 {
      hide Value;
      PlainOfValue(init);
      Tenth(Value(init), last);
    } else {
      assert init == "" && Value(s) == last;
    }
  }

  lemma SmallPowers()
    ensures Power(2) == 100 && Power(4) == 10000 && Power(6) == 1000000
  {
    assert Power(1) == 10;
    assert Power(3) == 1000;
    assert Power(5) == 100000;
  }
}
