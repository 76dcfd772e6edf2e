// Fixed-width, zero-padded, lower-case hexadecimal renderers (hex.cpp).
//
// Each renderer is the text `std::hex << std::setfill('0') << std::setw(w)`
// produces: the shortest hex spelling of the number, padded on the left with
// '0' up to w characters and never truncated when it is longer.

module Hex {

  /** A lower-case hexadecimal digit, as std::hex prints it. */
  predicate IsDigit(c: char) {
    ('0' <= c <= '9') || ('a' <= c <= 'f')
  }

  predicate AllDigits(s: string) {
    forall k :: 0 <= k < |s| ==> IsDigit(s[k])
  }

  /** The digit for d < 16. */
  function Digit(d: nat): (c: char)
    requires d < 16
  {
    if d < 10 then ('0' as int + d) as char else ('a' as int + d - 10) as char
  }

  /** The value of a digit: the inverse of Digit. */
  function DigitValue(c: char): (d: nat)
    requires IsDigit(c)
  {
    if c <= '9' then c as int - '0' as int else c as int - 'a' as int + 10
  }

  /** The number a string of hex digits spells, most significant first. */
  function Value(s: string): nat
    requires AllDigits(s)
  {
    if s == [] then 0 else Value(s[..|s| - 1]) * 16 + DigitValue(s[|s| - 1])
  }

  function Pow16(k: nat): (p: nat)
    ensures p >= 1
  {
    if k == 0 then 1 else 16 * Pow16(k - 1)
  }

  /** The shortest spelling of n: "0" for zero, no leading zero otherwise. */
  function Digits(n: nat): string
  {
    if n < 16 then [Digit(n)] else Digits(n / 16) + [Digit(n % 16)]
  }

  function Zeros(k: nat): (z: string)
    ensures |z| == k
  {
    seq(k, _ => '0')
  }

  /** std::setfill('0') << std::setw(w): left padding to at least w characters. */
  function ZeroPad(s: string, w: nat): string
  {
    if |s| >= w then s else Zeros(w - |s|) + s
  }

  /** hex.cpp to_hex8: two digits. */
  function ToHex8(i: bv8): string
  {
    ZeroPad(Digits(i as int), 2)
  }

  /** hex.cpp to_hex32: eight digits. */
  function ToHex32(i: bv32): string
  {
    ZeroPad(Digits(i as int), 8)
  }

  /** hex.cpp to_hex0x32: "0x" and eight digits. */
  function ToHex0x32(i: bv32): string
  {
    "0x" + ToHex32(i)
  }

  /** hex.cpp to_hex0x20: "0x" and at least five digits. */
  function ToHex0x20(i: bv32): string
  {
    "0x" + ZeroPad(Digits(i as int), 5)
  }

  /** hex.cpp to_hex0x12: "0x" and at least three digits. */
  function ToHex0x12(i: bv32): string
  {
    "0x" + ZeroPad(Digits(i as int), 3)
  }

  // ---------------------------------------------------------------------
  // Properties

  lemma DigitRoundTrip(d: nat)
    requires d < 16
    ensures IsDigit(Digit(d)) && DigitValue(Digit(d)) == d
  {
  }

  /** Appending one digit multiplies the value by 16 and adds the digit. */
  lemma ValueSnoc(s: string, c: char)
    requires AllDigits(s) && IsDigit(c)
    ensures AllDigits(s + [c]) && Value(s + [c]) == Value(s) * 16 + DigitValue(c)
  {
    assert (s + [c])[..|s + [c]| - 1] == s;
  }

  /** Leading zeros do not change the value. */
  lemma {:induction false} ValueZeros(k: nat, s: string)
    requires AllDigits(s)
    ensures AllDigits(Zeros(k) + s) && Value(Zeros(k) + s) == Value(s)
    decreases |s|
  {
    if s == [] {
      assert Zeros(k) + s == Zeros(k);
      ValueOfZeros(k);
    } else {
      var init := s[..|s| - 1];
      ValueZeros(k, init);
      assert Zeros(k) + s == (Zeros(k) + init) + [s[|s| - 1]];
      ValueSnoc(Zeros(k) + init, s[|s| - 1]);
      ValueSnoc(init, s[|s| - 1]);
      assert init + [s[|s| - 1]] == s;
    }
  }

  lemma {:induction false} ValueOfZeros(k: nat)
    ensures AllDigits(Zeros(k)) && Value(Zeros(k)) == 0
  {
    if k > 0 {
      ValueOfZeros(k - 1);
      assert Zeros(k) == Zeros(k - 1) + ['0'];
      ValueSnoc(Zeros(k - 1), '0');
    }
  }

  /** Reading the digits back yields the number: the renderers lose nothing. */
  lemma {:induction false} DigitsValue(n: nat)
    ensures AllDigits(Digits(n)) && Value(Digits(n)) == n
  {
    if n < 16 {
      DigitRoundTrip(n);
      assert Digits(n) == [] + [Digit(n)];
      ValueSnoc([], Digit(n));
    } else {
      DigitsValue(n / 16);
      DigitRoundTrip(n % 16);
      ValueSnoc(Digits(n / 16), Digit(n % 16));
    }
  }

  /** n needs at most k digits exactly when n < 16^k. */
  lemma {:induction false} DigitsLength(n: nat, k: nat)
    requires k >= 1
    ensures |Digits(n)| <= k <==> n < Pow16(k)
  {
    if n >= 16 {
      if k == 1 {
        assert |Digits(n)| == |Digits(n / 16)| + 1 >= 2;
      } else {
        DigitsLength(n / 16, k - 1);
        assert n / 16 < Pow16(k - 1) <==> n < 16 * Pow16(k - 1);
      }
    } else {
      assert Pow16(k) == 16 * Pow16(k - 1) >= 16;
    }
  }

  lemma ZeroPadSpec(s: string, w: nat)
    requires AllDigits(s)
    ensures |ZeroPad(s, w)| == if |s| >= w then |s| else w
    ensures AllDigits(ZeroPad(s, w)) && Value(ZeroPad(s, w)) == Value(s)
  {
    if |s| < w {
      ValueZeros(w - |s|, s);
    }
  }

  /** The text of n padded to width w: its length and its value. */
  lemma PaddedDigits(n: nat, w: nat)
    requires w >= 1
    ensures var r := ZeroPad(Digits(n), w);
      && AllDigits(r) && Value(r) == n
      && (|r| == w <==> n < Pow16(w))
      && (n >= Pow16(w) ==> |r| == |Digits(n)| > w)
  {
    DigitsValue(n);
    DigitsLength(n, w);
    ZeroPadSpec(Digits(n), w);
  }

  /** to_hex8 is exactly two lower-case digits whose value is i. */
  lemma ToHex8Spec(i: bv8)
    ensures |ToHex8(i)| == 2 && AllDigits(ToHex8(i)) && Value(ToHex8(i)) == i as int
  {
    assert Pow16(2) == 0x100;
    PaddedDigits(i as int, 2);
  }

  /** to_hex32 is exactly eight lower-case, zero-padded digits whose value is i. */
  lemma ToHex32Spec(i: bv32)
    ensures |ToHex32(i)| == 8 && AllDigits(ToHex32(i)) && Value(ToHex32(i)) == i as int
  {
    assert Pow16(8) == 0x1_0000_0000;
    PaddedDigits(i as int, 8);
  }

  /** to_hex0x32 is "0x" then the eight digits of to_hex32, and parses back to i. */
  lemma ToHex0x32Spec(i: bv32)
    ensures |ToHex0x32(i)| == 10 && ToHex0x32(i)[..2] == "0x"
    ensures ToHex0x32(i)[2..] == ToHex32(i)
    ensures AllDigits(ToHex0x32(i)[2..]) && Value(ToHex0x32(i)[2..]) == i as int
  {
    ToHex32Spec(i);
    assert ToHex0x32(i)[2..] == ToHex32(i);
  }

  /** to_hex0x20: five digits below 2^20, more (never truncated) above. */
  lemma ToHex0x20Spec(i: bv32)
    ensures ToHex0x20(i)[..2] == "0x"
    ensures i < 0x10_0000 <==> |ToHex0x20(i)| == 7
    ensures |ToHex0x20(i)| >= 7
    ensures AllDigits(ToHex0x20(i)[2..]) && Value(ToHex0x20(i)[2..]) == i as int
  {
    assert Pow16(5) == 0x10_0000;
    PaddedDigits(i as int, 5);
    assert ToHex0x20(i)[2..] == ZeroPad(Digits(i as int), 5);
  }

  /** to_hex0x12: three digits below 2^12, more (never truncated) above. */
  lemma ToHex0x12Spec(i: bv32)
    ensures ToHex0x12(i)[..2] == "0x"
    ensures i < 0x1000 <==> |ToHex0x12(i)| == 5
    ensures |ToHex0x12(i)| >= 5
    ensures AllDigits(ToHex0x12(i)[2..]) && Value(ToHex0x12(i)[2..]) == i as int
  {
    assert Pow16(3) == 0x1000;
    PaddedDigits(i as int, 3);
    assert ToHex0x12(i)[2..] == ZeroPad(Digits(i as int), 3);
  }
}
