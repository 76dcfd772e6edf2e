// What `std::ostream <<` prints for the integers and padded words the
// disassembler writes: decimal integers with a leading '-' when negative, and
// `std::setw(w) << std::left` space padding.

module Text {

  predicate IsDecimalDigit(c: char) {
    '0' <= c <= '9'
  }

  predicate AllDecimal(s: string) {
    forall k :: 0 <= k < |s| ==> IsDecimalDigit(s[k])
  }

  /** Shortest decimal spelling of n ("0" for zero). */
  function Decimal(n: nat): string
  {
    if n < 10 then [('0' as int + n) as char] else Decimal(n / 10) + [('0' as int + n % 10) as char]
  }

  /** An int as `operator<<` prints it. */
  function IntText(i: int): string
  {
    if i < 0 then "-" + Decimal(-i) else Decimal(i)
  }

  /** The number a string of decimal digits spells. */
  function DecimalValue(s: string): nat
    requires AllDecimal(s)
  {
    if s == [] then 0 else DecimalValue(s[..|s| - 1]) * 10 + (s[|s| - 1] as int - '0' as int)
  }

  /** Reads back an optionally signed decimal. */
  function ParseInt(s: string): int
    requires s != [] && (if s[0] == '-' then AllDecimal(s[1..]) else AllDecimal(s))
  {
    if s[0] == '-' then 0 - DecimalValue(s[1..]) as int else DecimalValue(s)
  }

  /** `std::setw(w) << std::left << s`: s followed by spaces up to w characters. */
  function PadRight(s: string, w: nat): string
  {
    if |s| >= w then s else s + seq(w - |s|, _ => ' ')
  }

  /** The pieces of s between occurrences of sep, in order: how a reader
      takes apart a comma-separated operand list. */
  function Split(s: string, sep: char): (r: seq<string>)
    ensures |r| >= 1
  {
    if s == [] then [[]]
    else
      var rest := Split(s[1..], sep);
      if s[0] == sep then [[]] + rest else [[s[0]] + rest[0]] + rest[1..]
  }

  // ---------------------------------------------------------------------
  // Properties

  /** The decimal spelling is non-empty, all digits, and reads back as n. */
  lemma {:induction false} DecimalValueOf(n: nat)
    ensures Decimal(n) != [] && AllDecimal(Decimal(n)) && DecimalValue(Decimal(n)) == n
  {
    if n >= 10 {
      DecimalValueOf(n / 10);
      var s := Decimal(n);
      assert s[..|s| - 1] == Decimal(n / 10);
    } else {
      assert Decimal(n)[..0] == [];
    }
  }

  /** Printing an int and reading it back yields the int. */
  lemma IntTextRoundTrip(i: int)
    ensures IntText(i) != [] && IntText(i)[0] == '-' <==> i < 0
    ensures IntText(i) != []
    ensures (if IntText(i)[0] == '-' then AllDecimal(IntText(i)[1..]) else AllDecimal(IntText(i)))
    ensures ParseInt(IntText(i)) == i
  {
    if i < 0 {
      DecimalValueOf(-i);
      assert IntText(i)[1..] == Decimal(-i);
    } else {
      DecimalValueOf(i);
    }
  }

  /** The padded text keeps s as its prefix, is at least w long, and adds only spaces. */
  lemma PadRightSpec(s: string, w: nat)
    ensures |PadRight(s, w)| == if |s| >= w then |s| else w
    ensures PadRight(s, w)[..|s|] == s
    ensures forall k :: |s| <= k < |PadRight(s, w)| ==> PadRight(s, w)[k] == ' '
  {
  }

  /** Text without the separator is a single piece. */
  lemma {:induction false} SplitNone(a: string, sep: char)
    requires sep !in a
    ensures Split(a, sep) == [a]
  {
    if a != [] {
      SplitNone(a[1..], sep);
      assert [a[0]] + a[1..] == a;
    }
  }

  /** A separator after a separator-free prefix ends the first piece there. */
  lemma {:induction false} SplitAt(a: string, sep: char, b: string)
    requires sep !in a
    ensures Split(a + [sep] + b, sep) == [a] + Split(b, sep)
  {
    var t := a + [sep] + b;
    if a == [] {
      assert t[1..] == b;
    } else {
      assert t[1..] == a[1..] + [sep] + b;
      SplitAt(a[1..], sep, b);
      assert [a[0]] + a[1..] == a;
    }
  }

  /** Two separator-free pieces joined by the separator split back apart. */
  lemma Split2(a: string, b: string, sep: char)
    requires sep !in a && sep !in b
    ensures Split(a + [sep] + b, sep) == [a, b]
  {
    SplitAt(a, sep, b);
    SplitNone(b, sep);
  }

  /** Three separator-free pieces joined by the separator split back apart. */
  lemma Split3(a: string, b: string, c: string, sep: char)
    requires sep !in a && sep !in b && sep !in c
    ensures Split(a + [sep] + b + [sep] + c, sep) == [a, b, c]
  {
    assert a + [sep] + b + [sep] + c == a + [sep] + (b + [sep] + c);
    SplitAt(a, sep, b + [sep] + c);
    Split2(b, c, sep);
  }
}
