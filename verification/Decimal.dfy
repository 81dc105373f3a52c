/** Decimal printing of integers, as an f-string renders an `int`. */
module Decimal {

  predicate IsDigit(c: char) {
    '0' <= c <= '9'
  }

  function Digit(n: nat): (c: char)
    requires n < 10
    ensures IsDigit(c) && DigitValue(c) == n
  {
    '0' + n as char
  }

  function DigitValue(c: char): nat {
    if IsDigit(c) then (c - '0') as nat else 0
  }

  function PrintNat(n: nat): (r: string)
    ensures r != [] && forall i :: 0 <= i < |r| ==> IsDigit(r[i])
  {
    if n < 10 then [Digit(n)] else PrintNat(n / 10) + [Digit(n % 10)]
  }

  function Print(n: int): string {
    if n < 0 then ['-'] + PrintNat(-n) else PrintNat(n)
  }

  function ReadNat(s: string): nat {
    if s == [] then 0 else 10 * ReadNat(s[..|s| - 1]) + DigitValue(s[|s| - 1])
  }

  /** Reads a number back, sign included. */
  function Read(s: string): int {
    if s != [] && s[0] == '-' then 0 - ReadNat(s[1..]) else ReadNat(s)
  }

  lemma {:induction false} ReadNatOfPrintNat(n: nat)
    ensures ReadNat(PrintNat(n)) == n
  {
    var r := PrintNat(n);
    if n < 10 {
      assert r[..|r| - 1] == [];
    } else {
      ReadNatOfPrintNat(n / 10);
      assert r[..|r| - 1] == PrintNat(n / 10);
    }
  }

  lemma ReadOfPrint(n: int)
    ensures Read(Print(n)) == n
  {
    if n < 0 {
      assert Print(n)[1..] == PrintNat(-n);
      ReadNatOfPrintNat(-n);
    } else {
      assert IsDigit(PrintNat(n)[0]);
      ReadNatOfPrintNat(n);
    }
  }

  /** Two integers that print alike are equal. */
  lemma PrintIsInjective(m: int, n: int)
    requires Print(m) == Print(n)
    ensures m == n
  {
    ReadOfPrint(m);
    ReadOfPrint(n);
  }

  /** The highest digit comes first, and a negative number starts with its sign. */
  lemma PrintedExamples()
    ensures Print(0) == "0" && Print(42) == "42" && Print(-7) == "-7" && Print(105) == "105"
  {
    assert PrintNat(4) == "4" && PrintNat(1) == "1" && PrintNat(10) == "10";
  }
}
