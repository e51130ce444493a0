/** Decimal numerals as bytes, zero-padded to at least three digits (the `%03d` verb). */
module Decimals {
  import opened ByteStrings

  const ZERO: byte := 0x30

  function Decimal(n: nat): (s: Bytes)
    ensures |s| >= 1
    ensures forall i :: 0 <= i < |s| ==> 0x30 <= s[i] <= 0x39
  {
    if n < 10 then [ZERO + n] else Decimal(n / 10) + [ZERO + n % 10]
  }

  function Pad3(n: nat): (s: Bytes)
    ensures |s| >= 3
    ensures forall i :: 0 <= i < |s| ==> 0x30 <= s[i] <= 0x39
  {
    var d := Decimal(n);
    if |d| == 1 then [ZERO, ZERO] + d else if |d| == 2 then [ZERO] + d else d
  }

  /** The number a string of digits stands for. */
  function Parse(s: Bytes): int {
    if s == [] then 0 else 10 * Parse(s[..|s| - 1]) + (s[|s| - 1] - ZERO)
  }

  lemma {:induction false} ParseDecimal(n: nat)
    ensures Parse(Decimal(n)) == n
    decreases n
  {
    var d := Decimal(n);
    if n < 10 {
      assert d[..0] == [];
    } else {
      ParseDecimal(n / 10);
      assert d[..|d| - 1] == Decimal(n / 10);
    }
  }

  lemma {:induction false} ParseLeadingZero(s: Bytes)
    ensures Parse([ZERO] + s) == Parse(s)
    decreases |s|
  {
    var z: Bytes := [ZERO] + s;
    if s == [] {
      assert z[..0] == [];
    } else {
      ParseLeadingZero(s[..|s| - 1]);
      assert z[..|z| - 1] == [ZERO] + s[..|s| - 1];
    }
  }

  /** Padding loses nothing: the numeral reads back as the number. */
  lemma ParsePad3(n: nat)
    ensures Parse(Pad3(n)) == n
  {
    var d := Decimal(n);
    ParseDecimal(n);
    ParseLeadingZero(d);
    ParseLeadingZero([ZERO] + d);
    assert [ZERO] + ([ZERO] + d) == [ZERO, ZERO] + d;
  }

  /** Three digits hold exactly the numbers up to 999. */
  lemma Pad3Width(n: nat)
    ensures |Pad3(n)| == 3 <==> n <= 999
  {
    if n >= 10 {
      assert |Decimal(n)| == |Decimal(n / 10)| + 1;
      if n >= 100 {
        assert n / 10 / 10 == n / 100;
        assert |Decimal(n / 10)| == |Decimal(n / 100)| + 1;
        if n >= 1000 {
          assert |Decimal(n / 100)| == |Decimal(n / 100 / 10)| + 1;
        }
      }
    }
  }
}
