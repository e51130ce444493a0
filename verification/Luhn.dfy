/** The Luhn check (Annex B of ISO/IEC 7812-1) and the errors it detects. */
module Luhn {
  import opened ByteStrings

  predicate AllDigits(s: Bytes) {
    forall i :: 0 <= i < |s| ==> 0x30 <= s[i] <= 0x39
  }

  /** The value of a digit byte; the subtraction wraps as a byte does. */
  function DigitValue(b: byte): nat {
    (b - 0x30) % 0x100
  }

  function Weigh(d: nat, double: bool): nat {
    if !double then d else if 2 * d > 9 then 2 * d - 9 else 2 * d
  }

  /** The weighted sum, every second digit from the right doubled. */
  function LuhnSum(s: Bytes, double: bool): nat
    decreases |s|
  {
    if s == [] then 0
    else LuhnSum(s[..|s| - 1], !double) + Weigh(DigitValue(s[|s| - 1]), double)
  }

  predicate IsLuhn(s: Bytes) {
    |s| >= 12 && LuhnSum(s, false) % 10 == 0
  }

  method LuhnValid(digits: Bytes) returns (ok: bool)
    ensures ok == IsLuhn(digits)
  {
    if |digits| < 12 {
      return false;
    }
    var sum := 0;
    var double := false;
    var i := |digits| - 1;
    assert digits[..|digits|] == digits;
    while i >= 0
      invariant -1 <= i < |digits|
      invariant sum + LuhnSum(digits[..i + 1], double) == LuhnSum(digits, false)
    {
      assert digits[..i + 1][..i] == digits[..i];
      var d := DigitValue(digits[i]);
      if double {
        d := d * 2;
        if d > 9 {
          d := d - 9;
        }
      }
      sum := sum + d;
      double := !double;
      i := i - 1;
    }
    return sum % 10 == 0;
  }

  /** Whether the digit at offset `i` of `n` is doubled, counting from the right. */
  predicate Doubled(n: nat, i: nat, double: bool)
    requires i < n
  {
    if i == n - 1 then double else Doubled(n - 1, i, !double)
  }

  lemma {:induction false} DoubledAlternates(n: nat, i: nat, double: bool)
    requires i + 1 < n
    ensures Doubled(n, i + 1, double) != Doubled(n, i, double)
    decreases n
  {
    if i + 1 < n - 1 {
      DoubledAlternates(n - 1, i, !double);
    }
  }

  /** Changing one digit changes the sum by that digit's weight alone. */
  lemma {:induction false} SumUpdate(s: Bytes, i: nat, b: byte, double: bool)
    requires i < |s|
    ensures LuhnSum(s[i := b], double) - LuhnSum(s, double)
         == Weigh(DigitValue(b), Doubled(|s|, i, double)) - Weigh(DigitValue(s[i]), Doubled(|s|, i, double))
    decreases |s|
  {
    var n := |s| - 1;
    var t := s[i := b];
    if i == n {
      assert t[..n] == s[..n];
    } else {
      assert t[..n] == s[..n][i := b];
      SumUpdate(s[..n], i, b, !double);
    }
  }

  lemma WeighDistinct(d: nat, e: nat, double: bool)
    requires d <= 9 && e <= 9 && d != e
    ensures Weigh(d, double) <= 9 && Weigh(e, double) <= 9 && Weigh(d, double) != Weigh(e, double)
  {
  }

  lemma CloseMultiples(a: nat, b: nat)
    requires a % 10 == 0 && -10 < b - a < 10
    ensures b % 10 == 0 <==> a == b
  {
  }

  /** Every single-digit error is detected. */
  lemma DetectsSingleError(s: Bytes, i: nat, b: byte)
    requires AllDigits(s) && i < |s| && 0x30 <= b <= 0x39 && b != s[i]
    requires IsLuhn(s)
    ensures !IsLuhn(s[i := b])
  {
    SumUpdate(s, i, b, false);
    WeighDistinct(DigitValue(b), DigitValue(s[i]), Doubled(|s|, i, false));
    CloseMultiples(LuhnSum(s, false), LuhnSum(s[i := b], false));
  }

  lemma SwapUpdates(s: Bytes, i: nat)
    requires AllDigits(s) && i + 1 < |s|
    ensures var a, b := DigitValue(s[i]), DigitValue(s[i + 1]);
            var p := Doubled(|s|, i, false);
            LuhnSum(s[i := s[i + 1]][i + 1 := s[i]], false)
            == LuhnSum(s, false) + Weigh(b, p) - Weigh(a, p) + Weigh(a, !p) - Weigh(b, !p)
  {
    SumUpdate(s, i, s[i + 1], false);
    SumUpdate(s[i := s[i + 1]], i + 1, s[i], false);
    DoubledAlternates(|s|, i, false);
  }

  lemma ZeroNine(a: byte, b: byte)
    requires 0x30 <= a <= 0x39 && 0x30 <= b <= 0x39
    ensures {a, b} == {0x30, 0x39} <==>
              (DigitValue(a) == 0 && DigitValue(b) == 9) || (DigitValue(a) == 9 && DigitValue(b) == 0)
  {
    if {a, b} == {0x30, 0x39} {
      assert a in {0x30, 0x39} && b in {0x30, 0x39};
      assert 0x30 in {a, b} && 0x39 in {a, b};
    }
  }

  lemma SwapSum(s: Bytes, i: nat)
    requires AllDigits(s) && i + 1 < |s| && s[i] != s[i + 1]
    ensures var swapped := s[i := s[i + 1]][i + 1 := s[i]];
            var diff := LuhnSum(swapped, false) - LuhnSum(s, false);
            && -9 < diff < 9
            && (diff == 0 <==> {s[i], s[i + 1]} == {0x30, 0x39})
  {
    SwapUpdates(s, i);
    ZeroNine(s[i], s[i + 1]);
    SwapDifference(DigitValue(s[i]), DigitValue(s[i + 1]), Doubled(|s|, i, false));
  }

  /** An adjacent transposition is missed exactly when it swaps a 0 and a 9. */
  lemma DetectsTransposition(s: Bytes, i: nat)
    requires AllDigits(s) && i + 1 < |s| && s[i] != s[i + 1]
    requires IsLuhn(s)
    ensures IsLuhn(s[i := s[i + 1]][i + 1 := s[i]]) <==> {s[i], s[i + 1]} == {0x30, 0x39}
  {
    SwapSum(s, i);
    CloseMultiples(LuhnSum(s, false), LuhnSum(s[i := s[i + 1]][i + 1 := s[i]], false));
  }

  lemma SwapDifference(a: nat, b: nat, p: bool)
    requires a <= 9 && b <= 9 && a != b
    ensures var diff := Weigh(b, p) - Weigh(a, p) + Weigh(a, !p) - Weigh(b, !p);
            && -9 < diff < 9
            && (diff == 0 <==> (a == 0 && b == 9) || (a == 9 && b == 0))
  {
  }

  // ----- which digits are doubled -----

  /** Every second digit, the last one not. */
  lemma {:induction false} DoubledIff(n: nat, i: nat, double: bool)
    requires i < n
    ensures Doubled(n, i, double) <==> ((n - 1 - i) % 2 == 1) != double
    decreases n
  {
    if i < n - 1 {
      DoubledIff(n - 1, i, !double);
    }
  }

  /** A change of one digit moves the sum by what the standard has its place weigh: as it is in the last place, the
      third last and so on, and else doubled, less nine when that has two digits. */
  lemma PlacesWeigh(s: Bytes, i: nat, b: byte)
    requires AllDigits(s) && i < |s| && 0x30 <= b <= 0x39
    ensures var moved, d, e := LuhnSum(s[i := b], false) - LuhnSum(s, false), s[i] - 0x30, b - 0x30;
            if (|s| - 1 - i) % 2 == 0 then moved == e - d
            else moved == (2 * e - if e >= 5 then 9 else 0) - (2 * d - if d >= 5 then 9 else 0)
  {
    SumUpdate(s, i, b, false);
    DoubledIff(|s|, i, false);
    WeighsSo(s[i]);
    WeighsSo(b);
  }

  lemma WeighsSo(b: byte)
    requires 0x30 <= b <= 0x39
    ensures Weigh(DigitValue(b), false) == b - 0x30
    ensures Weigh(DigitValue(b), true) == 2 * (b - 0x30) - if b - 0x30 >= 5 then 9 else 0
  {
  }

  function Ones(n: nat): (s: Bytes)
    ensures |s| == n
  {
    seq(n, _ => 0x31)
  }

  lemma {:induction false} OnesSum(n: nat, double: bool)
    ensures LuhnSum(Ones(n), double) == n + (if double then n + 1 else n) / 2
    decreases n
  {
    if n > 0 {
      assert Ones(n)[..n - 1] == Ones(n - 1);
      OnesSum(n - 1, !double);
    }
  }

  /** A four and fifteen ones is a valid number, a two and fifteen ones is not. */
  lemma KnownNumbers()
    ensures IsLuhn(Ones(16)[0 := 0x34]) && !IsLuhn(Ones(16)[0 := 0x32])
  {
    OnesSum(16, false);
    PlacesWeigh(Ones(16), 0, 0x34);
    PlacesWeigh(Ones(16), 0, 0x32);
  }
}
