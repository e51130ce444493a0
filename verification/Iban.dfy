/** The IBAN check (ISO/IEC 7064, system MOD 97-10) and the errors it detects. */
module Iban {
  import opened ByteStrings

  predicate IsDigitByte(b: byte) {
    0x30 <= b <= 0x39
  }

  predicate IsCapital(b: byte) {
    0x41 <= b <= 0x5A
  }

  predicate AllowedBytes(s: Bytes) {
    forall i :: 0 <= i < |s| ==> IsDigitByte(s[i]) || IsCapital(s[i])
  }

  function UpperByte(b: byte): byte {
    if 0x61 <= b <= 0x7A then b - 0x20 else b
  }

  /** Upper case, spaces removed. */
  function Normalise(s: Bytes): Bytes {
    if s == [] then []
    else if s[0] == 0x20 then Normalise(s[1..])
    else [UpperByte(s[0])] + Normalise(s[1..])
  }

  lemma {:induction false} NormaliseAppend(a: Bytes, b: Bytes)
    ensures Normalise(a + b) == Normalise(a) + Normalise(b)
    decreases |a|
  {
    if a == [] {
      assert a + b == b;
    } else {
      assert (a + b)[1..] == a[1..] + b;
      NormaliseAppend(a[1..], b);
    }
  }

  /** Spaces and the case of letters do not matter, wherever they stand. */
  lemma LayoutDoesNotMatter(a: Bytes, x: byte, b: Bytes)
    ensures Normalise(a + [0x20] + b) == Normalise(a + b)
    ensures 0x61 <= x <= 0x7A ==> Normalise(a + [x] + b) == Normalise(a + [x - 0x20] + b)
    ensures 0x20 !in a && (forall i :: 0 <= i < |a| ==> !(0x61 <= a[i] <= 0x7A)) ==> Normalise(a) == a
  {
    NormaliseAppend(a + [0x20], b);
    NormaliseAppend(a, [0x20]);
    NormaliseAppend(a, b);
    assert [0x20][1..] == [];
    if 0x61 <= x <= 0x7A {
      NormaliseAppend(a + [x], b);
      NormaliseAppend(a, [x]);
      NormaliseAppend(a + [x - 0x20], b);
      NormaliseAppend(a, [x - 0x20]);
      SingleByte(x);
      SingleByte(x - 0x20);
    }
    PlainStays(a);
    SingleByte(0x20);
  }

  lemma SingleByte(x: byte)
    ensures Normalise([x]) == if x == 0x20 then [] else [UpperByte(x)]
  {
    var s := [x];
    assert s[1..] == [];
  }

  lemma {:induction false} PlainStays(a: Bytes)
    ensures 0x20 !in a && (forall i :: 0 <= i < |a| ==> !(0x61 <= a[i] <= 0x7A)) ==> Normalise(a) == a
    decreases |a|
  {
    if a != [] {
      PlainStays(a[1..]);
      assert a == [a[0]] + a[1..];
      assert a[0] in a && forall i :: 0 <= i < |a[1..]| ==> a[1..][i] == a[i + 1];
    }
  }

  /** The country code and check digits moved to the end. */
  function Rearrange(s: Bytes): Bytes
    requires |s| >= 4
  {
    s[4..] + s[..4]
  }

  /** A digit stands for itself, a letter for 10 to 35. */
  function Code(b: byte): nat
    requires IsDigitByte(b) || IsCapital(b)
  {
    if IsDigitByte(b) then b - 0x30 else b - 0x41 + 10
  }

  function Width(b: byte): nat {
    if IsDigitByte(b) then 10 else 100
  }

  /** The number an expanded string stands for, with letters written out in two digits. */
  function Number(s: Bytes): nat
    requires AllowedBytes(s)
  {
    if s == [] then 0 else Number(s[..|s| - 1]) * Width(s[|s| - 1]) + Code(s[|s| - 1])
  }

  predicate IsIban(s: Bytes) {
    && 15 <= |s| <= 34
    && AllowedBytes(Rearrange(s))
    && Number(Rearrange(s)) % 97 == 1
  }

  // ----- the digit string -----

  predicate Numeral(d: Bytes) {
    forall i :: 0 <= i < |d| ==> IsDigitByte(d[i])
  }

  function NumeralValue(d: Bytes): nat
    requires Numeral(d)
  {
    if d == [] then 0 else NumeralValue(d[..|d| - 1]) * 10 + (d[|d| - 1] - 0x30)
  }

  /** A code in decimal: one digit below ten, two from ten on. */
  function CodeDigits(b: byte): (d: Bytes)
    requires IsDigitByte(b) || IsCapital(b)
    ensures Numeral(d)
  {
    if IsDigitByte(b) then [b] else [0x30 + Code(b) / 10, 0x30 + Code(b) % 10]
  }

  lemma AppendDigits(d: Bytes, b: byte)
    requires Numeral(d) && (IsDigitByte(b) || IsCapital(b))
    ensures Numeral(d + CodeDigits(b))
    ensures NumeralValue(d + CodeDigits(b)) == NumeralValue(d) * Width(b) + Code(b)
  {
    if IsDigitByte(b) {
      assert (d + [b])[..|d|] == d;
    } else {
      var x, y := 0x30 + Code(b) / 10, 0x30 + Code(b) % 10;
      assert d + CodeDigits(b) == d + [x] + [y];
      assert (d + [x] + [y])[..|d| + 1] == d + [x] && (d + [x])[..|d|] == d;
    }
  }

  method IbanValid(text: Bytes) returns (ok: bool)
    ensures ok == IsIban(Normalise(text))
  {
    var s := Normalise(text);
    if |s| < 15 || |s| > 34 {
      return false;
    }
    var allowed, numeric := Expand(Rearrange(s));
    if !allowed {
      return false;
    }
    var remainder := Remainder(numeric);
    return remainder == 1;
  }

  /** Writes letters out as two digits; stops at the first other byte. */
  method Expand(rearranged: Bytes) returns (allowed: bool, numeric: Bytes)
    ensures allowed <==> AllowedBytes(rearranged)
    ensures allowed ==> Numeral(numeric) && NumeralValue(numeric) == Number(rearranged)
  {
    numeric := [];
    for i := 0 to |rearranged|
      invariant AllowedBytes(rearranged[..i]) && Numeral(numeric)
      invariant NumeralValue(numeric) == Number(rearranged[..i])
    {
      var r := rearranged[i];
      if !IsDigitByte(r) && !IsCapital(r) {
        return false, numeric;
      }
      AppendDigits(numeric, r);
      assert rearranged[..i + 1][..i] == rearranged[..i];
      numeric := numeric + CodeDigits(r);
    }
    assert rearranged[..|rearranged|] == rearranged;
    return true, numeric;
  }

  /** The remainder modulo 97, a digit at a time: the number itself is never formed. */
  method Remainder(numeric: Bytes) returns (remainder: nat)
    requires Numeral(numeric)
    ensures remainder == NumeralValue(numeric) % 97
  {
    remainder := 0;
    for i := 0 to |numeric|
      invariant remainder == NumeralValue(numeric[..i]) % 97
    {
      assert numeric[..i + 1][..i] == numeric[..i];
      Horner(NumeralValue(numeric[..i]), numeric[i] - 0x30);
      remainder := (remainder * 10 + (numeric[i] - 0x30)) % 97;
    }
    assert numeric[..|numeric|] == numeric;
  }

  lemma Horner(v: nat, d: nat)
    ensures (v % 97 * 10 + d) % 97 == (v * 10 + d) % 97
  {
    var q := v / 97;
    assert v * 10 + d == (v % 97 * 10 + d) + 97 * (10 * q);
  }

  // ----- error detection -----

  function Scale(s: Bytes): nat
    ensures Scale(s) > 0
  {
    if s == [] then 1 else Scale(s[..|s| - 1]) * Width(s[|s| - 1])
  }

  lemma {:induction false} NumberConcat(x: Bytes, y: Bytes)
    requires AllowedBytes(x) && AllowedBytes(y)
    ensures AllowedBytes(x + y) && Number(x + y) == Number(x) * Scale(y) + Number(y)
    decreases |y|
  {
    if y == [] {
      assert x + y == x;
    } else {
      var z, b := y[..|y| - 1], y[|y| - 1];
      assert (x + y)[..|x + y| - 1] == x + z;
      NumberConcat(x, z);
      Distribute(Number(x), Scale(z), Number(z), Width(b));
    }
  }

  lemma Distribute(x: nat, s: nat, z: nat, w: nat)
    ensures (x * s + z) * w == x * (s * w) + z * w
  {
  }

  /** 10 has an inverse modulo 97, so a power of ten never hides a difference. */
  lemma {:induction false} ScaleCancels(d: int, s: Bytes)
    requires d * Scale(s) % 97 == 0
    ensures d % 97 == 0
    decreases |s|
  {
    if s != [] {
      var e := d * Scale(s[..|s| - 1]);
      var w := Width(s[|s| - 1]);
      assert d * Scale(s) == e * w by {
        Regroup(d, Scale(s[..|s| - 1]), w);
      }
      if w == 10 {
        CancelTen(e);
      } else {
        assert e * 100 == e * 10 * 10;
        CancelTen(e * 10);
        CancelTen(e);
      }
      ScaleCancels(d, s[..|s| - 1]);
    }
  }

  lemma Regroup(d: int, s: nat, w: nat)
    ensures d * (s * w) == d * s * w
  {
  }

  lemma CancelTen(e: int)
    requires e * 10 % 97 == 0
    ensures e % 97 == 0
  {
    var q := e * 10 / 97;
    assert e == 97 * (68 * q - 7 * e);
  }

  lemma MiddleValue(x: Bytes, m: Bytes, y: Bytes, p: nat)
    requires AllowedBytes(x) && AllowedBytes(m) && AllowedBytes(y) && p == Number(x) * Scale(m)
    ensures AllowedBytes(x + m + y)
    ensures Number(x + m + y) == (p + Number(m)) * Scale(y) + Number(y)
  {
    NumberConcat(x, m);
    NumberConcat(x + m, y);
  }

  lemma Factor(p: nat, v: nat, v': nat, s: nat)
    ensures (p + v') * s - (p + v) * s == (v' - v) * s
  {
  }

  lemma MiddleDifference(x: Bytes, m: Bytes, m': Bytes, y: Bytes)
    requires AllowedBytes(x) && AllowedBytes(m) && AllowedBytes(m') && AllowedBytes(y)
    requires Scale(m) == Scale(m')
    ensures AllowedBytes(x + m + y) && AllowedBytes(x + m' + y)
    ensures Number(x + m' + y) - Number(x + m + y) == (Number(m') - Number(m)) * Scale(y)
  {
    var p := Number(x) * Scale(m);
    MiddleValue(x, m, y, p);
    MiddleValue(x, m', y, p);
    Factor(p, Number(m), Number(m'), Scale(y));
  }

  lemma ProductMultiple(d: int, s: nat)
    requires d % 97 == 0
    ensures d * s % 97 == 0
  {
    var q := d / 97;
    assert d * s == 97 * (q * s);
  }

  lemma Congruent(a: nat, b: nat)
    ensures a % 97 == b % 97 <==> (b - a) % 97 == 0
  {
    var p, q := a / 97, b / 97;
    assert b - a == 97 * (q - p) + (b % 97 - a % 97);
  }

  lemma ScaledResidue(a: nat, b: nat, d: int, y: Bytes)
    requires b - a == d * Scale(y)
    ensures a % 97 == b % 97 <==> d % 97 == 0
  {
    Congruent(a, b);
    if d * Scale(y) % 97 == 0 {
      ScaleCancels(d, y);
    }
    if d % 97 == 0 {
      ProductMultiple(d, Scale(y));
    }
  }

  /** Replacing a middle part by another of the same width keeps the residue only if the parts are congruent. */
  lemma MiddleChange(x: Bytes, m: Bytes, m': Bytes, y: Bytes)
    requires AllowedBytes(x) && AllowedBytes(m) && AllowedBytes(m') && AllowedBytes(y)
    requires Scale(m) == Scale(m')
    ensures AllowedBytes(x + m + y) && AllowedBytes(x + m' + y)
    ensures Number(x + m + y) % 97 == Number(x + m' + y) % 97 <==> (Number(m') - Number(m)) % 97 == 0
  {
    MiddleDifference(x, m, m', y);
    ScaledResidue(Number(x + m + y), Number(x + m' + y), Number(m') - Number(m), y);
  }

  /** Where offset `i` of an IBAN goes when it is rearranged. */
  function Place(n: nat, i: nat): (p: nat)
    requires 4 <= n && i < n
    ensures p < n
  {
    if i < 4 then n - 4 + i else i - 4
  }

  lemma RearrangeUpdate(s: Bytes, i: nat, b: byte)
    requires 4 <= |s| && i < |s|
    ensures Rearrange(s)[Place(|s|, i)] == s[i]
    ensures Rearrange(s[i := b]) == Rearrange(s)[Place(|s|, i) := b]
  {
  }

  lemma NumberOne(b: byte)
    requires IsDigitByte(b) || IsCapital(b)
    ensures AllowedBytes([b]) && Number([b]) == Code(b) && Scale([b]) == Width(b)
  {
    assert [b][..0] == [];
    assert Number([]) == 0 && Scale([]) == 1;
  }

  lemma SplitUpdate(r: Bytes, p: nat, b: byte)
    requires p < |r|
    ensures r == r[..p] + [r[p]] + r[p + 1..]
    ensures r[p := b] == r[..p] + [b] + r[p + 1..]
  {
  }

  /** Every change of one digit to another, or of one letter to another, is detected. */
  lemma DetectsSubstitution(s: Bytes, i: nat, b: byte)
    requires IsIban(s) && i < |s| && b != s[i]
    requires (IsDigitByte(b) && IsDigitByte(s[i])) || (IsCapital(b) && IsCapital(s[i]))
    ensures !IsIban(s[i := b])
  {
    var r, p := Rearrange(s), Place(|s|, i);
    RearrangeUpdate(s, i, b);
    SplitUpdate(r, p, b);
    NumberOne(s[i]);
    NumberOne(b);
    MiddleChange(r[..p], [s[i]], [b], r[p + 1..]);
  }

  /** The letter whose two digits are the digit twice: 1 and B, 2 and M, 3 and X read the same both ways round. */
  predicate Palindromic(a: byte, b: byte) {
    (IsDigitByte(a) && IsCapital(b) && 11 * Code(a) == Code(b))
    || (IsCapital(a) && IsDigitByte(b) && 11 * Code(b) == Code(a))
  }

  lemma NumberTwo(a: byte, b: byte)
    requires (IsDigitByte(a) || IsCapital(a)) && (IsDigitByte(b) || IsCapital(b))
    ensures AllowedBytes([a, b]) && Number([a, b]) == Code(a) * Width(b) + Code(b) && Scale([a, b]) == Width(a) * Width(b)
  {
    NumberOne(a);
    assert [a, b][..1] == [a];
  }

  lemma SplitSwap(r: Bytes, p: nat)
    requires p + 1 < |r|
    ensures r == r[..p] + [r[p], r[p + 1]] + r[p + 2..]
    ensures r[p := r[p + 1]][p + 1 := r[p]] == r[..p] + [r[p + 1], r[p]] + r[p + 2..]
  {
  }

  lemma RearrangeSwap(s: Bytes, i: nat)
    requires 4 <= |s| && i + 1 < |s| && i != 3
    ensures var r, p := Rearrange(s), Place(|s|, i);
            && p + 1 < |s| && r[p] == s[i] && r[p + 1] == s[i + 1]
            && Rearrange(s[i := s[i + 1]][i + 1 := s[i]]) == r[p := r[p + 1]][p + 1 := r[p]]
  {
    RearrangeUpdate(s, i, s[i + 1]);
    RearrangeUpdate(s, i + 1, s[i]);
    RearrangeUpdate(s[i := s[i + 1]], i + 1, s[i]);
  }

  /** Swapping two neighbours that stay neighbours when rearranged is missed exactly when their expansions read
      the same both ways round. */
  lemma DetectsInnerSwap(s: Bytes, i: nat)
    requires IsIban(s) && i + 1 < |s| && i != 3 && s[i] != s[i + 1]
    ensures IsIban(Swapped(s, i)) <==> Palindromic(s[i], s[i + 1])
  {
    var a, b := s[i], s[i + 1];
    var r, p := Rearrange(s), Place(|s|, i);
    RearrangeSwap(s, i);
    SplitSwap(r, p);
    NumberTwo(a, b);
    NumberTwo(b, a);
    MiddleChange(r[..p], [a, b], [b, a], r[p + 2..]);
    SwapResidue(a, b);
  }

  function Swapped(s: Bytes, i: nat): Bytes
    requires i + 1 < |s|
  {
    s[i := s[i + 1]][i + 1 := s[i]]
  }

  // ----- the swap that rearranging takes apart -----

  /** What lies between the fourth and the fifth byte once the string is rearranged. */
  function Between(s: Bytes): Bytes
    requires |s| >= 5
  {
    s[5..] + s[..3]
  }

  /** How far the number moves when the digit `d` and the letter `l` around `m` change places. */
  function Slip(d: byte, l: byte, m: Bytes): int
    requires IsDigitByte(d) && IsCapital(l) && AllowedBytes(m)
  {
    Scale(m) * (100 * Code(d) - 10 * Code(l)) + 90 * Number(m) + Code(l) - Code(d)
  }

  lemma RearrangeEnds(s: Bytes)
    requires |s| >= 5
    ensures Rearrange(s) == [s[4]] + Between(s) + [s[3]]
    ensures Rearrange(Swapped(s, 3)) == [s[3]] + Between(s) + [s[4]]
  {
  }

  lemma AllowedBetween(s: Bytes)
    requires |s| >= 5 && AllowedBytes(Rearrange(s))
    ensures AllowedBytes([s[4]]) && AllowedBytes(Between(s)) && AllowedBytes([s[3]])
  {
    RearrangeEnds(s);
    var r := Rearrange(s);
    assert forall i :: 0 <= i < |Between(s)| ==> Between(s)[i] == r[i + 1];
    assert r[0] == s[4] && r[|r| - 1] == s[3];
  }

  lemma EndsValue(a: byte, m: Bytes, b: byte)
    requires (IsDigitByte(a) || IsCapital(a)) && AllowedBytes(m) && (IsDigitByte(b) || IsCapital(b))
    ensures AllowedBytes([a] + m + [b])
    ensures Number([a] + m + [b]) == (Code(a) * Scale(m) + Number(m)) * Width(b) + Code(b)
  {
    NumberOne(a);
    NumberOne(b);
    MiddleValue([a], m, [b], Code(a) * Scale(m));
  }

  /** The decimal digits of an expansion. */
  function Digits(s: Bytes): (n: nat)
    ensures |s| <= n <= 2 * |s|
  {
    if s == [] then 0 else Digits(s[..|s| - 1]) + if IsDigitByte(s[|s| - 1]) then 1 else 2
  }

  /** Powers of ten modulo 97. */
  function TenTo(k: nat): nat {
    if k == 0 then 1 else TenTo(k - 1) * 10 % 97
  }

  lemma {:induction false} ScaleResidue(s: Bytes)
    ensures Scale(s) % 97 == TenTo(Digits(s))
    decreases |s|
  {
    if s != [] {
      var t := s[..|s| - 1];
      ScaleResidue(t);
      Horner(Scale(t), 0);
      Horner(Scale(t) * 10, 0);
      if !IsDigitByte(s[|s| - 1]) {
        assert TenTo(Digits(t) + 2) == TenTo(Digits(t) + 1) * 10 % 97;
      }
    }
  }

  /** None of the `n` powers after the `z`-th is congruent to 1. */
  predicate NoneIsOne(z: nat, n: nat) {
    n == 0 || (TenTo(z + n) != 1 && NoneIsOne(z, n - 1))
  }

  lemma Remainder97(x: nat, q: nat, d: nat)
    requires x == 97 * q + d && d < 97
    ensures x % 97 == d
  {
  }

  /** One step of the long division of 1 by 97: `q` is the next decimal, and the remainder is the next power. */
  lemma Divide(z: nat, n: nat, c: nat, q: nat) returns (next: nat, d: nat)
    requires NoneIsOne(z, n) && TenTo(z + n) == c
    requires 0 <= 10 * c - 97 * q < 97 && 10 * c - 97 * q != 1
    ensures next == n + 1 && d == 10 * c - 97 * q && NoneIsOne(z, next) && TenTo(z + next) == d
  {
    next, d := n + 1, 10 * c - 97 * q;
    Remainder97(10 * c, q, d);
  }

  /** The decimals of 1/97 = 0.0103 0927 8350 5154 6391 ... */
  lemma FirstDecimals(z: nat, start: nat) returns (n: nat, c: nat)
    requires TenTo(z) == 1 && start == 0
    ensures n == 36 && c == 64 && NoneIsOne(z, n) && TenTo(z + n) == c
  {
    n, c := start, 1;
    n, c := Divide(z, n, c, 0); n, c := Divide(z, n, c, 1); n, c := Divide(z, n, c, 0); n, c := Divide(z, n, c, 3);
    n, c := Divide(z, n, c, 0); n, c := Divide(z, n, c, 9); n, c := Divide(z, n, c, 2); n, c := Divide(z, n, c, 7);
    n, c := Divide(z, n, c, 8); n, c := Divide(z, n, c, 3); n, c := Divide(z, n, c, 5); n, c := Divide(z, n, c, 0);
    n, c := Divide(z, n, c, 5); n, c := Divide(z, n, c, 1); n, c := Divide(z, n, c, 5); n, c := Divide(z, n, c, 4);
    n, c := Divide(z, n, c, 6); n, c := Divide(z, n, c, 3); n, c := Divide(z, n, c, 9); n, c := Divide(z, n, c, 1);
    n, c := Divide(z, n, c, 7); n, c := Divide(z, n, c, 5); n, c := Divide(z, n, c, 2); n, c := Divide(z, n, c, 5);
    n, c := Divide(z, n, c, 7); n, c := Divide(z, n, c, 7); n, c := Divide(z, n, c, 3); n, c := Divide(z, n, c, 1);
    n, c := Divide(z, n, c, 9); n, c := Divide(z, n, c, 5); n, c := Divide(z, n, c, 8); n, c := Divide(z, n, c, 7);
    n, c := Divide(z, n, c, 6); n, c := Divide(z, n, c, 2); n, c := Divide(z, n, c, 8); n, c := Divide(z, n, c, 8);
  }

  /** As far as two digits for each byte of the longest identifier. */
  lemma MoreDecimals(z: nat, start: nat) returns (n: nat, c: nat)
    requires start == 36 && NoneIsOne(z, start) && TenTo(z + start) == 64
    ensures n == 68 && NoneIsOne(z, n)
  {
    n, c := start, 64;
    n, c := Divide(z, n, c, 6); n, c := Divide(z, n, c, 5); n, c := Divide(z, n, c, 9); n, c := Divide(z, n, c, 7);
    n, c := Divide(z, n, c, 9); n, c := Divide(z, n, c, 3); n, c := Divide(z, n, c, 8); n, c := Divide(z, n, c, 1);
    n, c := Divide(z, n, c, 4); n, c := Divide(z, n, c, 4); n, c := Divide(z, n, c, 3); n, c := Divide(z, n, c, 2);
    n, c := Divide(z, n, c, 9); n, c := Divide(z, n, c, 8); n, c := Divide(z, n, c, 9); n, c := Divide(z, n, c, 6);
    n, c := Divide(z, n, c, 9); n, c := Divide(z, n, c, 0); n, c := Divide(z, n, c, 7); n, c := Divide(z, n, c, 2);
    n, c := Divide(z, n, c, 1); n, c := Divide(z, n, c, 6); n, c := Divide(z, n, c, 4); n, c := Divide(z, n, c, 9);
    n, c := Divide(z, n, c, 4); n, c := Divide(z, n, c, 8); n, c := Divide(z, n, c, 4); n, c := Divide(z, n, c, 5);
    n, c := Divide(z, n, c, 3); n, c := Divide(z, n, c, 6); n, c := Divide(z, n, c, 0); n, c := Divide(z, n, c, 8);
  }

  lemma {:induction false} NoneIsOneAt(z: nat, n: nat, k: nat)
    requires NoneIsOne(z, n) && 0 < k <= n
    ensures TenTo(z + k) != 1
  {
    if k < n {
      NoneIsOneAt(z, n - 1, k);
    }
  }

  /** No power of ten up to the 68th is congruent to 1 modulo 97. */
  lemma OrderOfTen(k: nat)
    requires 0 < k <= 68
    ensures TenTo(k) != 1
  {
    var n, c := FirstDecimals(0, 0);
    n, c := MoreDecimals(0, n);
    NoneIsOneAt(0, n, k);
  }

  predicate NoneDivides(n: nat) {
    n <= 1 || (97 % n != 0 && NoneDivides(n - 1))
  }

  lemma FourMore(n: nat)
    requires n >= 1 && NoneDivides(n)
    requires 97 % (n + 1) != 0 && 97 % (n + 2) != 0 && 97 % (n + 3) != 0 && 97 % (n + 4) != 0
    ensures NoneDivides(n + 4)
  {
    assert NoneDivides(n + 1);
    assert NoneDivides(n + 2);
    assert NoneDivides(n + 3);
  }

  lemma NoneDividesSmall()
    ensures NoneDivides(37)
  {
    FourMore(1);
    FourMore(5);
    FourMore(9);
    FourMore(13);
    FourMore(17);
    FourMore(21);
    FourMore(25);
    FourMore(29);
    FourMore(33);
  }

  lemma {:induction false} NoneDividesAt(n: nat, d: nat)
    requires NoneDivides(n) && 1 < d <= n
    ensures 97 % d != 0
  {
    if d < n {
      NoneDividesAt(n - 1, d);
    }
  }

  lemma MultipleOf97(x: int, y: int)
    requires x == 97 * y
    ensures x % 97 == 0
  {
  }

  lemma ReducedFactor(d: nat, e: int)
    requires d > 0 && d * e % 97 == 0
    ensures 97 % d * e % 97 == 0
  {
    var q, t := 97 / d, d * e / 97;
    Remains(d, e, q, 97 % d, t);
    MultipleOf97(97 % d * e, e - q * t);
  }

  lemma Remains(d: int, e: int, q: int, r: int, t: int)
    requires 97 == q * d + r && d * e == 97 * t
    ensures r * e == 97 * (e - q * t)
  {
    assert r * e == (97 - q * d) * e == 97 * e - q * (d * e);
  }

  /** 97 is prime: it divides no product of a small factor and one it does not divide. */
  lemma {:induction false} PrimeFactor(d: nat, e: int)
    requires 0 < d <= 35 && d * e % 97 == 0
    ensures e % 97 == 0
    decreases d
  {
    if d > 1 {
      NoneDividesSmall();
      NoneDividesAt(37, d);
      ReducedFactor(d, e);
      PrimeFactor(97 % d, e);
    }
  }

  lemma SameWidthDifference(ca: int, cb: int, s: int, m: int, w: int)
    ensures (cb * s + m) * w + ca - ((ca * s + m) * w + cb) == (cb - ca) * (s * w - 1)
  {
    assert cb * s * w - ca * s * w == (cb - ca) * (s * w);
  }

  lemma SameWidthSwap(a: byte, m: Bytes, b: byte)
    requires AllowedBytes([a]) && AllowedBytes(m) && AllowedBytes([b]) && a != b && Width(a) == Width(b)
    requires Digits(m) + 2 <= 68
    ensures AllowedBytes([a] + m + [b]) && AllowedBytes([b] + m + [a])
    ensures Number([a] + m + [b]) % 97 != Number([b] + m + [a]) % 97
  {
    EndsValue(a, m, b);
    EndsValue(b, m, a);
    assert [a][0] == a && [b][0] == b;
    var ca: int, cb: int, w := Code(a), Code(b), Width(a);
    SameWidthDifference(ca, cb, Scale(m), Number(m), w);
    Congruent(Number([a] + m + [b]), Number([b] + m + [a]));
    var e := Scale(m) * w - 1;
    if (cb - ca) * e % 97 == 0 {
      NotCongruentToOne(m, w);
      if cb > ca {
        PrimeFactor(cb - ca, e);
      } else {
        Negated(cb - ca, e);
        PrimeFactor(ca - cb, e);
      }
      assert false;
    }
  }

  lemma Negated(d: int, e: int)
    requires d * e % 97 == 0
    ensures (-d) * e % 97 == 0
  {
    var q := d * e / 97;
    assert (-d) * e == -(d * e) == 97 * (-q);
  }

  lemma NotCongruentToOne(m: Bytes, w: nat)
    requires Digits(m) + 2 <= 68 && (w == 10 || w == 100)
    ensures (Scale(m) * w - 1) % 97 != 0
  {
    ScaleResidue(m);
    Horner(Scale(m), 0);
    Horner(Scale(m) * 10, 0);
    var k := Digits(m);
    assert TenTo(k + 2) == TenTo(k + 1) * 10 % 97;
    OrderOfTen(k + 1);
    OrderOfTen(k + 2);
    assert Scale(m) * 100 == Scale(m) * 10 * 10;
    OneLess(Scale(m) * w);
  }

  lemma OneLess(x: nat)
    requires x % 97 != 1
    ensures (x - 1) % 97 != 0
  {
    Congruent(1, x);
  }

  lemma MixedDifference(cd: int, cl: int, s: int, m: int)
    ensures (cd * s + m) * 100 + cl - ((cl * s + m) * 10 + cd) == s * (100 * cd - 10 * cl) + 90 * m + cl - cd
  {
  }

  lemma MixedSwap(d: byte, m: Bytes, l: byte)
    requires IsDigitByte(d) && IsCapital(l) && AllowedBytes(m)
    ensures AllowedBytes([l] + m + [d]) && AllowedBytes([d] + m + [l])
    ensures Number([l] + m + [d]) % 97 == Number([d] + m + [l]) % 97 <==> Slip(d, l, m) % 97 == 0
  {
    EndsValue(l, m, d);
    EndsValue(d, m, l);
    MixedDifference(Code(d), Code(l), Scale(m), Number(m));
    Congruent(Number([l] + m + [d]), Number([d] + m + [l]));
  }

  /** The fourth and fifth byte end up at the two ends. Two digits or two letters are never confused; a digit
      and a letter are exactly when the number slips by a multiple of 97. */
  predicate ConfusedAcross(s: Bytes)
    requires |s| >= 5 && AllowedBytes(Between(s))
  {
    var a, b := s[3], s[4];
    if IsDigitByte(a) && IsCapital(b) then Slip(a, b, Between(s)) % 97 == 0
    else if IsCapital(a) && IsDigitByte(b) then Slip(b, a, Between(s)) % 97 == 0
    else false
  }

  lemma DetectsOuterSwap(s: Bytes)
    requires IsIban(s) && s[3] != s[4]
    ensures AllowedBytes(Between(s))
    ensures IsIban(Swapped(s, 3)) <==> ConfusedAcross(s)
  {
    RearrangeEnds(s);
    AllowedBetween(s);
    var a, b := s[3], s[4];
    assert [a][0] == a && [b][0] == b;
    if IsDigitByte(a) && IsCapital(b) {
      MixedSwap(a, Between(s), b);
    } else if IsCapital(a) && IsDigitByte(b) {
      MixedSwap(b, Between(s), a);
    } else {
      SameWidthSwap(b, Between(s), a);
    }
  }

  /** When swapping the neighbours at `i` leaves the check satisfied. */
  predicate Confusable(s: Bytes, i: nat)
    requires IsIban(s) && i + 1 < |s|
  {
    if i != 3 then Palindromic(s[i], s[i + 1])
    else
      AllowedBetween(s);
      ConfusedAcross(s)
  }

  /** Every swap of two different neighbours is detected unless they are confusable, and no others are. */
  lemma DetectsTransposition(s: Bytes, i: nat)
    requires IsIban(s) && i + 1 < |s| && s[i] != s[i + 1]
    ensures IsIban(Swapped(s, i)) <==> Confusable(s, i)
  {
    if i == 3 {
      DetectsOuterSwap(s);
    } else {
      DetectsInnerSwap(s, i);
    }
  }

  /** 9 has an inverse modulo 97. */
  lemma CancelNine(z: int)
    requires -97 < z < 97
    ensures 9 * z % 97 == 0 <==> z == 0
  {
    if 9 * z % 97 == 0 {
      var q := 9 * z / 97;
      assert z == 97 * (54 * q - 5 * z);
    }
  }

  lemma LetterSwap(x: int, y: int)
    requires 10 <= x <= 35 && 10 <= y <= 35
    ensures (y * 100 + x - (x * 100 + y)) % 97 == 0 <==> x == y
  {
    var z := 2 * (y - x);
    assert y * 100 + x - (x * 100 + y) == 97 * (y - x) + z;
  }

  lemma SwapResidue(a: byte, b: byte)
    requires (IsDigitByte(a) || IsCapital(a)) && (IsDigitByte(b) || IsCapital(b)) && a != b
    ensures (Code(b) * Width(a) + Code(a) - (Code(a) * Width(b) + Code(b))) % 97 == 0 <==> Palindromic(a, b)
  {
    var x: int, y: int := Code(a), Code(b);
    if IsDigitByte(a) && IsDigitByte(b) {
      CancelNine(y - x);
    } else if IsCapital(a) && IsCapital(b) {
      LetterSwap(x, y);
    } else if IsDigitByte(a) {
      CancelNine(y - 11 * x);
    } else {
      CancelNine(11 * y - x);
    }
  }

  // ----- a swap that is missed -----

  /** One byte more of a number's residue: `q` is what the carry loses. */
  lemma Prefix97(r: Bytes, k: nat, v: nat, q: nat) returns (next: nat, w: nat)
    requires AllowedBytes(r) && k < |r| && Number(r[..k]) % 97 == v
    requires 0 <= v * Width(r[k]) + Code(r[k]) - 97 * q < 97
    ensures next == k + 1 && Number(r[..next]) % 97 == w == v * Width(r[k]) + Code(r[k]) - 97 * q
  {
    next, w := k + 1, v * Width(r[k]) + Code(r[k]) - 97 * q;
    assert r[..k + 1][..k] == r[..k];
    Carry97(Number(r[..k]), Width(r[k]), Code(r[k]));
    Remainder97(v * Width(r[k]) + Code(r[k]), q, w);
  }

  lemma Carry97(x: nat, w: nat, c: nat)
    ensures (x * w + c) % 97 == (x % 97 * w + c) % 97
  {
    var q := x / 97;
    Congruent(x % 97 * w + c, x * w + c);
    Regroup(97, q, w);
    Shifted(x, w, c, q, x % 97);
    MultipleOf97(x * w + c - (x % 97 * w + c), q * w);
  }

  lemma Shifted(x: int, w: int, c: int, q: int, v: int)
    requires x == 97 * q + v
    ensures x * w + c - (v * w + c) == 97 * (q * w)
  {
  }

  lemma BeforeStart(r: Bytes, start: nat) returns (k: nat, v: nat)
    requires |r| == 15 && AllowedBytes(r) && start == 0 && Number(r[..start]) % 97 == 0
    requires r[0] == 0x44 && r[1] == 0x35 && r[2] == 0x39 && r[3] == 0x38 && r[4] == 0x38
    ensures k == 5 && v == 91 && Number(r[..k]) % 97 == v
  {
    k, v := start, 0;
    k, v := Prefix97(r, k, v, 0);
    k, v := Prefix97(r, k, v, 1);
    k, v := Prefix97(r, k, v, 4);
    k, v := Prefix97(r, k, v, 0);
    k, v := Prefix97(r, k, v, 1);
  }

  lemma BeforeMiddle(r: Bytes, start: nat) returns (k: nat, v: nat)
    requires |r| == 15 && AllowedBytes(r) && start == 5 && Number(r[..start]) % 97 == 91
    requires r[5] == 0x31 && r[6] == 0x37 && r[7] == 0x38 && r[8] == 0x35 && r[9] == 0x30
    ensures k == 10 && v == 44 && Number(r[..k]) % 97 == v
  {
    k, v := start, 91;
    k, v := Prefix97(r, k, v, 9);
    k, v := Prefix97(r, k, v, 3);
    k, v := Prefix97(r, k, v, 9);
    k, v := Prefix97(r, k, v, 9);
    k, v := Prefix97(r, k, v, 8);
  }

  lemma BeforeEnd(r: Bytes, start: nat) returns (k: nat, v: nat)
    requires |r| == 15 && AllowedBytes(r) && start == 10 && Number(r[..start]) % 97 == 44
    requires r[10] == 0x34 && r[11] == 0x4E && r[12] == 0x4F && r[13] == 0x35 && r[14] == 0x33
    ensures k == 15 && v == 1 && Number(r[..k]) % 97 == v
  {
    k, v := start, 44;
    k, v := Prefix97(r, k, v, 4);
    k, v := Prefix97(r, k, v, 57);
    k, v := Prefix97(r, k, v, 97);
    k, v := Prefix97(r, k, v, 1);
    k, v := Prefix97(r, k, v, 6);
  }

  lemma Before(r: Bytes)
    requires r == [0x44, 0x35, 0x39, 0x38, 0x38, 0x31, 0x37, 0x38, 0x35, 0x30, 0x34, 0x4E, 0x4F, 0x35, 0x33]
    ensures AllowedBytes(r) && Number(r) % 97 == 1
  {
    assert r[..0] == [];
    var k, v := BeforeStart(r, 0);
    k, v := BeforeMiddle(r, k);
    k, v := BeforeEnd(r, k);
    assert r[..k] == r;
  }

  lemma AfterStart(r: Bytes, start: nat) returns (k: nat, v: nat)
    requires |r| == 15 && AllowedBytes(r) && start == 0 && Number(r[..start]) % 97 == 0
    requires r[0] == 0x33 && r[1] == 0x35 && r[2] == 0x39 && r[3] == 0x38 && r[4] == 0x38
    ensures k == 5 && v == 1 && Number(r[..k]) % 97 == v
  {
    k, v := start, 0;
    k, v := Prefix97(r, k, v, 0);
    k, v := Prefix97(r, k, v, 0);
    k, v := Prefix97(r, k, v, 3);
    k, v := Prefix97(r, k, v, 7);
    k, v := Prefix97(r, k, v, 1);
  }

  lemma AfterMiddle(r: Bytes, start: nat) returns (k: nat, v: nat)
    requires |r| == 15 && AllowedBytes(r) && start == 5 && Number(r[..start]) % 97 == 1
    requires r[5] == 0x31 && r[6] == 0x37 && r[7] == 0x38 && r[8] == 0x35 && r[9] == 0x30
    ensures k == 10 && v == 92 && Number(r[..k]) % 97 == v
  {
    k, v := start, 1;
    k, v := Prefix97(r, k, v, 0);
    k, v := Prefix97(r, k, v, 1);
    k, v := Prefix97(r, k, v, 2);
    k, v := Prefix97(r, k, v, 1);
    k, v := Prefix97(r, k, v, 4);
  }

  lemma AfterEnd(r: Bytes, start: nat) returns (k: nat, v: nat)
    requires |r| == 15 && AllowedBytes(r) && start == 10 && Number(r[..start]) % 97 == 92
    requires r[10] == 0x34 && r[11] == 0x4E && r[12] == 0x4F && r[13] == 0x35 && r[14] == 0x44
    ensures k == 15 && v == 1 && Number(r[..k]) % 97 == v
  {
    k, v := start, 92;
    k, v := Prefix97(r, k, v, 9);
    k, v := Prefix97(r, k, v, 52);
    k, v := Prefix97(r, k, v, 81);
    k, v := Prefix97(r, k, v, 6);
    k, v := Prefix97(r, k, v, 96);
  }

  lemma After(r: Bytes)
    requires r == [0x33, 0x35, 0x39, 0x38, 0x38, 0x31, 0x37, 0x38, 0x35, 0x30, 0x34, 0x4E, 0x4F, 0x35, 0x44]
    ensures AllowedBytes(r) && Number(r) % 97 == 1
  {
    assert r[..0] == [];
    var k, v := AfterStart(r, 0);
    k, v := AfterMiddle(r, k);
    k, v := AfterEnd(r, k);
    assert r[..k] == r;
  }

  lemma Rearranged(s: Bytes)
    requires s == [0x4E, 0x4F, 0x35, 0x33, 0x44, 0x35, 0x39, 0x38, 0x38, 0x31, 0x37, 0x38, 0x35, 0x30, 0x34]
    ensures Rearrange(s) == [0x44, 0x35, 0x39, 0x38, 0x38, 0x31, 0x37, 0x38, 0x35, 0x30, 0x34, 0x4E, 0x4F, 0x35, 0x33]
    ensures Rearrange(Swapped(s, 3)) == [0x33, 0x35, 0x39, 0x38, 0x38, 0x31, 0x37, 0x38, 0x35, 0x30, 0x34, 0x4E, 0x4F, 0x35, 0x44]
  {
  }

  /** NO53D5988178504 and NO5D35988178504 are both valid, though 3 and D do not read alike both ways round. */
  lemma MissedAcross(s: Bytes)
    requires s == [0x4E, 0x4F, 0x35, 0x33, 0x44, 0x35, 0x39, 0x38, 0x38, 0x31, 0x37, 0x38, 0x35, 0x30, 0x34]
    ensures IsIban(s) && IsIban(Swapped(s, 3)) && !Palindromic(s[3], s[4])
  {
    Rearranged(s);
    Before(Rearrange(s));
    After(Rearrange(Swapped(s, 3)));
  }
}
