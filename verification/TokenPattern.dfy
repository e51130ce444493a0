/** The vault token pattern: an opening bracket, a label of capitals and
    underscores, a colon, three decimal digits and a closing bracket. */
module TokenPattern {
  import opened ByteStrings

  // U+27E6 and U+27E7 in UTF-8; they differ in the last byte only.
  const OPEN: Bytes := [0xE2, 0x9F, 0xA6]
  const CLOSE: Bytes := [0xE2, 0x9F, 0xA7]
  const COLON: byte := 0x3A

  /** The hold-back buffer's give-up threshold. */
  const MAX_TOKEN_BYTES := 64

  predicate IsLabelByte(b: byte) {
    0x41 <= b <= 0x5A || b == 0x5F
  }

  predicate IsDigit(b: byte) {
    0x30 <= b <= 0x39
  }

  predicate IsLabel(s: Bytes) {
    |s| > 0 && forall i :: 0 <= i < |s| ==> IsLabelByte(s[i])
  }

  predicate IsNumber(s: Bytes) {
    |s| == 3 && forall i :: 0 <= i < |s| ==> IsDigit(s[i])
  }

  function TokenText(kind: Bytes, number: Bytes): Bytes {
    OPEN + kind + [COLON] + number + CLOSE
  }

  /** `t` as a whole matches the pattern. */
  ghost predicate IsToken(t: Bytes) {
    exists kind, number :: IsLabel(kind) && IsNumber(number) && t == TokenText(kind, number)
  }

  /** Length of the longest prefix of `s` made of label bytes. */
  function LabelRun(s: Bytes): (n: nat)
    ensures n <= |s|
    ensures forall i :: 0 <= i < n ==> IsLabelByte(s[i])
    ensures n < |s| ==> !IsLabelByte(s[n])
  {
    if s == [] || !IsLabelByte(s[0]) then 0 else 1 + LabelRun(s[1..])
  }

  /** Length of the pattern's match at the start of `s`, or 0 when there is none. */
  function TokenLen(s: Bytes): (n: nat)
    ensures n <= |s|
    ensures n > 0 ==> IsToken(s[..n])
  {
    if !(OPEN <= s) then 0
    else
      var k := LabelRun(s[3..]);
      var t := s[3 + k..];
      if k > 0 && |t| >= 7 && t[0] == COLON && IsNumber(t[1..4]) && t[4..7] == CLOSE then
        assert s[..k + 10] == TokenText(s[3..3 + k], t[1..4]) by {
          assert s[..k + 10] == s[..3] + s[3..3 + k] + t[..1] + t[1..4] + t[4..7];
        }
        k + 10
      else 0
  }

  /** The shape every token has: the lead byte 0xE2 only where a bracket begins. */
  lemma TokenShape(t: Bytes)
    requires IsToken(t)
    ensures |t| >= 11
    ensures OPEN <= t && t[|t| - 3..] == CLOSE
    ensures forall i :: 0 <= i < |t| && t[i] == 0xE2 ==> i == 0 || i == |t| - 3
  {
    var kind, number :| IsLabel(kind) && IsNumber(number) && t == TokenText(kind, number);
    assert t[3..3 + |kind|] == kind;
    assert t[|t| - 6..|t| - 3] == number;
    forall i | 0 <= i < |t|
      ensures t[i] == 0xE2 ==> i == 0 || i == |t| - 3
    {
      assert 3 <= i < 3 + |kind| ==> t[i] == kind[i - 3];
      assert |t| - 6 <= i < |t| - 3 ==> t[i] == number[i - (|t| - 6)];
    }
  }

  lemma LabelRunIs(s: Bytes, k: nat)
    requires k < |s| && (forall i :: 0 <= i < k ==> IsLabelByte(s[i])) && !IsLabelByte(s[k])
    ensures LabelRun(s) == k
  {
  }

  /** The pattern matches at the start of `s` exactly when some prefix is a token, and then there is one
      such prefix only: a match is decided by the bytes it covers. */
  lemma TokenLenIsMatch(s: Bytes, n: nat)
    requires n <= |s| && IsToken(s[..n])
    ensures TokenLen(s) == n
  {
    var kind, number :| IsLabel(kind) && IsNumber(number) && s[..n] == TokenText(kind, number);
    var k := |kind|;
    TokenTextParts(s, n, kind, number);
    LabelRunIs(s[3..], k);
    var t := s[3 + k..];
    assert t[0] == COLON && t[1..4] == number && t[4..7] == CLOSE;
  }

  lemma TokenTextParts(s: Bytes, n: nat, kind: Bytes, number: Bytes)
    requires n <= |s| && IsLabel(kind) && IsNumber(number) && s[..n] == TokenText(kind, number)
    ensures n == |kind| + 10 && OPEN <= s
    ensures forall i :: 0 <= i < |kind| ==> s[3..][i] == kind[i]
    ensures s[3..][|kind|] == COLON
    ensures s[4 + |kind|..7 + |kind|] == number && s[7 + |kind|..10 + |kind|] == CLOSE
  {
    var t := s[..n];
    var k := |kind|;
    assert t[..3] == OPEN && t[3..3 + k] == kind && t[4 + k..7 + k] == number && t[7 + k..10 + k] == CLOSE;
    assert s[..3] == t[..3];
    assert forall i :: 0 <= i < k ==> s[3..][i] == t[3..3 + k][i];
    assert s[3..][k] == t[3 + k];
    assert s[4 + k..7 + k] == t[4 + k..7 + k] && s[7 + k..10 + k] == t[7 + k..10 + k];
  }
}
