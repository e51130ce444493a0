/** Byte strings, as Go's `string` and `[]byte` hold them, and the searches the
    source makes on them. */
module ByteStrings {

  type byte = b: int | 0 <= b < 0x100

  type Bytes = seq<byte>

  /** Whether `pat` occurs in `s` at offset `i`. */
  predicate OccursAt(s: Bytes, pat: Bytes, i: nat) {
    i + |pat| <= |s| && s[i..i + |pat|] == pat
  }

  predicate Occurs(s: Bytes, pat: Bytes) {
    exists i :: 0 <= i <= |s| && OccursAt(s, pat, i)
  }

  /** First offset of `pat` in `s`, or -1 (Go's `strings.Index`). */
  function Index(s: Bytes, pat: Bytes): (i: int)
    ensures -1 <= i <= |s|
    ensures i >= 0 ==> OccursAt(s, pat, i) && forall j :: 0 <= j < i ==> !OccursAt(s, pat, j)
    ensures i == -1 <==> !Occurs(s, pat)
  {
    IndexFrom(s, pat, 0)
  }

  function IndexFrom(s: Bytes, pat: Bytes, from: nat): (i: int)
    requires from <= |s|
    ensures i == -1 || from <= i <= |s|
    ensures i >= 0 ==> OccursAt(s, pat, i) && forall j :: from <= j < i ==> !OccursAt(s, pat, j)
    ensures i == -1 ==> forall j :: from <= j <= |s| ==> !OccursAt(s, pat, j)
    decreases |s| - from
  {
    if OccursAt(s, pat, from) then from
    else if from == |s| then -1
    else IndexFrom(s, pat, from + 1)
  }
}
