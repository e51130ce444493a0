/** Whole-text token resolution, and the offsets at which it may be cut. */
module Resolve {
  import opened ByteStrings
  import opened TokenPattern

  /** The vault's token-to-value table. */
  type Restore = map<Bytes, Bytes>

  function Replace(m: Restore, token: Bytes): Bytes {
    if token in m then m[token] else token
  }

  /** Replaces every leftmost, non-overlapping match of the token pattern. */
  function ResolveAll(m: Restore, s: Bytes): Bytes
    decreases |s|
  {
    var n := TokenLen(s);
    if s == [] then []
    else if n > 0 then Replace(m, s[..n]) + ResolveAll(m, s[n..])
    else [s[0]] + ResolveAll(m, s[1..])
  }

  /** No token of `a + b` begins in `a` and ends in `b`. */
  ghost predicate Separable(a: Bytes, b: Bytes) {
    forall i :: 0 <= i < |a| ==> TokenLen((a + b)[i..]) <= |a| - i
  }

  lemma DropTwice(s: Bytes, n: nat, i: nat)
    requires n + i <= |s|
    ensures s[n..][i..] == s[n + i..]
  {
  }

  lemma DropLeft(a: Bytes, b: Bytes, n: nat)
    requires n <= |a|
    ensures (a + b)[n..] == a[n..] + b
  {
  }

  lemma SeparableSuffix(a: Bytes, b: Bytes, n: nat)
    requires Separable(a, b) && n <= |a|
    ensures Separable(a[n..], b)
    ensures (a + b)[n..] == a[n..] + b
  {
    DropLeft(a, b, n);
    forall i | 0 <= i < |a[n..]|
      ensures TokenLen((a[n..] + b)[i..]) <= |a[n..]| - i
    {
      DropTwice(a + b, n, i);
    }
  }

  /** A match that fits in `a` is the same match with anything after it. */
  lemma TokenLenExtends(a: Bytes, b: Bytes)
    ensures TokenLen(a) > 0 ==> TokenLen(a + b) == TokenLen(a)
    ensures TokenLen(a + b) <= |a| ==> TokenLen(a) == TokenLen(a + b)
  {
    var n, k := TokenLen(a), TokenLen(a + b);
    if n > 0 {
      assert (a + b)[..n] == a[..n];
      TokenLenIsMatch(a + b, n);
    } else if 0 < k <= |a| {
      assert (a + b)[..k] == a[..k];
      TokenLenIsMatch(a, k);
    }
  }

  /** What resolution emits for the first match of `s`, or for its first byte when none starts there. */
  function Head(m: Restore, s: Bytes): Bytes
    requires s != []
  {
    if TokenLen(s) > 0 then Replace(m, s[..TokenLen(s)]) else s[..1]
  }

  function HeadLen(s: Bytes): (n: nat)
    requires s != []
    ensures 0 < n <= |s|
  {
    if TokenLen(s) > 0 then TokenLen(s) else 1
  }

  lemma ResolveStep(m: Restore, s: Bytes)
    requires s != []
    ensures ResolveAll(m, s) == Head(m, s) + ResolveAll(m, s[HeadLen(s)..])
  {
  }

  /** Resolution distributes over a cut that no token straddles. */
  lemma {:induction false} ResolveCut(m: Restore, a: Bytes, b: Bytes)
    requires Separable(a, b)
    ensures ResolveAll(m, a + b) == ResolveAll(m, a) + ResolveAll(m, b)
    decreases |a|
  {
    if a == [] {
      assert a + b == b;
    } else {
      SameHead(m, a, b);
      var n := HeadLen(a);
      SeparableSuffix(a, b, n);
      ResolveStep(m, a);
      ResolveStep(m, a + b);
      ResolveCut(m, a[n..], b);
      Associate(Head(m, a), ResolveAll(m, a[n..]), ResolveAll(m, b));
    }
  }

  lemma SameHead(m: Restore, a: Bytes, b: Bytes)
    requires Separable(a, b) && a != []
    ensures Head(m, a + b) == Head(m, a) && HeadLen(a + b) == HeadLen(a)
  {
    assert (a + b)[0..] == a + b;
    TokenLenExtends(a, b);
    assert (a + b)[..HeadLen(a)] == a[..HeadLen(a)];
  }

  lemma Associate(x: Bytes, y: Bytes, z: Bytes)
    ensures (x + y) + z == x + (y + z)
  {
  }

  /** What a token straddling the cut would have to look like. */
  lemma Straddle(a: Bytes, b: Bytes, i: nat)
    requires i < |a| && TokenLen((a + b)[i..]) > |a| - i
    ensures OccursAt(a + b, OPEN, i)
    ensures i + TokenLen((a + b)[i..]) <= |a + b|
    ensures OccursAt(a + b, CLOSE, i + TokenLen((a + b)[i..]) - 3)
    ensures forall j :: i < j < i + TokenLen((a + b)[i..]) && (a + b)[j] == 0xE2 ==>
                          j == i + TokenLen((a + b)[i..]) - 3
    ensures TokenLen((a + b)[i..]) >= 11
  {
    var n := TokenLen((a + b)[i..]);
    var t := (a + b)[i..][..n];
    TokenShape(t);
    assert (a + b)[i..i + 3] == t[..3];
    assert (a + b)[i + n - 3..i + n] == t[n - 3..];
    assert forall j :: i < j < i + n ==> (a + b)[j] == t[j - i];
  }

  /** Just before an opening bracket is a safe place to cut. */
  lemma SeparableBeforeOpen(a: Bytes, b: Bytes)
    requires OPEN <= b
    ensures Separable(a, b)
  {
    var s := a + b;
    assert s[|a|] == 0xE2 && s[|a| + 2] == 0xA6;
    forall i | 0 <= i < |a|
      ensures TokenLen(s[i..]) <= |a| - i
    {
      if TokenLen(s[i..]) > |a| - i {
        Straddle(a, b, i);
        assert false;
      }
    }
  }

  /** Just after a closing bracket is a safe place to cut. */
  lemma SeparableAfterClose(a: Bytes, b: Bytes)
    requires |a| >= 3 && a[|a| - 3..] == CLOSE
    ensures Separable(a, b)
  {
    var s := a + b;
    assert s[|a| - 3] == 0xE2 && s[|a| - 1] == 0xA7 by {
      assert a[|a| - 3..][0] == a[|a| - 3] && a[|a| - 3..][2] == a[|a| - 1];
    }
    forall i | 0 <= i < |a|
      ensures TokenLen(s[i..]) <= |a| - i
    {
      if TokenLen(s[i..]) > |a| - i {
        Straddle(a, b, i);
        assert false;
      }
    }
  }

  lemma CopyFirst(m: Restore, s: Bytes)
    requires s != [] && !OccursAt(s, OPEN, 0)
    ensures ResolveAll(m, s) == s[..1] + ResolveAll(m, s[1..])
  {
    assert !(OPEN <= s) by {
      assert |s| >= 3 ==> s[0..3] == s[..3];
    }
  }

  lemma OccursInTail(s: Bytes, pat: Bytes, n: nat, i: nat)
    requires n <= |s|
    ensures OccursAt(s[n..], pat, i) <==> OccursAt(s, pat, n + i)
  {
    if i + |pat| <= |s[n..]| {
      assert s[n..][i..i + |pat|] == s[n + i..n + i + |pat|];
    }
  }

  /** Bytes before the first opening bracket are copied: no bracket opens at any of the first `k` offsets. */
  lemma {:induction false} ResolveCopies(m: Restore, s: Bytes, k: nat)
    requires k <= |s|
    requires forall i :: 0 <= i < k ==> !OccursAt(s, OPEN, i)
    ensures ResolveAll(m, s) == s[..k] + ResolveAll(m, s[k..])
    decreases k
  {
    if k == 0 {
      assert s[0..] == s;
    } else {
      CopyFirst(m, s);
      forall i | 0 <= i < k - 1
        ensures !OccursAt(s[1..], OPEN, i)
      {
        OccursInTail(s, OPEN, 1, i);
      }
      ResolveCopies(m, s[1..], k - 1);
      DropDrop(s, k);
      Associate(s[..1], s[1..][..k - 1], ResolveAll(m, s[k..]));
    }
  }

  lemma DropDrop(s: Bytes, k: nat)
    requires 0 < k <= |s|
    ensures s[1..][k - 1..] == s[k..]
    ensures s[..1] + s[1..][..k - 1] == s[..k]
  {
  }

  lemma ResolvePlain(m: Restore, s: Bytes)
    requires !Occurs(s, OPEN)
    ensures ResolveAll(m, s) == s
  {
    ResolveCopies(m, s, |s|);
  }

  /** A token alone resolves to its table entry. */
  lemma ResolveToken(m: Restore, t: Bytes)
    requires IsToken(t)
    ensures TokenLen(t) == |t|
    ensures ResolveAll(m, t) == Replace(m, t)
  {
    assert t[..|t|] == t;
    TokenShape(t);
    TokenLenIsMatch(t, |t|);
    assert ResolveAll(m, t[|t|..]) == [];
  }

  /** Tables that agree on tokens resolve alike: entries that are not tokens are never looked up. */
  lemma {:induction false} ResolveOnlyTokens(m: Restore, m': Restore, s: Bytes)
    requires forall t :: IsToken(t) ==> Replace(m, t) == Replace(m', t)
    ensures ResolveAll(m, s) == ResolveAll(m', s)
    decreases |s|
  {
    if s != [] {
      var n := TokenLen(s);
      ResolveOnlyTokens(m, m', s[if n > 0 then n else 1..]);
    }
  }
}
