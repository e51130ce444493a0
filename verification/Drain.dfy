/** Incremental resolution: tokens may arrive split at any byte, and what is
    held back is bounded. `DrainAll` is the specification of the buffer loop. */
module Drain {
  import opened ByteStrings
  import opened TokenPattern
  import opened Resolve

  /** One turn of the drain loop: emit the first `n` bytes resolved and go on with the rest; emit them and keep
      the rest for the next call; or emit a bare opening bracket and go on. */
  datatype Turn = Emit(n: nat) | EmitAndHold(n: nat) | GiveUpOpen

  datatype Drained = Drained(out: Bytes, held: Bytes)

  predicate IsSuffix(s: Bytes, suffix: Bytes) {
    |suffix| <= |s| && s[|s| - |suffix|..] == suffix
  }

  /** How many trailing bytes of `s` may be the start of a delimiter. */
  function PartialSuffix(s: Bytes): nat {
    if IsSuffix(s, OPEN[..1]) then 1 else if IsSuffix(s, OPEN[..2]) then 2 else 0
  }

  function Decide(s: Bytes): (t: Turn)
    ensures t.Emit? ==> 0 < t.n <= |s|
    ensures t.EmitAndHold? ==> t.n <= |s|
    ensures t.GiveUpOpen? ==> OPEN <= s
  {
    var openIdx := Index(s, OPEN);
    if openIdx < 0 then EmitAndHold(|s| - PartialSuffix(s))
    else if openIdx > 0 then Emit(openIdx)
    else
      assert s[0..3] == s[..3];
      if TokenLen(s) > 0 then Emit(TokenLen(s))
      else if Index(s, CLOSE) >= 0 then Emit(Index(s, CLOSE) + 3)
      else if |s| > MAX_TOKEN_BYTES then GiveUpOpen
      else EmitAndHold(0)
  }

  function DrainAll(m: Restore, s: Bytes): Drained
    decreases |s|
  {
    match Decide(s)
    case EmitAndHold(n) => Drained(ResolveAll(m, s[..n]), s[n..])
    case Emit(n) => var d := DrainAll(m, s[n..]); Drained(ResolveAll(m, s[..n]) + d.out, d.held)
    case GiveUpOpen => var d := DrainAll(m, s[3..]); Drained(OPEN + d.out, d.held)
  }

  function FeedAll(m: Restore, held: Bytes, chunks: seq<Bytes>): Drained
    decreases |chunks|
  {
    if chunks == [] then Drained([], held)
    else
      var d := DrainAll(m, held + chunks[0]);
      var e := FeedAll(m, d.held, chunks[1..]);
      Drained(d.out + e.out, e.held)
  }

  /** Everything a fresh resolver emits when fed `chunks` and then flushed. */
  function StreamAll(m: Restore, chunks: seq<Bytes>): Bytes {
    var d := FeedAll(m, [], chunks);
    d.out + ResolveAll(m, d.held)
  }

  function Concat(chunks: seq<Bytes>): Bytes {
    if chunks == [] then [] else chunks[0] + Concat(chunks[1..])
  }

  /** No entry of the table is a token of more than 65 bytes with a value of its own. One byte more than the
      give-up threshold is still safe: such a token is complete one byte after the buffer could give up. */
  ghost predicate ShortTokens(m: Restore) {
    forall t :: t in m && IsToken(t) && |t| > MAX_TOKEN_BYTES + 1 ==> m[t] == t
  }

  // ----- one turn is sound whatever arrives later -----

  lemma SplitAt(s: Bytes, r: Bytes, k: nat)
    requires k <= |s|
    ensures s[..k] + (s[k..] + r) == s + r
    ensures (s + r)[..k] == s[..k] && (s + r)[k..] == s[k..] + r
  {
  }

  /** A delimiter that begins in `s` and is completed by `r` begins in the held-back suffix. */
  lemma NoOpenBeforePartial(s: Bytes, r: Bytes, i: nat)
    requires !Occurs(s, OPEN)
    requires i < |s| - PartialSuffix(s)
    ensures !OccursAt(s + r, OPEN, i)
  {
    assert !OccursAt(s, OPEN, i);
    if i + 3 <= |s| {
      assert (s + r)[i..i + 3] == s[i..i + 3];
    } else {
      assert i + 1 == |s| ==> s[|s| - 1..] == [s[i]];
      assert i + 2 == |s| ==> s[|s| - 2..] == [s[i], s[i + 1]];
      assert (s + r)[i] == s[i] && (i + 2 == |s| ==> (s + r)[i + 1] == s[i + 1]);
    }
  }

  lemma NoOpenInPrefix(s: Bytes, r: Bytes, k: nat)
    requires k <= |s|
    requires forall i :: 0 <= i < k ==> !OccursAt(s + r, OPEN, i)
    ensures !Occurs(s[..k], OPEN)
  {
    forall i | 0 <= i <= k
      ensures !OccursAt(s[..k], OPEN, i)
    {
      assert i + 3 <= k ==> !OccursAt(s + r, OPEN, i) && s[..k][i..i + 3] == (s + r)[i..i + 3];
    }
  }

  lemma PeelPlain(m: Restore, s: Bytes, r: Bytes, k: nat)
    requires k <= |s|
    requires forall i :: 0 <= i < k ==> !OccursAt(s + r, OPEN, i)
    ensures ResolveAll(m, s + r) == ResolveAll(m, s[..k]) + ResolveAll(m, s[k..] + r)
  {
    SplitAt(s, r, k);
    NoOpenInPrefix(s, r, k);
    ResolveCopies(m, s + r, k);
    ResolvePlain(m, s[..k]);
  }

  lemma PeelAt(m: Restore, s: Bytes, r: Bytes, k: nat)
    requires k <= |s| && Separable(s[..k], s[k..] + r)
    ensures ResolveAll(m, s + r) == ResolveAll(m, s[..k]) + ResolveAll(m, s[k..] + r)
  {
    SplitAt(s, r, k);
    ResolveCut(m, s[..k], s[k..] + r);
  }

  lemma CloseAt(s: Bytes, i: nat)
    requires OccursAt(s, CLOSE, i)
    ensures s[..i + 3][i + 3 - 3..] == CLOSE
  {
    assert s[..i + 3][i..] == s[i..i + 3];
  }

  lemma OpenTail(u: Bytes)
    requires OPEN <= u
    ensures u[..1] == OPEN[..1] && |u[1..]| >= 2 && u[1..][..2] == OPEN[1..] && u[1..][2..] == u[3..]
    ensures !OccursAt(u[1..], OPEN, 0) && !OccursAt(u[1..], OPEN, 1)
    ensures OPEN[..1] + OPEN[1..] == OPEN
  {
    var v := u[1..];
    assert v[0] == 0x9F && v[1] == 0xA6;
  }

  /** An opening bracket at which no token starts is copied. */
  lemma CopyOpen(m: Restore, u: Bytes)
    requires OPEN <= u && TokenLen(u) == 0
    ensures ResolveAll(m, u) == OPEN + ResolveAll(m, u[3..])
  {
    OpenTail(u);
    ResolveStep(m, u);
    ResolveCopies(m, u[1..], 2);
    Associate(OPEN[..1], OPEN[1..], ResolveAll(m, u[3..]));
  }

  lemma OpenBytes(s: Bytes, i: nat)
    requires OccursAt(s, OPEN, i)
    ensures s[i] == 0xE2 && s[i + 2] == 0xA6
  {
    assert s[i..i + 3][0] == s[i] && s[i..i + 3][2] == s[i + 2];
  }

  /** After its opening bracket, the bytes of a token hold no opening bracket. */
  lemma NoOpenInTokenTail(u: Bytes, n: nat)
    requires n <= |u| && IsToken(u[..n])
    ensures 3 <= n
    ensures OPEN + u[3..n] == u[..n]
    ensures forall i :: 0 <= i < n - 3 ==> !OccursAt(u[3..], OPEN, i)
  {
    var t := u[..n];
    TokenShape(t);
    assert t[n - 3..][2] == t[n - 1];
    forall i | 0 <= i < n - 3
      ensures !OccursAt(u[3..], OPEN, i)
    {
      assert u[3..][i] == t[i + 3];
      assert i == n - 6 ==> u[3..][i + 2] == t[n - 1] == 0xA7;
      if OccursAt(u[3..], OPEN, i) {
        OpenBytes(u[3..], i);
        assert false;
      }
    }
  }

  /** A token that the table leaves alone may go out with its opening bracket first. */
  lemma CopyVerbatimToken(m: Restore, u: Bytes)
    requires TokenLen(u) > 0 && Replace(m, u[..TokenLen(u)]) == u[..TokenLen(u)]
    ensures |u| >= 3 && ResolveAll(m, u) == OPEN + ResolveAll(m, u[3..])
  {
    var n := TokenLen(u);
    NoOpenInTokenTail(u, n);
    ResolveStep(m, u);
    ResolveCopies(m, u[3..], n - 3);
    assert u[3..][n - 3..] == u[n..] && u[3..][..n - 3] == u[3..n];
    Associate(OPEN, u[3..n], ResolveAll(m, u[n..]));
  }

  /** The give-up branch: an opening bracket whose token is not complete after 64 bytes may go out as text. */
  lemma GiveUp(m: Restore, s: Bytes, r: Bytes)
    requires ShortTokens(m)
    requires OPEN <= s && TokenLen(s) == 0 && |s| > MAX_TOKEN_BYTES
    ensures ResolveAll(m, s + r) == OPEN + ResolveAll(m, s[3..] + r)
  {
    TokenLenExtends(s, r);
    SplitAt(s, r, 3);
    if TokenLen(s + r) == 0 {
      CopyOpen(m, s + r);
    } else {
      CopyVerbatimToken(m, s + r);
    }
  }

  lemma NoOpenBeforeHeld(s: Bytes, r: Bytes)
    requires !Occurs(s, OPEN)
    ensures forall i :: 0 <= i < |s| - PartialSuffix(s) ==> !OccursAt(s + r, OPEN, i)
  {
    forall i | 0 <= i < |s| - PartialSuffix(s)
      ensures !OccursAt(s + r, OPEN, i)
    {
      NoOpenBeforePartial(s, r, i);
    }
  }

  lemma PeelNoOpen(m: Restore, s: Bytes, r: Bytes)
    requires !Occurs(s, OPEN)
    ensures PartialSuffix(s) <= |s|
    ensures var safe := |s| - PartialSuffix(s);
            ResolveAll(m, s + r) == ResolveAll(m, s[..safe]) + ResolveAll(m, s[safe..] + r)
  {
    PartialSuffixFits(s);
    NoOpenBeforeHeld(s, r);
    PeelPlain(m, s, r, |s| - PartialSuffix(s));
  }

  lemma PeelBeforeOpen(m: Restore, s: Bytes, r: Bytes, k: nat)
    requires OccursAt(s, OPEN, k)
    ensures ResolveAll(m, s + r) == ResolveAll(m, s[..k]) + ResolveAll(m, s[k..] + r)
  {
    assert (s[k..] + r)[..3] == s[k..k + 3];
    SeparableBeforeOpen(s[..k], s[k..] + r);
    PeelAt(m, s, r, k);
  }

  lemma PeelAfterClose(m: Restore, s: Bytes, r: Bytes, k: nat)
    requires 3 <= k <= |s| && s[..k][k - 3..] == CLOSE
    ensures ResolveAll(m, s + r) == ResolveAll(m, s[..k]) + ResolveAll(m, s[k..] + r)
  {
    SeparableAfterClose(s[..k], s[k..] + r);
    PeelAt(m, s, r, k);
  }

  function TurnLen(s: Bytes): nat {
    match Decide(s)
    case Emit(n) => n
    case EmitAndHold(n) => n
    case GiveUpOpen => 3
  }

  /** Where a turn cuts the buffer: before a partial delimiter, before a bracket, after a bracket, or nowhere. */
  lemma WhereTurnCuts(s: Bytes)
    requires !Decide(s).GiveUpOpen?
    ensures var n := TurnLen(s);
            || n == 0
            || (!Occurs(s, OPEN) && n == |s| - PartialSuffix(s))
            || OccursAt(s, OPEN, n)
            || (3 <= n <= |s| && s[..n][n - 3..] == CLOSE)
  {
    if Index(s, OPEN) == 0 {
      if TokenLen(s) > 0 {
        TokenShape(s[..TokenLen(s)]);
      } else if Index(s, CLOSE) >= 0 {
        CloseAt(s, Index(s, CLOSE));
      }
    }
  }

  /** Bytes are emitted only up to a place where no token, whatever arrives later, can straddle. */
  lemma EmitSound(m: Restore, s: Bytes, r: Bytes)
    requires !Decide(s).GiveUpOpen?
    ensures var n := TurnLen(s);
            ResolveAll(m, s + r) == ResolveAll(m, s[..n]) + ResolveAll(m, s[n..] + r)
  {
    var n := TurnLen(s);
    WhereTurnCuts(s);
    if n == 0 {
      assert s[..0] == [] && s[0..] == s;
    } else if OccursAt(s, OPEN, n) {
      PeelBeforeOpen(m, s, r, n);
    } else if 3 <= n <= |s| && s[..n][n - 3..] == CLOSE {
      PeelAfterClose(m, s, r, n);
    } else {
      PeelNoOpen(m, s, r);
    }
  }

  lemma DecideGiveUp(s: Bytes)
    requires Decide(s).GiveUpOpen?
    ensures TokenLen(s) == 0 && |s| > MAX_TOKEN_BYTES
  {
  }

  /** What is emitted is final, and the work left is what is held followed by whatever arrives later. */
  lemma {:induction false} DrainSound(m: Restore, s: Bytes, r: Bytes)
    requires ShortTokens(m)
    ensures ResolveAll(m, s + r) == DrainAll(m, s).out + ResolveAll(m, DrainAll(m, s).held + r)
    decreases |s|
  {
    if Decide(s).GiveUpOpen? {
      DecideGiveUp(s);
      GiveUp(m, s, r);
      DrainSound(m, s[3..], r);
      Associate(OPEN, DrainAll(m, s[3..]).out, ResolveAll(m, DrainAll(m, s[3..]).held + r));
    } else {
      var n := TurnLen(s);
      EmitSound(m, s, r);
      if Decide(s).Emit? {
        DrainSound(m, s[n..], r);
        Associate(ResolveAll(m, s[..n]), DrainAll(m, s[n..]).out, ResolveAll(m, DrainAll(m, s[n..]).held + r));
      }
    }
  }

  lemma {:induction false} FeedAllSound(m: Restore, held: Bytes, chunks: seq<Bytes>)
    requires ShortTokens(m)
    ensures ResolveAll(m, held + Concat(chunks))
         == FeedAll(m, held, chunks).out + ResolveAll(m, FeedAll(m, held, chunks).held)
    decreases |chunks|
  {
    if chunks == [] {
      assert held + [] == held;
    } else {
      var d := DrainAll(m, held + chunks[0]);
      DrainSound(m, held + chunks[0], Concat(chunks[1..]));
      Associate(held, chunks[0], Concat(chunks[1..]));
      FeedAllSound(m, d.held, chunks[1..]);
      var e := FeedAll(m, d.held, chunks[1..]);
      Associate(d.out, e.out, ResolveAll(m, e.held));
    }
  }

  /** Any chunking of any input gives exactly the whole-text resolution. */
  lemma ChunkIndependence(m: Restore, chunks: seq<Bytes>)
    requires ShortTokens(m)
    ensures StreamAll(m, chunks) == ResolveAll(m, Concat(chunks))
  {
    FeedAllSound(m, [], chunks);
    assert [] + Concat(chunks) == Concat(chunks);
  }

  // ----- what is held back -----

  /** Held back: nothing, one or two bytes of a delimiter, or a short bracket still open. */
  predicate HeldShape(h: Bytes) {
    || h < OPEN
    || (OPEN <= h && !Occurs(h, CLOSE) && |h| <= MAX_TOKEN_BYTES)
  }

  lemma DecideHold(s: Bytes)
    requires Decide(s).EmitAndHold?
    ensures HeldShape(s[Decide(s).n..])
  {
    if Index(s, OPEN) == 0 {
      assert s[0..3] == s[..3] && s[0..] == s;
    }
  }

  lemma {:induction false} HeldIsShort(m: Restore, s: Bytes)
    ensures HeldShape(DrainAll(m, s).held)
    decreases |s|
  {
    match Decide(s)
    case EmitAndHold(_) => DecideHold(s);
    case Emit(n) => HeldIsShort(m, s[n..]);
    case GiveUpOpen => HeldIsShort(m, s[3..]);
  }

  // ----- the bound is exact -----

  /** A token cut one byte before its end looks like an open bracket that is never closed. */
  lemma CutToken(t: Bytes)
    requires IsToken(t)
    ensures |t| >= 11
    ensures var s := t[..|t| - 1];
            && OPEN <= s && TokenLen(s) == 0 && !Occurs(s, CLOSE)
            && !Occurs(s[3..], OPEN) && IsSuffix(s[3..], OPEN[..2])
  {
    TokenShape(t);
    var s := t[..|t| - 1];
    var last := t[|t| - 1..];
    assert s + last == t;
    TokenLenExtends(s, last);
    assert t[..|t|] == t;
    TokenLenIsMatch(t, |t|);
    forall i | 0 <= i <= |s|
      ensures !OccursAt(s, CLOSE, i)
    {
      assert i + 3 <= |s| ==> s[i..i + 3][0] == t[i] && s[i..i + 3][2] == t[i + 2];
      assert t[..3][2] == t[2];
    }
    forall i | 0 <= i <= |s[3..]|
      ensures !OccursAt(s[3..], OPEN, i)
    {
      assert i + 3 <= |s[3..]| ==> s[3..][i..i + 3][0] == t[i + 3];
    }
    assert s[3..][|s| - 5..] == t[|t| - 3..][..2];
  }

  lemma PartialSuffixByLast(s: Bytes)
    requires |s| >= 2
    ensures s[|s| - 1] == 0xA7 ==> PartialSuffix(s) == 0
    ensures s[|s| - 2..] == OPEN[..2] ==> PartialSuffix(s) == 2
  {
    assert s[|s| - 1..][0] == s[|s| - 1] && s[|s| - 2..][1] == s[|s| - 1];
  }

  lemma OccursShorter(s: Bytes, pat: Bytes, k: nat)
    requires k <= |s| && !Occurs(s, pat)
    ensures !Occurs(s[..k], pat)
  {
    forall i | 0 <= i <= k
      ensures !OccursAt(s[..k], pat, i)
    {
      assert !OccursAt(s, pat, i);
      assert i + |pat| <= k ==> s[..k][i..i + |pat|] == s[i..i + |pat|];
    }
  }

  lemma PartialSuffixFits(s: Bytes)
    ensures PartialSuffix(s) <= |s|
  {
  }

  /** With no bracket open, everything goes out but the bytes that may begin one. */
  lemma DrainPlain(m: Restore, s: Bytes, n: nat)
    requires !Occurs(s, OPEN) && PartialSuffix(s) == n
    ensures n <= |s| && DrainAll(m, s) == Drained(s[..|s| - n], s[|s| - n..])
  {
    PartialSuffixFits(s);
    OccursShorter(s, OPEN, |s| - n);
    ResolvePlain(m, s[..|s| - n]);
  }

  lemma DrainOpenThenPlain(m: Restore, s: Bytes, rest: Bytes)
    requires OPEN <= s && TokenLen(s) == 0 && !Occurs(s, CLOSE) && |s| > MAX_TOKEN_BYTES
    requires rest == s[3..] && !Occurs(rest, OPEN) && IsSuffix(rest, OPEN[..2])
    ensures DrainAll(m, s) == Drained(OPEN + rest[..|rest| - 2], OPEN[..2])
  {
    DecidesToGiveUp(s);
    PartialSuffixByLast(rest);
    DrainPlain(m, rest, 2);
  }

  lemma DecidesToGiveUp(s: Bytes)
    requires OPEN <= s && TokenLen(s) == 0 && !Occurs(s, CLOSE) && |s| > MAX_TOKEN_BYTES
    ensures Decide(s) == GiveUpOpen
  {
    assert s[0..3] == s[..3];
  }

  lemma DrainGivesUp(m: Restore, t: Bytes)
    requires IsToken(t) && |t| > MAX_TOKEN_BYTES + 1
    ensures DrainAll(m, t[..|t| - 1]) == Drained(t[..|t| - 3], OPEN[..2])
  {
    CutToken(t);
    var s := t[..|t| - 1];
    DrainOpenThenPlain(m, s, s[3..]);
    Middle(t, s);
  }

  lemma Middle(t: Bytes, s: Bytes)
    requires |t| >= 11 && OPEN <= t && s == t[..|t| - 1]
    ensures OPEN + s[3..][..|s| - 5] == t[..|t| - 3]
  {
  }

  lemma CloseDrains(m: Restore)
    ensures DrainAll(m, CLOSE) == Drained(CLOSE, [])
  {
    assert !Occurs(CLOSE, OPEN) by {
      assert CLOSE[0..3] == CLOSE;
    }
    PartialSuffixByLast(CLOSE);
    ResolvePlain(m, CLOSE);
    assert CLOSE[..3] == CLOSE && CLOSE[3..] == [];
  }

  /** A longer token, cut before its last byte, comes out as it went in. */
  lemma LongTokenStreams(m: Restore, t: Bytes)
    requires IsToken(t) && |t| > MAX_TOKEN_BYTES + 1
    ensures StreamAll(m, [t[..|t| - 1], t[|t| - 1..]]) == t
  {
    TokenShape(t);
    var last := t[|t| - 1..];
    DrainGivesUp(m, t);
    assert OPEN[..2] + last == t[|t| - 3..];
    CloseDrains(m);
    FeedTwo(m, t[..|t| - 1], last);
    assert t[..|t| - 3] + CLOSE + [] == t;
  }

  lemma FeedTwo(m: Restore, x: Bytes, y: Bytes)
    ensures var d := DrainAll(m, x);
            var e := DrainAll(m, d.held + y);
            FeedAll(m, [], [x, y]) == Drained(d.out + e.out, e.held)
  {
    var d := DrainAll(m, x);
    var e := DrainAll(m, d.held + y);
    assert [] + x == x;
    assert [x, y][1..] == [y] && [y][1..] == [];
    assert FeedAll(m, e.held, []) == Drained([], e.held);
    assert e.out + [] == e.out;
    assert FeedAll(m, d.held, [y]) == Drained(e.out, e.held);
  }

  ghost predicate ChunkIndependent(m: Restore) {
    forall chunks :: StreamAll(m, chunks) == ResolveAll(m, Concat(chunks))
  }

  lemma ConcatTwo(x: Bytes, y: Bytes)
    ensures Concat([x, y]) == x + y
  {
    assert [x, y][1..] == [y];
    assert Concat([y]) == y + Concat([]);
  }

  lemma RejoinLast(t: Bytes)
    requires t != []
    ensures Concat([t[..|t| - 1], t[|t| - 1..]]) == t
  {
    ConcatTwo(t[..|t| - 1], t[|t| - 1..]);
  }

  lemma IndependentAt(m: Restore, chunks: seq<Bytes>, t: Bytes)
    requires ChunkIndependent(m) && Concat(chunks) == t
    ensures StreamAll(m, chunks) == ResolveAll(m, t)
  {
  }

  lemma IndependentTokensShort(m: Restore, t: Bytes)
    requires ChunkIndependent(m) && t in m && IsToken(t) && |t| > MAX_TOKEN_BYTES + 1
    ensures m[t] == t
  {
    LongTokenStreams(m, t);
    RejoinLast(t);
    IndependentAt(m, [t[..|t| - 1], t[|t| - 1..]], t);
    ResolveToken(m, t);
  }

  /** Streaming agrees with whole-text resolution on every chunking exactly when no token the table rewrites
      is longer than 65 bytes. */
  lemma ChunkIndependentIff(m: Restore)
    ensures ChunkIndependent(m) <==> ShortTokens(m)
  {
    if ShortTokens(m) {
      forall chunks
        ensures StreamAll(m, chunks) == ResolveAll(m, Concat(chunks))
      {
        ChunkIndependence(m, chunks);
      }
    }
    if ChunkIndependent(m) {
      forall t | t in m && IsToken(t) && |t| > MAX_TOKEN_BYTES + 1
        ensures m[t] == t
      {
        IndependentTokensShort(m, t);
      }
    }
  }
}
