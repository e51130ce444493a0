/** Resolving a stream with a vault that still mints while the stream arrives. */
module GrowingVault {
  import opened ByteStrings
  import opened TokenPattern
  import opened Resolve
  import opened Drain
  import opened Vault
  import opened VaultRuns
  import opened Reversal

  /** Each chunk is resolved with the table as it is when the chunk arrives. */
  function FeedEach(ms: seq<Restore>, held: Bytes, chunks: seq<Bytes>): Drained
    requires |ms| == |chunks|
    decreases |chunks|
  {
    if chunks == [] then Drained([], held)
    else
      var d := DrainAll(ms[0], held + chunks[0]);
      var e := FeedEach(ms[1..], d.held, chunks[1..]);
      Drained(d.out + e.out, e.held)
  }

  /** The flush comes last, with the final table. */
  function StreamEach(ms: seq<Restore>, final: Restore, chunks: seq<Bytes>): Bytes
    requires |ms| == |chunks|
  {
    var d := FeedEach(ms, [], chunks);
    d.out + ResolveAll(final, d.held)
  }

  // ----- tables that agree on what a text holds -----

  ghost predicate Agree(m: Restore, m': Restore, s: Bytes) {
    forall t :: IsToken(t) && Occurs(s, t) ==> Replace(m, t) == Replace(m', t)
  }

  lemma AgreeInPart(m: Restore, m': Restore, a: Bytes, b: Bytes, c: Bytes)
    requires Agree(m, m', a + b + c)
    ensures Agree(m, m', b)
  {
    forall t | IsToken(t) && Occurs(b, t)
      ensures Replace(m, t) == Replace(m', t)
    {
      OccursInPart(a, b, c, t);
    }
  }

  lemma AgreeOnSides(m: Restore, m': Restore, s: Bytes, n: nat)
    requires Agree(m, m', s) && n <= |s|
    ensures Agree(m, m', s[..n]) && Agree(m, m', s[n..])
  {
    assert s == [] + s[..n] + s[n..] && s == s[..n] + s[n..] + [];
    AgreeInPart(m, m', [], s[..n], s[n..]);
    AgreeInPart(m, m', s[..n], s[n..], []);
  }

  lemma SameHeads(m: Restore, m': Restore, s: Bytes)
    requires s != [] && Agree(m, m', s)
    ensures Head(m, s) == Head(m', s)
  {
    var n := TokenLen(s);
    if n > 0 {
      assert s[0..0 + n] == s[..n];
      assert OccursAt(s, s[..n], 0);
    }
  }

  lemma {:induction false} ResolveAgree(m: Restore, m': Restore, s: Bytes)
    requires Agree(m, m', s)
    ensures ResolveAll(m, s) == ResolveAll(m', s)
    decreases |s|
  {
    if s != [] {
      SameHeads(m, m', s);
      ResolveStep(m, s);
      ResolveStep(m', s);
      AgreeOnSides(m, m', s, HeadLen(s));
      ResolveAgree(m, m', s[HeadLen(s)..]);
    }
  }

  lemma {:induction false} DrainAgree(m: Restore, m': Restore, s: Bytes)
    requires Agree(m, m', s)
    ensures DrainAll(m, s) == DrainAll(m', s)
    decreases |s|
  {
    match Decide(s)
    case EmitAndHold(n) =>
      AgreeOnSides(m, m', s, n);
      ResolveAgree(m, m', s[..n]);
    case Emit(n) =>
      AgreeOnSides(m, m', s, n);
      ResolveAgree(m, m', s[..n]);
      DrainAgree(m, m', s[n..]);
    case GiveUpOpen =>
      AgreeOnSides(m, m', s, 3);
      DrainAgree(m, m', s[3..]);
  }

  /** What is held back is the end of what was there. */
  lemma {:induction false} HeldIsSuffix(m: Restore, s: Bytes) returns (gone: Bytes)
    ensures s == gone + DrainAll(m, s).held
    decreases |s|
  {
    match Decide(s)
    case EmitAndHold(n) => gone := s[..n];
    case Emit(n) =>
      var g := HeldIsSuffix(m, s[n..]);
      gone := s[..n] + g;
      RejoinedAt(s, n, g, DrainAll(m, s[n..]).held);
    case GiveUpOpen =>
      var g := HeldIsSuffix(m, s[3..]);
      gone := s[..3] + g;
      RejoinedAt(s, 3, g, DrainAll(m, s[3..]).held);
  }

  lemma RejoinedAt(s: Bytes, n: nat, g: Bytes, h: Bytes)
    requires n <= |s| && s[n..] == g + h
    ensures s == (s[..n] + g) + h
  {
    assert s == s[..n] + s[n..];
  }

  /** By the end of chunk `i` no token has arrived that the two tables of that moment disagree on. */
  ghost predicate AgreeAlong(ms: seq<Restore>, m: Restore, held: Bytes, chunks: seq<Bytes>)
    requires |ms| == |chunks|
  {
    forall i :: 0 <= i < |chunks| ==> Agree(ms[i], m, held + Concat(chunks[..i + 1]))
  }

  lemma FirstChunk(chunks: seq<Bytes>, i: nat)
    requires i < |chunks|
    ensures Concat(chunks[..i + 1]) == chunks[0] + Concat(chunks[1..][..i])
  {
    assert chunks[..i + 1][0] == chunks[0] && chunks[..i + 1][1..] == chunks[1..][..i];
  }

  lemma AgreeFurther(ms: seq<Restore>, m: Restore, held: Bytes, chunks: seq<Bytes>, gone: Bytes, held': Bytes)
    requires |ms| == |chunks| > 0 && AgreeAlong(ms, m, held, chunks) && held + chunks[0] == gone + held'
    ensures Agree(ms[0], m, held + chunks[0]) && AgreeAlong(ms[1..], m, held', chunks[1..])
  {
    FirstChunk(chunks, 0);
    assert chunks[1..][..0] == [] && chunks[0] + [] == chunks[0];
    assert Agree(ms[0], m, held + Concat(chunks[..1]));
    forall i | 0 <= i < |chunks[1..]|
      ensures Agree(ms[1..][i], m, held' + Concat(chunks[1..][..i + 1]))
    {
      var rest := Concat(chunks[1..][..i + 1]);
      FirstChunk(chunks, i + 1);
      Rejoin(held, chunks[0], rest, gone, held');
      assert Agree(ms[i + 1], m, held + Concat(chunks[..i + 2]));
      assert ms[1..][i] == ms[i + 1];
      AgreeInPart(ms[i + 1], m, gone, held' + rest, []);
    }
  }

  lemma Rejoin(held: Bytes, first: Bytes, rest: Bytes, gone: Bytes, held': Bytes)
    requires held + first == gone + held'
    ensures held + (first + rest) == gone + (held' + rest) + []
  {
    assert held + (first + rest) == (held + first) + rest;
  }

  lemma {:induction false} FeedAgree(ms: seq<Restore>, m: Restore, held: Bytes, chunks: seq<Bytes>)
    requires |ms| == |chunks| && AgreeAlong(ms, m, held, chunks)
    ensures FeedEach(ms, held, chunks) == FeedAll(m, held, chunks)
    decreases |chunks|
  {
    if chunks != [] {
      var gone := HeldIsSuffix(ms[0], held + chunks[0]);
      AgreeFurther(ms, m, held, chunks, gone, DrainAll(ms[0], held + chunks[0]).held);
      DrainAgree(ms[0], m, held + chunks[0]);
      FeedAgree(ms[1..], m, DrainAll(m, held + chunks[0]).held, chunks[1..]);
    }
  }

  // ----- a vault that mints meanwhile -----

  /** The tables when each chunk arrives: chunk `i` finds the first `marks[i]` calls made. */
  function TablesAt(calls: seq<Call>, marks: seq<nat>): (ms: seq<Restore>)
    requires forall i :: 0 <= i < |marks| ==> marks[i] <= |calls|
    ensures |ms| == |marks|
  {
    seq(|marks|, i requires 0 <= i < |marks| => TokenizeAll(EMPTY, calls[..marks[i]]).tokenToValue)
  }

  /** No token of the final table has arrived whole before it was minted. */
  ghost predicate MintedFirst(calls: seq<Call>, marks: seq<nat>, chunks: seq<Bytes>)
    requires |marks| == |chunks| && forall i :: 0 <= i < |marks| ==> marks[i] <= |calls|
  {
    forall i, t ::
      0 <= i < |chunks| && IsToken(t) && Occurs(Concat(chunks[..i + 1]), t) && t in TokenizeAll(EMPTY, calls).tokenToValue ==>
        t in TablesAt(calls, marks)[i]
  }

  lemma EarlierTable(kinds: set<Kind>, calls: seq<Call>, n: nat)
    requires Disciplined(kinds) && UsesKinds(calls, kinds) && n <= |calls|
    ensures Grows(TokenizeAll(EMPTY, calls[..n]), TokenizeAll(EMPTY, calls))
  {
    assert calls == calls[..n] + calls[n..];
    RunAppend(EMPTY, calls[..n], calls[n..]);
    EmptyInverse(kinds, calls[..n]);
    RunGrows(TokenizeAll(EMPTY, calls[..n]), kinds, calls[n..]);
  }

  lemma TablesAgree(kinds: set<Kind>, calls: seq<Call>, marks: seq<nat>, chunks: seq<Bytes>)
    requires Disciplined(kinds) && UsesKinds(calls, kinds)
    requires |marks| == |chunks| && forall i :: 0 <= i < |marks| ==> marks[i] <= |calls|
    requires MintedFirst(calls, marks, chunks)
    ensures AgreeAlong(TablesAt(calls, marks), TokenizeAll(EMPTY, calls).tokenToValue, [], chunks)
  {
    var m := TokenizeAll(EMPTY, calls).tokenToValue;
    forall i | 0 <= i < |chunks|
      ensures Agree(TablesAt(calls, marks)[i], m, [] + Concat(chunks[..i + 1]))
    {
      assert [] + Concat(chunks[..i + 1]) == Concat(chunks[..i + 1]);
      EarlierTable(kinds, calls, marks[i]);
    }
  }

  /** So the stream comes out as if the final vault had resolved the whole text at once. */
  lemma MintingMeanwhile(kinds: set<Kind>, calls: seq<Call>, marks: seq<nat>, chunks: seq<Bytes>)
    requires Disciplined(kinds) && UsesKinds(calls, kinds)
    requires |marks| == |chunks| && forall i :: 0 <= i < |marks| ==> marks[i] <= |calls|
    requires MintedFirst(calls, marks, chunks)
    ensures var final := TokenizeAll(EMPTY, calls).tokenToValue;
            StreamEach(TablesAt(calls, marks), final, chunks) == ResolveAll(final, Concat(chunks))
  {
    var vs := TokenizeAll(EMPTY, calls);
    TablesAgree(kinds, calls, marks, chunks);
    FeedAgree(TablesAt(calls, marks), vs.tokenToValue, [], chunks);
    EmptyInverse(kinds, calls);
    VaultTokensShort(vs, kinds);
    ChunkIndependence(vs.tokenToValue, chunks);
  }

  lemma {:induction false} FeedOne(ms: seq<Restore>, held: Bytes, chunks: seq<Bytes>, d: Drained)
    requires |ms| == |chunks| == 1 && d == DrainAll(ms[0], held + chunks[0])
    ensures FeedEach(ms, held, chunks) == d
  {
    assert FeedEach(ms[1..], d.held, chunks[1..]) == Drained([], d.held);
    assert d.out + [] == d.out;
  }

  lemma {:induction false} OneToken(ms: seq<Restore>, final: Restore, t: Bytes, chunks: seq<Bytes>)
    requires IsToken(t) && chunks == [t] && |ms| == 1
    ensures StreamEach(ms, final, chunks) == Replace(ms[0], t)
  {
    WholeTokenDrains(ms[0], t);
    ResolveToken(ms[0], t);
    assert [] + t == t;
    FeedOne(ms, [], chunks, Drained(Replace(ms[0], t), []));
    Flushed(final, Replace(ms[0], t));
  }

  lemma Flushed(final: Restore, out: Bytes)
    ensures out + ResolveAll(final, []) == out
  {
  }

  lemma {:induction false} FirstMinted(k: Kind, value: Bytes, calls: seq<Call>, n: nat)
    requires calls == [Call(k, value)] && n == 1
    ensures TokenizeAll(EMPTY, calls).tokenToValue == map[Mint(k, n) := value]
  {
    assert calls[..0] == [];
    assert Count(EMPTY, k) + 1 == n;
    assert TokenizeAll(EMPTY, calls) == TokenizeMaps(EMPTY, k, value);
  }

  /** A token that arrives before it is minted passes as it is. */
  lemma {:induction false} TooEarly(k: Kind, value: Bytes, n: nat, calls: seq<Call>, chunks: seq<Bytes>)
    requires GoodKind(k) && n == 1 && value != Mint(k, n) && calls == [Call(k, value)] && chunks == [Mint(k, n)]
    ensures var final := TokenizeAll(EMPTY, calls).tokenToValue;
            && StreamEach(TablesAt(calls, [0]), final, chunks) == Mint(k, n)
            && ResolveAll(final, Mint(k, n)) == value != Mint(k, n)
  {
    MintIsToken(k, n);
    FirstMinted(k, value, calls, n);
    assert calls[..0] == [];
    assert TablesAt(calls, [0]) == [EMPTY.tokenToValue];
    OneToken(TablesAt(calls, [0]), TokenizeAll(EMPTY, calls).tokenToValue, Mint(k, n), chunks);
    ResolveToken(TokenizeAll(EMPTY, calls).tokenToValue, Mint(k, n));
  }

  lemma WholeTokenDrains(m: Restore, t: Bytes)
    requires IsToken(t)
    ensures DrainAll(m, t) == Drained(ResolveAll(m, t), [])
  {
    TokenShape(t);
    ResolveToken(m, t);
    assert t[0..3] == t[..3];
    assert OccursAt(t, OPEN, 0);
    assert Decide(t) == Emit(|t|);
    assert t[..|t|] == t && t[|t|..] == [];
    assert ResolveAll(m, []) == [];
  }
}
