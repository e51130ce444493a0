/** Tokenising a request and resolving the echoed response gives the original text back. */
module Reversal {
  import opened ByteStrings
  import opened TokenPattern
  import opened Resolve
  import opened Drain
  import opened Vault
  import opened VaultRuns
  import opened Spans
  import opened Sanitize

  function ResolveEach(m: Restore, r: seq<Bytes>): (q: seq<Bytes>)
    ensures |q| == |r|
  {
    seq(|r|, i requires 0 <= i < |r| => ResolveAll(m, r[i]))
  }

  predicate Bracketed(t: Bytes) {
    |t| >= 3 && OPEN <= t && t[|t| - 3..] == CLOSE
  }

  lemma OccursInPart(a: Bytes, b: Bytes, c: Bytes, pat: Bytes)
    requires Occurs(b, pat)
    ensures Occurs(a + b + c, pat)
  {
    var i :| 0 <= i <= |b| && OccursAt(b, pat, i);
    var s := a + b + c;
    assert s[|a| + i..|a| + i + |pat|] == b[i..i + |pat|];
    assert OccursAt(s, pat, |a| + i);
  }

  lemma NotInSlice(s: Bytes, i: nat, j: nat, pat: Bytes)
    requires i <= j <= |s| && !Occurs(s, pat)
    ensures !Occurs(s[i..j], pat)
  {
    if Occurs(s[i..j], pat) {
      assert s[..i] + s[i..j] + s[j..] == s;
      OccursInPart(s[..i], s[i..j], s[j..], pat);
    }
  }

  /** A bracketed replacement resolves on its own, and so does the text on either side. */
  lemma ResolveAround(m: Restore, a: Bytes, t: Bytes, b: Bytes)
    requires Bracketed(t) && !Occurs(b, OPEN)
    ensures ResolveAll(m, a + t + b) == ResolveAll(m, a) + ResolveAll(m, t) + b
  {
    assert OPEN <= t + b;
    SeparableBeforeOpen(a, t + b);
    ResolveCut(m, a, t + b);
    SeparableAfterClose(t, b);
    ResolveCut(m, t, b);
    ResolvePlain(m, b);
    Associate(a, t, b);
    Associate(ResolveAll(m, a), ResolveAll(m, t), b);
  }

  lemma ResolveEachTail(m: Restore, r: seq<Bytes>)
    requires r != []
    ensures ResolveEach(m, r)[0] == ResolveAll(m, r[0]) && ResolveEach(m, r)[1..] == ResolveEach(m, r[1..])
  {
  }

  lemma {:induction false} ResolveSubstituted(m: Restore, text: Bytes, hi: nat, d: seq<Finding>, r: seq<Bytes>)
    requires |d| == |r| && hi <= |text| && !Occurs(text, OPEN)
    requires RightToLeft(text, d) && (d != [] ==> d[0].end <= hi)
    requires forall i :: 0 <= i < |r| ==> Bracketed(r[i])
    ensures ResolveAll(m, Substitute(text, hi, d, r)) == Substitute(text, hi, d, ResolveEach(m, r))
    decreases |d|
  {
    if d == [] {
      NotInSlice(text, 0, hi, OPEN);
      ResolvePlain(m, text[..hi]);
    } else {
      var left := Substitute(text, d[0].start, d[1..], r[1..]);
      ResolveSubstituted(m, text, d[0].start, d[1..], r[1..]);
      ResolveEachTail(m, r);
      NotInSlice(text, d[0].end, hi, OPEN);
      ResolveAround(m, left, r[0], text[d[0].end..hi]);
    }
  }

  function Values(d: seq<Finding>): (v: seq<Bytes>)
    ensures |v| == |d|
  {
    seq(|d|, i requires 0 <= i < |d| => d[i].value)
  }

  predicate HoldTheirValues(text: Bytes, d: seq<Finding>) {
    forall i :: 0 <= i < |d| ==> 0 <= d[i].start <= d[i].end <= |text| && d[i].value == text[d[i].start..d[i].end]
  }

  /** Putting every span's own bytes back changes nothing. */
  lemma {:induction false} SubstituteOwnValues(text: Bytes, hi: nat, d: seq<Finding>)
    requires hi <= |text| && RightToLeft(text, d) && HoldTheirValues(text, d) && (d != [] ==> d[0].end <= hi)
    ensures Substitute(text, hi, d, Values(d)) == text[..hi]
    decreases |d|
  {
    if d != [] {
      var f := d[0];
      assert Values(d)[1..] == Values(d[1..]);
      SubstituteOwnValues(text, f.start, d[1..]);
      assert text[..f.start] + text[f.start..f.end] + text[f.end..hi] == text[..hi];
    }
  }

  lemma {:induction false} SubstituteShows(text: Bytes, hi: nat, d: seq<Finding>, r: seq<Bytes>, i: nat, pat: Bytes)
    requires |d| == |r| && hi <= |text| && RightToLeft(text, d) && (d != [] ==> d[0].end <= hi)
    requires i < |r| && Occurs(r[i], pat)
    ensures Occurs(Substitute(text, hi, d, r), pat)
    decreases |d|
  {
    var f := d[0];
    var left := Substitute(text, f.start, d[1..], r[1..]);
    if i == 0 {
      OccursInPart(left, r[0], text[f.end..hi], pat);
    } else {
      assert r[1..][i - 1] == r[i];
      SubstituteShows(text, f.start, d[1..], r[1..], i - 1, pat);
      OccursInPart([], left, r[0] + text[f.end..hi], pat);
      assert [] + left + (r[0] + text[f.end..hi]) == left + r[0] + text[f.end..hi];
    }
  }

  ghost predicate KindsOf(d: seq<Finding>, kinds: set<Kind>) {
    forall i :: 0 <= i < |d| ==> d[i].kind in kinds
  }

  /** What the `i`-th replacement resolves to, and that it is bracketed. */
  lemma TokenResolves(vs: VaultMaps, kinds: set<Kind>, d: seq<Finding>, i: nat)
    requires Disciplined(kinds) && Inverse(vs, kinds) && KindsOf(d, kinds) && Tokenized(vs, d) && i < |d|
    ensures var t := Tokens(vs, d)[i];
            && Bracketed(t)
            && ResolveAll(vs.tokenToValue, t) == (if IsToken(t) then d[i].value else t)
  {
    var k, v := d[i].kind, d[i].value;
    var n := EntryUnique(vs, kinds, k, v);
    MintBrackets(k, n);
    MintIsToken(k, n);
    MintResolves(vs, kinds, k, v, n);
  }

  lemma BracketOpens(t: Bytes)
    requires Bracketed(t)
    ensures Occurs(t, OPEN)
  {
    assert t[0..3] == t[..3];
    assert OccursAt(t, OPEN, 0);
  }

  lemma ReversedWhenAllTokens(vs: VaultMaps, kinds: set<Kind>, text: Bytes, d: seq<Finding>)
    requires Disciplined(kinds) && Inverse(vs, kinds) && KindsOf(d, kinds) && Tokenized(vs, d)
    requires !Occurs(text, OPEN) && RightToLeft(text, d) && HoldTheirValues(text, d)
    requires forall i :: 0 <= i < |d| ==> IsToken(Tokens(vs, d)[i])
    ensures ResolveAll(vs.tokenToValue, Substitute(text, |text|, d, Tokens(vs, d))) == text
  {
    var m, r := vs.tokenToValue, Tokens(vs, d);
    forall i | 0 <= i < |d|
      ensures Bracketed(r[i]) && ResolveEach(m, r)[i] == Values(d)[i]
    {
      TokenResolves(vs, kinds, d, i);
    }
    assert ResolveEach(m, r) == Values(d);
    ResolveSubstituted(m, text, |text|, d, r);
    SubstituteOwnValues(text, |text|, d);
    assert text[..|text|] == text;
  }

  lemma NotReversedOtherwise(vs: VaultMaps, kinds: set<Kind>, text: Bytes, d: seq<Finding>, i: nat)
    requires Disciplined(kinds) && Inverse(vs, kinds) && KindsOf(d, kinds) && Tokenized(vs, d)
    requires !Occurs(text, OPEN) && RightToLeft(text, d)
    requires i < |d| && !IsToken(Tokens(vs, d)[i])
    ensures ResolveAll(vs.tokenToValue, Substitute(text, |text|, d, Tokens(vs, d))) != text
  {
    var m, r := vs.tokenToValue, Tokens(vs, d);
    forall j | 0 <= j < |d|
      ensures Bracketed(r[j])
    {
      TokenResolves(vs, kinds, d, j);
    }
    ResolveSubstituted(m, text, |text|, d, r);
    TokenResolves(vs, kinds, d, i);
    BracketOpens(r[i]);
    SubstituteShows(text, |text|, d, ResolveEach(m, r), i, OPEN);
  }

  /** Every token minted for the findings fits the pattern, that is, its number has three digits. */
  ghost predicate AllFit(vs: VaultMaps, d: seq<Finding>)
    requires Tokenized(vs, d)
  {
    forall i :: 0 <= i < |d| ==> IsToken(Tokens(vs, d)[i])
  }

  /** Resolving a tokenised text gives the text back exactly when every token minted for it fits the pattern. */
  lemma ReversalIff(vs: VaultMaps, kinds: set<Kind>, text: Bytes, d: seq<Finding>)
    requires Disciplined(kinds) && Inverse(vs, kinds) && KindsOf(d, kinds) && Tokenized(vs, d)
    requires !Occurs(text, OPEN) && RightToLeft(text, d) && HoldTheirValues(text, d)
    ensures ResolveAll(vs.tokenToValue, Substitute(text, |text|, d, Tokens(vs, d))) == text <==> AllFit(vs, d)
  {
    if i :| 0 <= i < |d| && !IsToken(Tokens(vs, d)[i]) {
      NotReversedOtherwise(vs, kinds, text, d, i);
    } else {
      ReversedWhenAllTokens(vs, kinds, text, d);
    }
  }

  // ----- a whole request -----

  lemma TokensPersist(vs: VaultMaps, vs': VaultMaps, d: seq<Finding>)
    requires Tokenized(vs, d) && Grows(vs, vs')
    ensures Tokenized(vs', d) && Tokens(vs', d) == Tokens(vs, d)
  {
    forall i | 0 <= i < |d|
      ensures ValueKey(d[i].kind, d[i].value) in vs'.valueToToken
      ensures Token(vs', d[i].kind, d[i].value) == Token(vs, d[i].kind, d[i].value)
    {
      assert ValueKey(d[i].kind, d[i].value) in vs.valueToToken;
    }
  }

  lemma {:induction false} RunAppend(vs: VaultMaps, a: seq<Call>, b: seq<Call>)
    ensures TokenizeAll(vs, a + b) == TokenizeAll(TokenizeAll(vs, a), b)
    decreases |b|
  {
    if b == [] {
      assert a + b == a;
    } else {
      assert (a + b)[..|a + b| - 1] == a + b[..|b| - 1];
      RunAppend(vs, a, b[..|b| - 1]);
    }
  }

  /** Later calls keep the tables inverse and a field's tokens as they are. */
  lemma LaterCalls(vs: VaultMaps, kinds: set<Kind>, d: seq<Finding>, after: seq<Call>)
    requires Disciplined(kinds) && Inverse(vs, kinds) && UsesKinds(after, kinds) && Tokenized(vs, d)
    ensures var vs' := TokenizeAll(vs, after);
            Inverse(vs', kinds) && Tokenized(vs', d) && Tokens(vs', d) == Tokens(vs, d)
  {
    RunInverse(vs, kinds, after);
    RunGrows(vs, kinds, after);
    TokensPersist(vs, TokenizeAll(vs, after), d);
  }

  lemma EmptyInverse(kinds: set<Kind>, calls: seq<Call>)
    requires Disciplined(kinds) && UsesKinds(calls, kinds)
    ensures Inverse(TokenizeAll(EMPTY, calls), kinds)
  {
    RunInverse(EMPTY, kinds, calls);
  }

  lemma FieldVault(kinds: set<Kind>, before: seq<Call>, d: seq<Finding>)
    requires Disciplined(kinds) && UsesKinds(before, kinds) && KindsOf(d, kinds)
    ensures var w := ReplaceEach(true, TokenizeAll(EMPTY, before), d);
            && w.maps == TokenizeAll(EMPTY, before + CallsOf(d)) && Inverse(w.maps, kinds)
            && Tokenized(w.maps, d) && Tokens(w.maps, d) == w.replacements
  {
    RunAppend(EMPTY, before, CallsOf(d));
    ReplaceTokens(TokenizeAll(EMPTY, before), d);
    EmptyInverse(kinds, before + CallsOf(d));
  }

  /** The vault at the end of a request still holds a field's tokens, whatever was tokenised around it. */
  lemma RequestVault(kinds: set<Kind>, before: seq<Call>, d: seq<Finding>, after: seq<Call>)
    requires Disciplined(kinds) && UsesKinds(before, kinds) && KindsOf(d, kinds) && UsesKinds(after, kinds)
    ensures var vs := TokenizeAll(EMPTY, before + CallsOf(d) + after);
            && Inverse(vs, kinds) && Tokenized(vs, d)
            && Tokens(vs, d) == ReplaceEach(true, TokenizeAll(EMPTY, before), d).replacements
  {
    FieldVault(kinds, before, d);
    RunAppend(EMPTY, before + CallsOf(d), after);
    LaterCalls(TokenizeAll(EMPTY, before + CallsOf(d)), kinds, d, after);
  }

  lemma CallsInRun(before: seq<Call>, d: seq<Finding>, after: seq<Call>, i: nat)
    requires i < |d|
    ensures d[i].value in ValuesOf(before + CallsOf(d) + after, d[i].kind)
  {
    var calls := before + CallsOf(d) + after;
    assert calls[|before| + i] == CallsOf(d)[i] == Call(d[i].kind, d[i].value);
    InValuesOf(calls, |before| + i);
  }

  /** The rank of the `i`-th finding's value in the request. */
  function RankIn(before: seq<Call>, d: seq<Finding>, after: seq<Call>, i: nat): nat
    requires i < |d|
  {
    CallsInRun(before, d, after, i);
    Rank(before + CallsOf(d) + after, d[i].kind, d[i].value)
  }

  /** Each value tokenised for the findings is among the first 999 distinct ones of its kind in the request. */
  predicate AllRanked(before: seq<Call>, d: seq<Finding>, after: seq<Call>) {
    forall i :: 0 <= i < |d| ==> RankIn(before, d, after, i) <= 999
  }

  lemma FitsIffRanked(kinds: set<Kind>, calls: seq<Call>, vs: VaultMaps, k: Kind, v: Bytes)
    requires Disciplined(kinds) && UsesKinds(calls, kinds) && k in kinds && v in ValuesOf(calls, k)
    requires vs == TokenizeAll(EMPTY, calls) && ValueKey(k, v) in vs.valueToToken
    ensures IsToken(Token(vs, k, v)) <==> Rank(calls, k, v) <= 999
  {
    NumberIsRank(kinds, calls, k, v);
    MintIsToken(k, Rank(calls, k, v));
  }

  lemma AllFitIffRanked(kinds: set<Kind>, before: seq<Call>, d: seq<Finding>, after: seq<Call>, vs: VaultMaps)
    requires Disciplined(kinds) && UsesKinds(before, kinds) && KindsOf(d, kinds) && UsesKinds(after, kinds)
    requires vs == TokenizeAll(EMPTY, before + CallsOf(d) + after) && Tokenized(vs, d)
    ensures AllFit(vs, d) <==> AllRanked(before, d, after)
  {
    AppendUsesKinds(before, d, after, kinds);
    forall i | 0 <= i < |d|
      ensures IsToken(Tokens(vs, d)[i]) <==> RankIn(before, d, after, i) <= 999
    {
      CallsInRun(before, d, after, i);
      FitsIffRanked(kinds, before + CallsOf(d) + after, vs, d[i].kind, d[i].value);
    }
  }

  lemma AppendUsesKinds(before: seq<Call>, d: seq<Finding>, after: seq<Call>, kinds: set<Kind>)
    requires UsesKinds(before, kinds) && KindsOf(d, kinds) && UsesKinds(after, kinds)
    ensures UsesKinds(before + CallsOf(d) + after, kinds)
  {
  }

  lemma StreamedIff(vs: VaultMaps, kinds: set<Kind>, text: Bytes, d: seq<Finding>, chunks: seq<Bytes>)
    requires Disciplined(kinds) && Inverse(vs, kinds) && KindsOf(d, kinds) && Tokenized(vs, d)
    requires !Occurs(text, OPEN) && RightToLeft(text, d) && HoldTheirValues(text, d)
    requires Concat(chunks) == Substitute(text, |text|, d, Tokens(vs, d))
    ensures StreamAll(vs.tokenToValue, chunks) == text <==> AllFit(vs, d)
  {
    ReversalIff(vs, kinds, text, d);
    VaultTokensShort(vs, kinds);
    ChunkIndependence(vs.tokenToValue, chunks);
  }

  /** Fields of one request share a vault. A field is tokenised after `before` and followed by `after`. Echoed in
      any chunks it comes back whole exactly when each of its values is among the first 999 of its kind. */
  lemma EndToEndIff(kinds: set<Kind>, before: seq<Call>, text: Bytes, d: seq<Finding>, after: seq<Call>,
                    chunks: seq<Bytes>)
    requires Disciplined(kinds) && UsesKinds(before, kinds) && KindsOf(d, kinds) && UsesKinds(after, kinds)
    requires !Occurs(text, OPEN) && RightToLeft(text, d) && HoldTheirValues(text, d)
    requires Concat(chunks)
          == Substitute(text, |text|, d, ReplaceEach(true, TokenizeAll(EMPTY, before), d).replacements)
    ensures StreamAll(TokenizeAll(EMPTY, before + CallsOf(d) + after).tokenToValue, chunks) == text
       <==> AllRanked(before, d, after)
  {
    var vs := TokenizeAll(EMPTY, before + CallsOf(d) + after);
    RequestVault(kinds, before, d, after);
    AllFitIffRanked(kinds, before, d, after, vs);
    StreamedIff(vs, kinds, text, d, chunks);
  }

  /** So it does with at most 999 distinct values of any kind in the request. */
  lemma EndToEnd(kinds: set<Kind>, before: seq<Call>, text: Bytes, d: seq<Finding>, after: seq<Call>,
                 chunks: seq<Bytes>)
    requires Disciplined(kinds) && UsesKinds(before, kinds) && KindsOf(d, kinds) && UsesKinds(after, kinds)
    requires !Occurs(text, OPEN) && RightToLeft(text, d) && HoldTheirValues(text, d)
    requires forall k :: k in kinds ==> |ValuesOf(before + CallsOf(d) + after, k)| <= 999
    requires Concat(chunks)
          == Substitute(text, |text|, d, ReplaceEach(true, TokenizeAll(EMPTY, before), d).replacements)
    ensures StreamAll(TokenizeAll(EMPTY, before + CallsOf(d) + after).tokenToValue, chunks) == text
  {
    EndToEndIff(kinds, before, text, d, after, chunks);
    forall i | 0 <= i < |d|
      ensures RankIn(before, d, after, i) <= 999
    {
      CallsInRun(before, d, after, i);
      RankAtMost(before + CallsOf(d) + after, d[i].kind, d[i].value);
    }
  }

  // ----- one value too many -----

  /** The two bytes that spell `n`. */
  function Spelled(n: nat): Bytes
    requires n < 0x10000
  {
    [n / 0x100, n % 0x100]
  }

  function ManyCalls(k: Kind, n: nat): seq<Call>
    requires n <= 0x10000
  {
    seq(n, i requires 0 <= i < n => Call(k, Spelled(i)))
  }

  lemma {:induction false} ManyValues(k: Kind, n: nat)
    requires n <= 0x10000
    ensures |ValuesOf(ManyCalls(k, n), k)| == n
    ensures forall v :: v in ValuesOf(ManyCalls(k, n), k) ==> exists i :: 0 <= i < n && v == Spelled(i)
  {
    if n == 0 {
      assert ValuesOf(ManyCalls(k, 0), k) == {};
    } else {
      ManyValues(k, n - 1);
      var calls := ManyCalls(k, n);
      assert calls[..n - 1] == ManyCalls(k, n - 1);
      ValuesOfLast(calls, k);
      assert Spelled(n - 1) !in ValuesOf(ManyCalls(k, n - 1), k);
    }
  }

  /** After 999 other values of its kind, a text that is nothing but the thousandth does not come back. */
  lemma ThousandthIsLost(k: Kind, d: seq<Finding>, chunks: seq<Bytes>)
    requires GoodKind(k) && d == [Finding(k, 0, 2, Spelled(999), 100, Redact)]
    requires Concat(chunks)
          == Substitute(Spelled(999), 2, d, ReplaceEach(true, TokenizeAll(EMPTY, ManyCalls(k, 999)), d).replacements)
    ensures StreamAll(TokenizeAll(EMPTY, ManyCalls(k, 1000)).tokenToValue, chunks) != Spelled(999)
  {
    var before := ManyCalls(k, 999);
    OneMoreCall(k, d);
    ThousandthRank(k);
    assert Spelled(999)[0..2] == Spelled(999);
    EndToEndIff({k}, before, Spelled(999), d, [], chunks);
    assert RankIn(before, d, [], 0) == 1000;
  }

  lemma OneMoreCall(k: Kind, d: seq<Finding>)
    requires d == [Finding(k, 0, 2, Spelled(999), 100, Redact)]
    ensures ManyCalls(k, 999) + CallsOf(d) + [] == ManyCalls(k, 1000)
  {
  }

  lemma ThousandthRank(k: Kind)
    ensures Spelled(999) in ValuesOf(ManyCalls(k, 1000), k) && Rank(ManyCalls(k, 1000), k, Spelled(999)) == 1000
  {
    ManyValues(k, 999);
    ManyValues(k, 1000);
    InValuesOf(ManyCalls(k, 1000), 999);
    assert ManyCalls(k, 1000)[..999] == ManyCalls(k, 999);
    assert Spelled(999) !in ValuesOf(ManyCalls(k, 999), k);
  }

  // ----- from the reported findings on -----

  lemma {:induction false} ActionableChained(s: seq<Finding>)
    requires Chained(s)
    ensures Chained(Actionable(s))
    decreases |s|
  {
    if s != [] {
      var init, last := s[..|s| - 1], s[|s| - 1];
      ActionableChained(init);
      forall i | 0 <= i < |Actionable(init)|
        ensures Actionable(init)[i].end <= last.start
      {
        assert Actionable(init)[i] in init;
      }
    }
  }

  lemma CompactReported(text: Bytes, s: seq<Finding>)
    requires Reported(text, s)
    ensures Reported(text, Compact(s)) && NonEmpty(s)
  {
    CompactSubset(s);
    forall i | 0 <= i < |s|
      ensures s[i].start < s[i].end
    {
      assert s[i] in s;
    }
    forall f | f in Compact(s)
      ensures ReportedOne(text, f)
    {
      assert f in multiset(Compact(s));
      assert f in multiset(s);
    }
  }

  lemma ChainedIsPlaced(text: Bytes, s: seq<Finding>)
    requires Reported(text, s) && Chained(s)
    ensures Placed(text, s)
  {
    forall i | 0 <= i < |s|
      ensures ReportedOne(text, s[i])
    {
      assert s[i] in s;
    }
  }

  /** However the reported spans overlap, what is left to rewrite after deduplication can be spliced. */
  lemma DedupedIsPlaced(text: Bytes, s: seq<Finding>)
    requires SortedByStart(s) && Reported(text, s)
    ensures Placed(text, Actionable(Compact(s)))
  {
    CompactReported(text, s);
    CompactChained(s);
    ActionableChained(Compact(s));
    ChainedIsPlaced(text, Actionable(Compact(s)));
  }

  /** The rewritten findings hold their values in whatever order they were rewritten. */
  lemma ActedHoldValues(text: Bytes, s: seq<Finding>, acted: seq<Finding>)
    requires Placed(text, s) && multiset(acted) == multiset(s)
    ensures HoldTheirValues(text, acted)
  {
    forall i | 0 <= i < |acted|
      ensures acted[i] in s
    {
      assert acted[i] in multiset(s);
    }
  }

  /** The whole way: any overlapping findings, deduplicated, tokenised, echoed in any chunks, and resolved, come
      back exactly when each rewritten value is among the first 999 of its kind. */
  lemma ScreenedTextComesBack(kinds: set<Kind>, before: seq<Call>, text: Bytes, found: seq<Finding>, acted: seq<Finding>,
                              after: seq<Call>, chunks: seq<Bytes>)
    requires Disciplined(kinds) && UsesKinds(before, kinds) && KindsOf(acted, kinds) && UsesKinds(after, kinds)
    requires !Occurs(text, OPEN) && SortedByStart(found) && Reported(text, found)
    requires SortedDescending(acted) && multiset(acted) == multiset(Actionable(Compact(found)))
    requires Concat(chunks)
          == Substitute(text, |text|, acted, ReplaceEach(true, TokenizeAll(EMPTY, before), acted).replacements)
    ensures StreamAll(TokenizeAll(EMPTY, before + CallsOf(acted) + after).tokenToValue, chunks) == text
       <==> AllRanked(before, acted, after)
  {
    DedupedIsPlaced(text, found);
    PlacedRightToLeft(text, Actionable(Compact(found)), acted);
    ActedHoldValues(text, Actionable(Compact(found)), acted);
    EndToEndIff(kinds, before, text, acted, after, chunks);
  }
}
