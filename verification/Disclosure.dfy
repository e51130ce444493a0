/** What a screened text still tells: of masked values what the masks show, of tokenised ones which are equal. */
module Disclosure {
  import opened ByteStrings
  import opened Vault
  import opened VaultRuns
  import opened Spans
  import opened Sanitize
  import opened Reversal

  // ----- texts that differ inside their spans only -----

  /** The same spans' worth of replacements, with the same bytes around them: what is inside may differ, and in length too. */
  ghost predicate SameGaps(text: Bytes, hi: nat, d: seq<Finding>, text': Bytes, hi': nat, d': seq<Finding>) {
    |d| == |d'| && forall i :: 0 <= i <= |d| ==> Gap(text, hi, d, i) == Gap(text', hi', d', i)
  }

  lemma SameGapsTail(text: Bytes, hi: nat, d: seq<Finding>, text': Bytes, hi': nat, d': seq<Finding>)
    requires d != [] && RightToLeft(text, d) && RightToLeft(text', d') && SameGaps(text, hi, d, text', hi', d')
    requires d[0].end <= hi <= |text| && d'[0].end <= hi' <= |text'|
    ensures SameGaps(text, d[0].start, d[1..], text', d'[0].start, d'[1..])
    ensures text[d[0].end..hi] == text'[d'[0].end..hi']
  {
    assert Gap(text, hi, d, 0) == Gap(text', hi', d', 0);
    forall i | 0 <= i <= |d[1..]|
      ensures Gap(text, d[0].start, d[1..], i) == Gap(text', d'[0].start, d'[1..], i)
    {
      GapTail(text, hi, d, i);
      GapTail(text', hi', d', i);
      assert Gap(text, hi, d, i + 1) == Gap(text', hi', d', i + 1);
    }
  }

  /** The bytes under the spans do not show. */
  lemma {:induction false} SameGapsSameText(text: Bytes, hi: nat, d: seq<Finding>, text': Bytes, hi': nat, d': seq<Finding>,
                                           r: seq<Bytes>)
    requires |d| == |r| && RightToLeft(text, d) && RightToLeft(text', d') && SameGaps(text, hi, d, text', hi', d')
    requires hi <= |text| && hi' <= |text'| && (d != [] ==> d[0].end <= hi && d'[0].end <= hi')
    ensures Substitute(text, hi, d, r) == Substitute(text', hi', d', r)
    decreases |d|
  {
    if d == [] {
      assert Gap(text, hi, d, 0) == text[..hi] && Gap(text', hi', d', 0) == text'[..hi'];
    } else {
      InitRightToLeft(text, d);
      InitRightToLeft(text', d');
      SameGapsTail(text, hi, d, text', hi', d');
      SameGapsSameText(text, d[0].start, d[1..], text', d'[0].start, d'[1..], r[1..]);
      SubstituteHead(text, hi, d, r);
      SubstituteHead(text', hi', d', r);
    }
  }

  /** So two whole texts become one when their replacements are the same. */
  lemma {:induction false} WholeTextsAlike(text: Bytes, d: seq<Finding>, text': Bytes, d': seq<Finding>, r: seq<Bytes>, r': seq<Bytes>)
    requires RightToLeft(text, d) && RightToLeft(text', d') && SameGaps(text, |text|, d, text', |text'|, d')
    requires |r| == |d| && r == r'
    ensures Substitute(text, |text|, d, r) == Substitute(text', |text'|, d', r')
  {
    SameGapsSameText(text, |text|, d, text', |text'|, d', r);
  }

  // ----- masks -----

  /** Alike in length and, from five bytes on, in the two bytes at each end. */
  predicate SameEdges(s: Bytes, t: Bytes) {
    |s| == |t| && (|s| > 4 ==> s[..2] == t[..2] && s[|s| - 2..] == t[|t| - 2..])
  }

  /** A generic mask tells the length and, from five bytes on, two bytes at each end: exactly that. */
  lemma MaskGenericIff(s: Bytes, t: Bytes)
    ensures MaskGeneric(s) == MaskGeneric(t) <==> SameEdges(s, t)
  {
    var a, b := MaskGeneric(s), MaskGeneric(t);
    assert |a| == |s| && |b| == |t|;
    if a == b && |s| > 4 {
      assert s[..2] == a[..2] && t[..2] == b[..2];
      assert s[|s| - 2..] == a[|s| - 2..] && t[|t| - 2..] == b[|t| - 2..];
    }
  }

  /** Byte for byte: the two at each end of a long enough value, and stars. */
  lemma MaskGenericShows(s: Bytes)
    ensures |MaskGeneric(s)| == |s|
    ensures forall i :: 0 <= i < |s| ==> MaskGeneric(s)[i] == if |s| > 4 && (i < 2 || i >= |s| - 2) then s[i] else 0x2A
  {
  }

  /** Of an address: its first byte and all from the at sign on; three stars for a lone byte, else one for each byte
      between. */
  lemma MaskEmailShows(s: Bytes, at: nat)
    requires 0 < at < |s| && s[at] == 0x40 && forall i :: 0 <= i < at ==> s[i] != 0x40
    ensures at == 1 ==> MaskEmail(s) == [s[0]] + [0x2A, 0x2A, 0x2A] + s[1..]
    ensures at > 1 ==> |MaskEmail(s)| == |s|
    ensures at > 1 ==> forall i :: 0 <= i < |s| ==> MaskEmail(s)[i] == if i == 0 || i >= at then s[i] else 0x2A
  {
    assert s[at..at + 1] == [AT];
    assert OccursAt(s, [AT], at);
    forall i | 0 <= i < at
      ensures !OccursAt(s, [AT], i)
    {
      assert s[i..i + 1] == [s[i]];
    }
    assert Index(s, [AT]) == at;
    assert s[..1] == [s[0]] && Stars(3) == [0x2A, 0x2A, 0x2A];
  }

  /** Of a card number: its first six and last four digits, and a star for each between. */
  lemma MaskCardShows(s: Bytes)
    requires |OnlyDigits(s)| >= 10
    ensures var d := OnlyDigits(s);
            && |MaskPAN(s)| == |d|
            && forall i :: 0 <= i < |d| ==> MaskPAN(s)[i] == if i < 6 || i >= |d| - 4 then d[i] else 0x2A
  {
  }

  /** Alike from the at sign on, in its place, and in the first byte. */
  predicate SameDomain(s: Bytes, t: Bytes) {
    var at := Index(s, [AT]);
    if at <= 0 then Index(t, [AT]) <= 0 && SameEdges(s, t)
    else Index(t, [AT]) == at && s[at..] == t[at..] && s[0] == t[0]
  }

  /** Alike in the number of digits, the first six and the last four. */
  predicate SameCard(s: Bytes, t: Bytes) {
    var a, b := OnlyDigits(s), OnlyDigits(t);
    if |a| < 10 then |b| < 10 && SameEdges(s, t)
    else |a| == |b| && a[..6] == b[..6] && a[|a| - 4..] == b[|b| - 4..]
  }

  /** The findings' masks show no difference. */
  predicate Lookalike(f: Finding, g: Finding) {
    && f.kind.typ == g.kind.typ
    && if f.kind.typ == "email" then SameDomain(f.value, g.value)
       else if f.kind.typ == "credit_card" then SameCard(f.value, g.value)
       else SameEdges(f.value, g.value)
  }

  lemma LookalikeMasks(f: Finding, g: Finding)
    requires Lookalike(f, g)
    ensures Mask(f) == Mask(g)
  {
    MaskGenericIff(f.value, g.value);
    if f.kind.typ == "email" && Index(f.value, [AT]) > 0 {
      var at := Index(f.value, [AT]);
      assert at == 1 ==> f.value[..at] == [f.value[0]] && g.value[..at] == [g.value[0]];
      assert f.value[..1] == [f.value[0]] && g.value[..1] == [g.value[0]];
    }
  }

  lemma MasksAlike(d: seq<Finding>, d': seq<Finding>)
    requires |d| == |d'| && forall i :: 0 <= i < |d| ==> Lookalike(d[i], d'[i])
    ensures Masks(d) == Masks(d')
  {
    forall i | 0 <= i < |d|
      ensures Masks(d)[i] == Masks(d')[i]
    {
      LookalikeMasks(d[i], d'[i]);
    }
  }

  /** Two texts alike but for the bytes their masks hide are redacted to the same text. */
  lemma {:induction false} RedactionHides(vs: VaultMaps, text: Bytes, d: seq<Finding>, text': Bytes, d': seq<Finding>)
    requires RightToLeft(text, d) && RightToLeft(text', d') && SameGaps(text, |text|, d, text', |text'|, d')
    requires forall i :: 0 <= i < |d| ==> Lookalike(d[i], d'[i])
    ensures Substitute(text, |text|, d, ReplaceEach(false, vs, d).replacements)
         == Substitute(text', |text'|, d', ReplaceEach(false, vs, d').replacements)
  {
    ReplaceMasks(vs, d);
    ReplaceMasks(vs, d');
    MasksAlike(d, d');
    WholeTextsAlike(text, d, text', d', ReplaceEach(false, vs, d).replacements, ReplaceEach(false, vs, d').replacements);
  }

  // ----- tokens -----

  /** The calls name the same kinds, and two of one kind have one value in either run or in neither. */
  ghost predicate SamePattern(calls: seq<Call>, calls': seq<Call>) {
    && |calls| == |calls'|
    && (forall i :: 0 <= i < |calls| ==> calls[i].kind == calls'[i].kind)
    && (forall i, j :: 0 <= i < |calls| && 0 <= j < |calls| && calls[i].kind == calls[j].kind ==>
                         (calls[i].value == calls[j].value <==> calls'[i].value == calls'[j].value))
  }

  lemma PatternPrefix(calls: seq<Call>, calls': seq<Call>, n: nat)
    requires SamePattern(calls, calls') && n <= |calls|
    ensures SamePattern(calls[..n], calls'[..n])
  {
  }

  lemma SeenIn(calls: seq<Call>, k: Kind, v: Bytes) returns (j: nat)
    requires v in ValuesOf(calls, k)
    ensures j < |calls| && calls[j] == Call(k, v)
  {
    var i :| 0 <= i < |calls| && calls[i].kind == k && calls[i].value == v;
    j := i;
  }

  /** A call repeats an earlier one in both runs or in neither. */
  lemma SeenTogether(calls: seq<Call>, calls': seq<Call>, n: nat, i: nat)
    requires SamePattern(calls, calls') && n <= |calls| && i < |calls|
    ensures calls[i].value in ValuesOf(calls[..n], calls[i].kind) <==> calls'[i].value in ValuesOf(calls'[..n], calls'[i].kind)
  {
    if calls[i].value in ValuesOf(calls[..n], calls[i].kind) {
      var j := SeenIn(calls[..n], calls[i].kind, calls[i].value);
      InValuesOf(calls'[..n], j);
    }
    if calls'[i].value in ValuesOf(calls'[..n], calls'[i].kind) {
      var j := SeenIn(calls'[..n], calls'[i].kind, calls'[i].value);
      InValuesOf(calls[..n], j);
    }
  }

  lemma {:induction false} SameCounts(calls: seq<Call>, calls': seq<Call>, k: Kind)
    requires SamePattern(calls, calls')
    ensures |ValuesOf(calls, k)| == |ValuesOf(calls', k)|
    decreases |calls|
  {
    if calls == [] {
      assert ValuesOf(calls, k) == {} && ValuesOf(calls', k) == {};
    } else {
      var n := |calls| - 1;
      PatternPrefix(calls, calls', n);
      SameCounts(calls[..n], calls'[..n], k);
      SeenTogether(calls, calls', n, n);
      ValuesOfLast(calls, k);
      ValuesOfLast(calls', k);
    }
  }

  lemma {:induction false} SameRank(calls: seq<Call>, calls': seq<Call>, i: nat)
    requires SamePattern(calls, calls') && i < |calls|
    ensures calls[i].value in ValuesOf(calls, calls[i].kind) && calls'[i].value in ValuesOf(calls', calls'[i].kind)
    ensures Rank(calls, calls[i].kind, calls[i].value) == Rank(calls', calls'[i].kind, calls'[i].value)
    decreases |calls|
  {
    var n := |calls| - 1;
    InValuesOf(calls, i);
    InValuesOf(calls', i);
    SeenTogether(calls, calls', n, i);
    if calls[i].value in ValuesOf(calls[..n], calls[i].kind) {
      var j := SeenIn(calls[..n], calls[i].kind, calls[i].value);
      PatternPrefix(calls, calls', n);
      SameRank(calls[..n], calls'[..n], j);
    } else {
      SameCounts(calls, calls', calls[i].kind);
    }
  }

  /** The token the `i`-th call is answered with. */
  ghost function TokenOf(kinds: set<Kind>, calls: seq<Call>, i: nat): Bytes
    requires Disciplined(kinds) && UsesKinds(calls, kinds) && i < |calls|
  {
    InValuesOf(calls, i);
    NumberIsRank(kinds, calls, calls[i].kind, calls[i].value);
    Token(TokenizeAll(EMPTY, calls), calls[i].kind, calls[i].value)
  }

  lemma TokenOfRank(kinds: set<Kind>, calls: seq<Call>, i: nat)
    requires Disciplined(kinds) && UsesKinds(calls, kinds) && i < |calls|
    ensures calls[i].value in ValuesOf(calls, calls[i].kind)
    ensures TokenOf(kinds, calls, i) == Mint(calls[i].kind, Rank(calls, calls[i].kind, calls[i].value))
    ensures Entry(TokenizeAll(EMPTY, calls), calls[i].kind, calls[i].value, Rank(calls, calls[i].kind, calls[i].value))
  {
    InValuesOf(calls, i);
    NumberIsRank(kinds, calls, calls[i].kind, calls[i].value);
  }

  /** Two calls get one token exactly when they name one kind and one value. */
  lemma OneTokenIff(kinds: set<Kind>, calls: seq<Call>, i: nat, j: nat)
    requires Disciplined(kinds) && UsesKinds(calls, kinds) && i < |calls| && j < |calls|
    ensures TokenOf(kinds, calls, i) == TokenOf(kinds, calls, j) <==> calls[i] == calls[j]
  {
    TokenOfRank(kinds, calls, i);
    TokenOfRank(kinds, calls, j);
    if TokenOf(kinds, calls, i) == TokenOf(kinds, calls, j) {
      MintNamesOne(kinds, calls[i].kind, Rank(calls, calls[i].kind, calls[i].value),
                   calls[j].kind, Rank(calls, calls[j].kind, calls[j].value));
    }
  }

  ghost predicate SameTokens(kinds: set<Kind>, calls: seq<Call>, calls': seq<Call>)
    requires Disciplined(kinds) && UsesKinds(calls, kinds) && UsesKinds(calls', kinds)
  {
    |calls| == |calls'| && forall i :: 0 <= i < |calls| ==> TokenOf(kinds, calls, i) == TokenOf(kinds, calls', i)
  }

  lemma KindTold(kinds: set<Kind>, calls: seq<Call>, calls': seq<Call>, i: nat)
    requires Disciplined(kinds) && UsesKinds(calls, kinds) && UsesKinds(calls', kinds)
    requires i < |calls| && i < |calls'| && TokenOf(kinds, calls, i) == TokenOf(kinds, calls', i)
    ensures calls[i].kind == calls'[i].kind
  {
    TokenOfRank(kinds, calls, i);
    TokenOfRank(kinds, calls', i);
    MintNamesOne(kinds, calls[i].kind, Rank(calls, calls[i].kind, calls[i].value),
                 calls'[i].kind, Rank(calls', calls'[i].kind, calls'[i].value));
  }

  /** The tokens of a run tell of its values their kinds and which are equal: exactly that. */
  lemma TokensTellEquality(kinds: set<Kind>, calls: seq<Call>, calls': seq<Call>)
    requires Disciplined(kinds) && UsesKinds(calls, kinds) && UsesKinds(calls', kinds)
    ensures SameTokens(kinds, calls, calls') <==> SamePattern(calls, calls')
  {
    if SamePattern(calls, calls') {
      forall i | 0 <= i < |calls|
        ensures TokenOf(kinds, calls, i) == TokenOf(kinds, calls', i)
      {
        TokenOfRank(kinds, calls, i);
        TokenOfRank(kinds, calls', i);
        SameRank(calls, calls', i);
      }
    }
    if SameTokens(kinds, calls, calls') {
      forall i | 0 <= i < |calls|
        ensures calls[i].kind == calls'[i].kind
      {
        KindTold(kinds, calls, calls', i);
      }
      forall i, j | 0 <= i < |calls| && 0 <= j < |calls| && calls[i].kind == calls[j].kind
        ensures calls[i].value == calls[j].value <==> calls'[i].value == calls'[j].value
      {
        OneTokenIff(kinds, calls, i, j);
        OneTokenIff(kinds, calls', i, j);
        assert calls'[i].kind == calls[i].kind == calls'[j].kind;
      }
    }
  }

  /** The replacements of a field are the last tokens of the run so far. */
  lemma {:induction false} ReplacementsAreTokens(kinds: set<Kind>, before: seq<Call>, d: seq<Finding>, i: nat)
    requires Disciplined(kinds) && UsesKinds(before, kinds) && KindsOf(d, kinds) && i < |d|
    requires UsesKinds(before + CallsOf(d), kinds)
    ensures ReplaceEach(true, TokenizeAll(EMPTY, before), d).replacements[i]
         == TokenOf(kinds, before + CallsOf(d), |before| + i)
  {
    FieldVault(kinds, before, d);
    assert (before + CallsOf(d))[|before| + i] == CallsOf(d)[i] == Call(d[i].kind, d[i].value);
  }

  lemma FieldUsesKinds(before: seq<Call>, d: seq<Finding>, kinds: set<Kind>)
    requires UsesKinds(before, kinds) && KindsOf(d, kinds)
    ensures UsesKinds(before + CallsOf(d), kinds)
  {
  }

  lemma {:induction false} ReplacementsAlike(kinds: set<Kind>, before: seq<Call>, d: seq<Finding>,
                                            before': seq<Call>, d': seq<Finding>)
    requires Disciplined(kinds) && UsesKinds(before, kinds) && KindsOf(d, kinds)
    requires UsesKinds(before', kinds) && KindsOf(d', kinds) && |before| == |before'| && |d| == |d'|
    requires SamePattern(before + CallsOf(d), before' + CallsOf(d'))
    ensures ReplaceEach(true, TokenizeAll(EMPTY, before), d).replacements
         == ReplaceEach(true, TokenizeAll(EMPTY, before'), d').replacements
  {
    FieldUsesKinds(before, d, kinds);
    FieldUsesKinds(before', d', kinds);
    TokensTellEquality(kinds, before + CallsOf(d), before' + CallsOf(d'));
    forall i | 0 <= i < |d|
      ensures ReplaceEach(true, TokenizeAll(EMPTY, before), d).replacements[i]
           == ReplaceEach(true, TokenizeAll(EMPTY, before'), d').replacements[i]
    {
      ReplacementsAreTokens(kinds, before, d, i);
      ReplacementsAreTokens(kinds, before', d', i);
      assert |before| + i < |before + CallsOf(d)|;
    }
  }

  /**
   * Two requests that agree outside their findings' spans, in the findings' kinds and in which values are equal,
   * earlier fields included, send the same tokenised text.
   */
  lemma {:induction false} TokenizationHides(kinds: set<Kind>, before: seq<Call>, text: Bytes, d: seq<Finding>,
                                            before': seq<Call>, text': Bytes, d': seq<Finding>)
    requires Disciplined(kinds) && UsesKinds(before, kinds) && KindsOf(d, kinds)
    requires UsesKinds(before', kinds) && KindsOf(d', kinds) && |before| == |before'|
    requires RightToLeft(text, d) && RightToLeft(text', d') && SameGaps(text, |text|, d, text', |text'|, d')
    requires SamePattern(before + CallsOf(d), before' + CallsOf(d'))
    ensures Substitute(text, |text|, d, ReplaceEach(true, TokenizeAll(EMPTY, before), d).replacements)
         == Substitute(text', |text'|, d', ReplaceEach(true, TokenizeAll(EMPTY, before'), d').replacements)
  {
    ReplacementsAlike(kinds, before, d, before', d');
    WholeTextsAlike(text, d, text', d', ReplaceEach(true, TokenizeAll(EMPTY, before), d).replacements,
                    ReplaceEach(true, TokenizeAll(EMPTY, before'), d').replacements);
  }
}
