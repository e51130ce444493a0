/** Rewriting a request's text by its findings. */
module Sanitize {
  import opened ByteStrings
  import opened Vault
  import opened VaultRuns
  import opened Spans

  datatype Mode = RedactMode | TokenizeMode | BlockOnlyMode

  const STAR: byte := 0x2A
  const AT: byte := 0x40

  // ----- masks -----

  function Stars(n: nat): (s: Bytes)
    ensures |s| == n
  {
    seq(n, _ => STAR)
  }

  function OnlyDigits(s: Bytes): Bytes {
    if s == [] then []
    else if 0x30 <= s[0] <= 0x39 then [s[0]] + OnlyDigits(s[1..])
    else OnlyDigits(s[1..])
  }

  function MaskGeneric(s: Bytes): Bytes {
    if |s| <= 4 then Stars(|s|) else s[..2] + Stars(|s| - 4) + s[|s| - 2..]
  }

  function MaskEmail(s: Bytes): Bytes {
    var at := Index(s, [AT]);
    if at <= 0 then MaskGeneric(s)
    else if at <= 1 then s[..at] + Stars(3) + s[at..]
    else s[..1] + Stars(at - 1) + s[at..]
  }

  function MaskPAN(s: Bytes): Bytes {
    var digits := OnlyDigits(s);
    if |digits| < 10 then MaskGeneric(s)
    else digits[..6] + Stars(|digits| - 10) + digits[|digits| - 4..]
  }

  function Mask(f: Finding): Bytes {
    if f.kind.typ == "email" then MaskEmail(f.value)
    else if f.kind.typ == "credit_card" then MaskPAN(f.value)
    else MaskGeneric(f.value)
  }

  // ----- the warden -----

  predicate Acts(f: Finding) {
    f.verdict != Allow && f.verdict != Log
  }

  function Actionable(findings: seq<Finding>): (r: seq<Finding>)
    ensures forall f :: f in r <==> f in findings && Acts(f)
    ensures forall f :: multiset(r)[f] == if f.verdict == Redact || f.verdict == Block then multiset(findings)[f] else 0
  {
    if findings == [] then []
    else
      var last := findings[|findings| - 1];
      assert findings == findings[..|findings| - 1] + [last];
      Actionable(findings[..|findings| - 1]) + (if Acts(last) then [last] else [])
  }

  predicate SortedDescending(d: seq<Finding>) {
    forall i, j :: 0 <= i < j < |d| ==> d[i].start >= d[j].start
  }

  /** Spans in the text that hold their value's bytes and overlap nowhere. */
  predicate Placed(text: Bytes, s: seq<Finding>) {
    && (forall i :: 0 <= i < |s| ==> 0 <= s[i].start < s[i].end <= |text| && s[i].value == text[s[i].start..s[i].end])
    && (forall i, j :: 0 <= i < |s| && 0 <= j < |s| && i != j ==> !Overlaps(s[i], s[j]))
  }

  function CallsOf(d: seq<Finding>): (c: seq<Call>)
    ensures |c| == |d|
  {
    seq(|d|, i requires 0 <= i < |d| => Call(d[i].kind, d[i].value))
  }

  ghost predicate Tokenized(vs: VaultMaps, d: seq<Finding>) {
    forall i :: 0 <= i < |d| ==> ValueKey(d[i].kind, d[i].value) in vs.valueToToken
  }

  ghost function Tokens(vs: VaultMaps, d: seq<Finding>): (r: seq<Bytes>)
    requires Tokenized(vs, d)
    ensures |r| == |d|
  {
    seq(|d|, i requires 0 <= i < |d| => Token(vs, d[i].kind, d[i].value))
  }

  function Masks(d: seq<Finding>): (r: seq<Bytes>)
    ensures |r| == |d|
  {
    seq(|d|, i requires 0 <= i < |d| => Mask(d[i]))
  }

  lemma RowStays(vs: VaultMaps, k: Kind, value: Bytes, key: Bytes)
    requires key in vs.valueToToken
    ensures key in TokenizeMaps(vs, k, value).valueToToken
    ensures TokenizeMaps(vs, k, value).valueToToken[key] == vs.valueToToken[key]
  {
  }

  lemma TokensStay(vs: VaultMaps, d: seq<Finding>, k: Kind, value: Bytes)
    requires Tokenized(vs, d)
    ensures Tokenized(TokenizeMaps(vs, k, value), d)
    ensures Tokens(TokenizeMaps(vs, k, value), d) == Tokens(vs, d)
  {
    forall i | 0 <= i < |d|
      ensures ValueKey(d[i].kind, d[i].value) in TokenizeMaps(vs, k, value).valueToToken
      ensures Token(TokenizeMaps(vs, k, value), d[i].kind, d[i].value) == Token(vs, d[i].kind, d[i].value)
    {
      RowStays(vs, k, value, ValueKey(d[i].kind, d[i].value));
    }
  }

  lemma TokensSnoc(vs: VaultMaps, d: seq<Finding>)
    requires d != [] && Tokenized(vs, d[..|d| - 1]) && ValueKey(d[|d| - 1].kind, d[|d| - 1].value) in vs.valueToToken
    ensures Tokenized(vs, d)
    ensures Tokens(vs, d) == Tokens(vs, d[..|d| - 1]) + [Token(vs, d[|d| - 1].kind, d[|d| - 1].value)]
  {
    assert forall i :: 0 <= i < |d| - 1 ==> d[..|d| - 1][i] == d[i];
  }

  /** Sorted right to left, non-empty disjoint spans can be replaced one after another. */
  lemma PlacedRightToLeft(text: Bytes, s: seq<Finding>, d: seq<Finding>)
    requires Placed(text, s) && multiset(d) == multiset(s) && SortedDescending(d)
    ensures RightToLeft(text, d)
  {
    forall i | 0 <= i < |d|
      ensures 0 <= d[i].start < d[i].end <= |text|
    {
      assert d[i] in multiset(s);
    }
    forall i, j | 0 <= i < j < |d|
      ensures d[j].end <= d[i].start
    {
      DistinctPositions(s, d, i, j);
      var p, q :| 0 <= p < |s| && 0 <= q < |s| && p != q && s[p] == d[i] && s[q] == d[j];
      assert !Overlaps(s[p], s[q]);
    }
  }

  function RemoveAt(s: seq<Finding>, p: nat): seq<Finding>
    requires p < |s|
  {
    s[..p] + s[p + 1..]
  }

  lemma RemoveAtMultiset(s: seq<Finding>, p: nat)
    requires p < |s|
    ensures multiset(RemoveAt(s, p)) == multiset(s) - multiset{s[p]}
  {
    assert s == s[..p] + [s[p]] + s[p + 1..];
  }

  /** Two positions of a permutation come from two positions of the original. */
  lemma DistinctPositions(s: seq<Finding>, d: seq<Finding>, i: nat, j: nat)
    requires multiset(d) == multiset(s) && i < j < |d|
    ensures exists p, q :: 0 <= p < |s| && 0 <= q < |s| && p != q && s[p] == d[i] && s[q] == d[j]
  {
    assert d[i] in multiset(s);
    var p :| 0 <= p < |s| && s[p] == d[i];
    RemoveAtMultiset(s, p);
    RemoveAtMultiset(d, i);
    assert RemoveAt(d, i)[j - 1] == d[j];
    assert d[j] in multiset(RemoveAt(s, p));
    var q :| 0 <= q < |s| - 1 && RemoveAt(s, p)[q] == d[j];
    assert s[if q < p then q else q + 1] == d[j];
  }

  function Reversed(s: seq<Finding>): (r: seq<Finding>)
    ensures |r| == |s|
  {
    seq(|s|, i requires 0 <= i < |s| => s[|s| - 1 - i])
  }

  lemma {:induction false} ReversedMultiset(s: seq<Finding>)
    ensures multiset(Reversed(s)) == multiset(s)
    decreases |s|
  {
    if s != [] {
      ReversedMultiset(s[1..]);
      assert Reversed(s) == Reversed(s[1..]) + [s[0]];
      assert s == [s[0]] + s[1..];
    }
  }

  /** The order among equal offsets is not promised. */
  method SortDescending(s: seq<Finding>) returns (d: seq<Finding>)
    ensures SortedDescending(d) && multiset(d) == multiset(s)
  {
    d := Reversed(SortedList(s));
    ReversedMultiset(SortedList(s));
  }

  datatype Rewriting = Rewriting(maps: VaultMaps, replacements: seq<Bytes>)

  function ReplaceOne(useVault: bool, vs: VaultMaps, f: Finding): (w: (VaultMaps, Bytes)) {
    if useVault then
      var vs' := TokenizeMaps(vs, f.kind, f.value);
      (vs', Token(vs', f.kind, f.value))
    else (vs, Mask(f))
  }

  /** The replacements of `d`, made one after another. */
  function ReplaceEach(useVault: bool, vs: VaultMaps, d: seq<Finding>): (w: Rewriting)
    ensures |w.replacements| == |d|
    decreases |d|
  {
    if d == [] then Rewriting(vs, [])
    else
      var w := ReplaceEach(useVault, vs, d[..|d| - 1]);
      var (vs', x) := ReplaceOne(useVault, w.maps, d[|d| - 1]);
      Rewriting(vs', w.replacements + [x])
  }

  lemma ReplaceSnoc(useVault: bool, vs: VaultMaps, d: seq<Finding>, j: nat)
    requires j < |d|
    ensures var w := ReplaceEach(useVault, vs, d[..j]);
            var (vs', x) := ReplaceOne(useVault, w.maps, d[j]);
            ReplaceEach(useVault, vs, d[..j + 1]) == Rewriting(vs', w.replacements + [x])
  {
    assert d[..j + 1][..j] == d[..j];
  }

  /** Without a vault the replacements are the masks. */
  lemma {:induction false} ReplaceMasks(vs: VaultMaps, d: seq<Finding>)
    ensures ReplaceEach(false, vs, d) == Rewriting(vs, Masks(d))
    decreases |d|
  {
    if d != [] {
      ReplaceMasks(vs, d[..|d| - 1]);
      assert Masks(d) == Masks(d[..|d| - 1]) + [Mask(d[|d| - 1])];
    }
  }

  lemma TokenizeSnoc(vs: VaultMaps, d: seq<Finding>)
    requires d != []
    ensures TokenizeAll(vs, CallsOf(d))
         == TokenizeMaps(TokenizeAll(vs, CallsOf(d[..|d| - 1])), d[|d| - 1].kind, d[|d| - 1].value)
  {
    assert CallsOf(d)[..|d| - 1] == CallsOf(d[..|d| - 1]);
  }

  /** One more finding, tokenised after all others. */
  lemma TokenizedNext(maps: VaultMaps, d: seq<Finding>)
    requires d != [] && Tokenized(maps, d[..|d| - 1])
    ensures var f := d[|d| - 1];
            var next := TokenizeMaps(maps, f.kind, f.value);
            Tokenized(next, d) && Tokens(next, d) == Tokens(maps, d[..|d| - 1]) + [Token(next, f.kind, f.value)]
  {
    var f := d[|d| - 1];
    TokensStay(maps, d[..|d| - 1], f.kind, f.value);
    TokensSnoc(TokenizeMaps(maps, f.kind, f.value), d);
  }

  /** With a vault they are the tokens, and the vault has seen exactly those calls. */
  lemma {:induction false} ReplaceTokens(vs: VaultMaps, d: seq<Finding>)
    ensures var w := ReplaceEach(true, vs, d);
            && w.maps == TokenizeAll(vs, CallsOf(d))
            && Tokenized(w.maps, d) && w.replacements == Tokens(w.maps, d)
    decreases |d|
  {
    if d != [] {
      ReplaceTokens(vs, d[..|d| - 1]);
      TokenizeSnoc(vs, d);
      TokenizedNext(ReplaceEach(true, vs, d[..|d| - 1]).maps, d);
    }
  }

  class BuiltinWarden {
    var mode: Mode

    constructor ()
      ensures mode == RedactMode
    {
      mode := RedactMode;
    }

    method UpdateConfig(mode: Mode)
      modifies this
      ensures this.mode == mode
    {
      this.mode := mode;
    }

    method Replacement(f: Finding, vault: BuiltinVault?) returns (r: Bytes)
      modifies vault
      ensures (MapsOf(vault), r) == ReplaceOne(mode == TokenizeMode && vault != null, old(MapsOf(vault)), f)
      ensures mode != TokenizeMode || vault == null ==> r == Mask(f) && MapsOf(vault) == old(MapsOf(vault))
    {
      if mode == TokenizeMode && vault != null {
        r := vault.Tokenize(f.kind.category, f.kind.typ, f.value);
      } else {
        r := Mask(f);
      }
    }

    /** Acted-on spans are replaced one after another, by their vault tokens or masks. An offset outside the text
        as it has become panics; a span whose ends are in the wrong order does not. Spans that lie apart never panic,
        and are replaced as if all at once: all other bytes are kept. */
    method Sanitize(text: Bytes, findings: seq<Finding>, vault: BuiltinVault?)
      returns (out: Bytes, acted: seq<Finding>, panicked: bool)
      modifies vault
      ensures multiset(acted) == multiset(Actionable(findings))
      ensures mode == BlockOnlyMode ==> !panicked && out == text && MapsOf(vault) == old(MapsOf(vault))
      ensures mode != BlockOnlyMode ==>
                var w := ReplaceEach(mode == TokenizeMode && vault != null, old(MapsOf(vault)), acted);
                && SortedDescending(acted)
                && (!panicked <==> AllSpansFit(text, acted, w.replacements))
                && (!panicked ==> MapsOf(vault) == w.maps && out == Splice(text, acted, w.replacements))
                && (RightToLeft(text, acted) ==> !panicked && out == Substitute(text, |text|, acted, w.replacements))
                && (Placed(text, Actionable(findings)) ==> RightToLeft(text, acted))
    {
      var toRewrite := FilterActionable(findings);
      panicked := false;
      if |toRewrite| == 0 || mode == BlockOnlyMode {
        assert text[..|text|] == text;
        return text, toRewrite, false;
      }
      acted := SortDescending(toRewrite);
      if Placed(text, toRewrite) {
        PlacedRightToLeft(text, toRewrite, acted);
      }
      ghost var w := ReplaceEach(mode == TokenizeMode && vault != null, MapsOf(vault), acted);
      SpliceMeans(text, acted, w.replacements);
      out, panicked := Rewrite(text, acted, vault);
    }

    method Rewrite(text: Bytes, acted: seq<Finding>, vault: BuiltinVault?) returns (out: Bytes, panicked: bool)
      modifies vault
      ensures var w := ReplaceEach(mode == TokenizeMode && vault != null, old(MapsOf(vault)), acted);
              && (!panicked <==> AllSpansFit(text, acted, w.replacements))
              && (!panicked ==> MapsOf(vault) == w.maps && out == Splice(text, acted, w.replacements))
    {
      out := text;
      ghost var maps0, useVault := MapsOf(vault), mode == TokenizeMode && vault != null;
      var j := 0;
      while j < |acted|
        invariant 0 <= j <= |acted|
        invariant Rewritten(useVault, maps0, text, acted, j, MapsOf(vault), out)
      {
        var f := acted[j];
        ghost var maps := MapsOf(vault);
        if !EndsWithin(f, out) {
          NotAllFit(useVault, maps0, text, acted, j, maps, out);
          return out, true;
        }
        var replacement := Replacement(f, vault);
        RewriteNext(useVault, maps0, text, acted, j, maps, out, MapsOf(vault), replacement);
        out := SpliceOne(out, f, replacement);
        j := j + 1;
      }
      AllRewritten(useVault, maps0, text, acted, MapsOf(vault), out);
      return out, false;
    }
  }

  /** The first `j` findings are rewritten: the vault and the text have come so far, and all spans fitted. */
  ghost predicate Rewritten(useVault: bool, maps0: VaultMaps, text: Bytes, d: seq<Finding>, j: nat, maps: VaultMaps, out: Bytes)
    requires j <= |d|
  {
    var all := ReplaceEach(useVault, maps0, d).replacements;
    && maps == ReplaceEach(useVault, maps0, d[..j]).maps
    && out == Splice(text, d[..j], all[..j])
    && FitUpTo(text, d, all, j)
  }

  lemma NotAllFit(useVault: bool, maps0: VaultMaps, text: Bytes, d: seq<Finding>, j: nat, maps: VaultMaps, out: Bytes)
    requires j < |d| && Rewritten(useVault, maps0, text, d, j, maps, out) && !EndsWithin(d[j], out)
    ensures !AllSpansFit(text, d, ReplaceEach(useVault, maps0, d).replacements)
  {
    assert !FitsAt(text, d, ReplaceEach(useVault, maps0, d).replacements, j);
  }

  lemma AllRewritten(useVault: bool, maps0: VaultMaps, text: Bytes, d: seq<Finding>, maps: VaultMaps, out: Bytes)
    requires Rewritten(useVault, maps0, text, d, |d|, maps, out)
    ensures var w := ReplaceEach(useVault, maps0, d);
            maps == w.maps && out == Splice(text, d, w.replacements) && AllSpansFit(text, d, w.replacements)
  {
    assert d[..|d|] == d;
    var all := ReplaceEach(useVault, maps0, d).replacements;
    assert all[..|d|] == all;
  }

  lemma RewriteNext(useVault: bool, maps0: VaultMaps, text: Bytes, d: seq<Finding>, j: nat,
                    maps: VaultMaps, out: Bytes, maps': VaultMaps, x: Bytes)
    requires j < |d| && Rewritten(useVault, maps0, text, d, j, maps, out) && EndsWithin(d[j], out)
    requires (maps', x) == ReplaceOne(useVault, maps, d[j])
    ensures Rewritten(useVault, maps0, text, d, j + 1, maps', SpliceOne(out, d[j], x))
  {
    NextReplacement(useVault, maps0, d, j);
    SpliceNext(text, d, ReplaceEach(useVault, maps0, d).replacements, j, x);
  }

  /** Both ends of span `j` lie in the text as the earlier replacements have left it. */
  predicate FitsAt(text: Bytes, d: seq<Finding>, r: seq<Bytes>, j: nat)
    requires |r| == |d| && j < |d|
  {
    EndsWithin(d[j], Splice(text, d[..j], r[..j]))
  }

  ghost predicate FitUpTo(text: Bytes, d: seq<Finding>, r: seq<Bytes>, n: nat)
    requires |r| == |d| && n <= |d|
  {
    forall j :: 0 <= j < n ==> FitsAt(text, d, r, j)
  }

  ghost predicate AllSpansFit(text: Bytes, d: seq<Finding>, r: seq<Bytes>)
    requires |r| == |d|
  {
    FitUpTo(text, d, r, |d|)
  }

  lemma SpliceNext(text: Bytes, d: seq<Finding>, r: seq<Bytes>, j: nat, x: Bytes)
    requires |r| == |d| && j < |d| && FitUpTo(text, d, r, j) && FitsAt(text, d, r, j) && r[..j + 1] == r[..j] + [x]
    ensures FitUpTo(text, d, r, j + 1)
    ensures var t := Splice(text, d[..j], r[..j]);
            Splice(text, d[..j + 1], r[..j + 1]) == SpliceOne(t, d[j], x)
  {
    SpliceSnoc(text, d, r[..j], j, x);
  }

  /** The replacements of a prefix are a prefix of the replacements. */
  lemma {:induction false} ReplacePrefix(useVault: bool, vs: VaultMaps, d: seq<Finding>, j: nat)
    requires j <= |d|
    ensures ReplaceEach(useVault, vs, d).replacements[..j] == ReplaceEach(useVault, vs, d[..j]).replacements
    decreases |d|
  {
    if j == |d| {
      assert d[..j] == d;
    } else {
      var init := d[..|d| - 1];
      ReplacePrefix(useVault, vs, init, j);
      assert init[..j] == d[..j];
    }
  }

  lemma NextReplacement(useVault: bool, vs: VaultMaps, d: seq<Finding>, j: nat)
    requires j < |d|
    ensures var all := ReplaceEach(useVault, vs, d).replacements;
            var (vs', x) := ReplaceOne(useVault, ReplaceEach(useVault, vs, d[..j]).maps, d[j]);
            all[..j + 1] == all[..j] + [x] && ReplaceEach(useVault, vs, d[..j + 1]).maps == vs'
  {
    ReplacePrefix(useVault, vs, d, j);
    ReplacePrefix(useVault, vs, d, j + 1);
    ReplaceSnoc(useVault, vs, d, j);
  }

  /** Spans from right to left always fit, and splicing them is substituting them all at once. */
  lemma SpliceMeans(text: Bytes, d: seq<Finding>, r: seq<Bytes>)
    requires |r| == |d|
    ensures RightToLeft(text, d) ==> AllSpansFit(text, d, r) && Splice(text, d, r) == Substitute(text, |text|, d, r)
  {
    if RightToLeft(text, d) {
      forall j | 0 <= j < |d|
        ensures FitsAt(text, d, r, j)
      {
        SpliceFits(text, d, r[..j], j);
      }
      SpliceIsSubstitution(text, d, r);
    }
  }

  ghost function MapsOf(vault: BuiltinVault?): VaultMaps
    reads vault
  {
    if vault == null then EMPTY else vault.Maps()
  }

  lemma SpliceSnoc(text: Bytes, d: seq<Finding>, r: seq<Bytes>, j: nat, x: Bytes)
    requires j == |r| < |d| && EndsWithin(d[j], Splice(text, d[..j], r))
    ensures var t := Splice(text, d[..j], r);
            Splice(text, d[..j + 1], r + [x]) == SpliceOne(t, d[j], x)
  {
    assert d[..j + 1][..j] == d[..j] && (r + [x])[..j] == r;
  }

  /** The text spliced so far still has the next span where it was. */
  lemma SpliceFits(text: Bytes, d: seq<Finding>, r: seq<Bytes>, j: nat)
    requires RightToLeft(text, d) && j == |r| < |d|
    ensures EndsWithin(d[j], Splice(text, d[..j], r))
  {
    assert r + [[]] != [] && (r + [[]])[..j] == r && d[..j + 1][..j] == d[..j];
    NextFits(text, d[..j + 1], r + [[]], d[..j], r);
  }

  lemma NextFits(text: Bytes, d: seq<Finding>, r: seq<Bytes>, d': seq<Finding>, r': seq<Bytes>)
    requires |d| == |r| > 0 && RightToLeft(text, d) && d' == d[..|d| - 1] && r' == r[..|d| - 1]
    ensures EndsWithin(d[|d| - 1], Splice(text, d', r'))
  {
    SpliceIsSubstitution(text, d', r');
    SubstituteSnoc(text, |text|, d, r);
  }

  method FilterActionable(findings: seq<Finding>) returns (r: seq<Finding>)
    ensures r == Actionable(findings)
  {
    r := [];
    for i := 0 to |findings|
      invariant r == Actionable(findings[..i])
    {
      var f := findings[i];
      assert findings[..i + 1][..i] == findings[..i];
      if f.verdict == Allow || f.verdict == Log {
        continue;
      }
      r := r + [f];
    }
    assert findings[..|findings|] == findings;
  }
}
