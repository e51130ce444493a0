/** The per-request token vault: minting, lookup, and why the two tables are inverse. */
module Vault {
  import opened ByteStrings
  import opened TokenPattern
  import opened Resolve
  import opened Decimals

  datatype Category = Secret | PII | Injection | Jailbreak | Unknown

  function CategoryName(c: Category): string {
    match c
    case Secret => "secret"
    case PII => "pii"
    case Injection => "injection"
    case Jailbreak => "jailbreak"
    case Unknown => "unknown"
  }

  /** What a detector reports: a category and a detector-specific type label. */
  datatype Kind = Kind(category: Category, typ: string)

  const BAR: byte := 0x7C

  function Ascii(s: string): (b: Bytes)
    ensures |b| == |s|
  {
    seq(|s|, i requires 0 <= i < |s| => (s[i] as int) % 0x100)
  }

  function UpperChar(c: char): char {
    if 'a' <= c <= 'z' then (c as int - 32) as char else c
  }

  function ToUpper(s: string): (u: string)
    ensures |u| == |s|
  {
    seq(|s|, i requires 0 <= i < |s| => UpperChar(s[i]))
  }

  function CounterKey(k: Kind): Bytes {
    Ascii(CategoryName(k.category)) + [BAR] + Ascii(k.typ)
  }

  function ValueKey(k: Kind, value: Bytes): Bytes {
    CounterKey(k) + [BAR] + value
  }

  /** The `n`-th token of kind `k`. */
  function Mint(k: Kind, n: nat): Bytes {
    TokenText(Ascii(ToUpper(k.typ)), Pad3(n))
  }

  datatype VaultMaps = VaultMaps(valueToToken: map<Bytes, Bytes>, tokenToValue: Restore, counters: map<Bytes, nat>)

  const EMPTY := VaultMaps(map[], map[], map[])

  function CountAt(vs: VaultMaps, counterKey: Bytes): nat {
    if counterKey in vs.counters then vs.counters[counterKey] else 0
  }

  function Count(vs: VaultMaps, k: Kind): nat {
    CountAt(vs, CounterKey(k))
  }

  /** Records `tok` for a value seen for the first time. */
  function Record(vs: VaultMaps, valueKey: Bytes, counterKey: Bytes, tok: Bytes, value: Bytes): VaultMaps {
    VaultMaps(vs.valueToToken[valueKey := tok],
              vs.tokenToValue[tok := value],
              vs.counters[counterKey := CountAt(vs, counterKey) + 1])
  }

  function TokenizeMaps(vs: VaultMaps, k: Kind, value: Bytes): VaultMaps {
    if ValueKey(k, value) in vs.valueToToken then vs
    else Record(vs, ValueKey(k, value), CounterKey(k), Mint(k, Count(vs, k) + 1), value)
  }

  function Token(vs: VaultMaps, k: Kind, value: Bytes): Bytes
    requires ValueKey(k, value) in vs.valueToToken
  {
    vs.valueToToken[ValueKey(k, value)]
  }

  class BuiltinVault {
    var valueToToken: map<Bytes, Bytes>
    var tokenToValue: Restore
    var counters: map<Bytes, nat>

    ghost function Maps(): VaultMaps
      reads this
    {
      VaultMaps(valueToToken, tokenToValue, counters)
    }

    constructor ()
      ensures Maps() == EMPTY
    {
      valueToToken, tokenToValue, counters := map[], map[], map[];
    }

    method Tokenize(category: Category, typ: string, value: Bytes) returns (tok: Bytes)
      modifies this
      ensures Maps() == TokenizeMaps(old(Maps()), Kind(category, typ), value)
      ensures ValueKey(Kind(category, typ), value) in valueToToken
      ensures tok == Token(Maps(), Kind(category, typ), value)
    {
      var k := Kind(category, typ);
      var valueKey := ValueKey(k, value);
      if valueKey in valueToToken {
        return valueToToken[valueKey];
      }
      var counterKey := CounterKey(k);
      counters := counters[counterKey := (if counterKey in counters then counters[counterKey] else 0) + 1];
      tok := Mint(k, counters[counterKey]);
      valueToToken := valueToToken[valueKey := tok];
      tokenToValue := tokenToValue[tok := value];
    }

    /** Skips the rewrite when the table is empty or no bracket opens; the result is the same. */
    method Resolve(text: Bytes) returns (out: Bytes)
      ensures out == ResolveAll(tokenToValue, text)
    {
      if |tokenToValue| == 0 || !Occurs(text, OPEN) {
        if Occurs(text, OPEN) {
          ResolveEmpty(tokenToValue, text);
        } else {
          ResolvePlain(tokenToValue, text);
        }
        return text;
      }
      return ResolveAll(tokenToValue, text);
    }
  }

  lemma TakeDrop(s: Bytes, n: nat)
    requires n <= |s|
    ensures s[..n] + s[n..] == s
  {
  }

  lemma {:induction false} ResolveEmpty(m: Restore, s: Bytes)
    requires m == map[]
    ensures ResolveAll(m, s) == s
    decreases |s|
  {
    if s != [] {
      var n := HeadLen(s);
      ResolveStep(m, s);
      ResolveEmpty(m, s[n..]);
      assert Head(m, s) == s[..n];
      TakeDrop(s, n);
    }
  }

  // ----- which kinds the vault is built for -----

  predicate IsTypeChar(c: char) {
    'a' <= c <= 'z' || 'A' <= c <= 'Z' || c == '_'
  }

  /** A type label that upper-cases to a label of the token pattern and keeps tokens short. */
  predicate GoodKind(k: Kind) {
    0 < |k.typ| <= 55 && forall i :: 0 <= i < |k.typ| ==> IsTypeChar(k.typ[i])
  }

  /** Good kinds, no two of which share an upper-cased label. */
  ghost predicate Disciplined(kinds: set<Kind>) {
    && (forall k :: k in kinds ==> GoodKind(k))
    && (forall k, k' :: k in kinds && k' in kinds && ToUpper(k.typ) == ToUpper(k'.typ) ==> k == k')
  }

  lemma AsciiInjective(s: string, t: string)
    requires forall i :: 0 <= i < |s| ==> s[i] as int < 0x100
    requires forall i :: 0 <= i < |t| ==> t[i] as int < 0x100
    requires Ascii(s) == Ascii(t)
    ensures s == t
  {
    forall i | 0 <= i < |s|
      ensures s[i] == t[i]
    {
      assert Ascii(s)[i] == Ascii(t)[i];
    }
  }

  /** A separator that neither left part contains splits a string one way only. */
  lemma SplitUnique(a: Bytes, b: Bytes, a': Bytes, b': Bytes, sep: byte)
    requires sep !in a && sep !in a'
    requires a + [sep] + b == a' + [sep] + b'
    ensures a == a' && b == b'
  {
    var s := a + [sep] + b;
    assert s[|a|] == sep && s[|a'|] == sep;
    assert forall i :: 0 <= i < |a| ==> s[i] == a[i] && a[i] != sep;
    assert forall i :: 0 <= i < |a'| ==> s[i] == a'[i] && a'[i] != sep;
    assert s[..|a|] == a && s[..|a'|] == a';
    assert s[|a| + 1..] == b && s[|a'| + 1..] == b';
  }

  lemma GoodTypeBytes(k: Kind)
    requires GoodKind(k)
    ensures BAR !in Ascii(k.typ) && BAR !in Ascii(CategoryName(k.category))
    ensures IsLabel(Ascii(ToUpper(k.typ)))
    ensures forall i :: 0 <= i < |ToUpper(k.typ)| ==> ToUpper(k.typ)[i] as int < 0x100
  {
    var typ, up, name := Ascii(k.typ), ToUpper(k.typ), CategoryName(k.category);
    assert forall i :: 0 <= i < |typ| ==> IsTypeChar(k.typ[i]) && typ[i] == k.typ[i] as int;
    assert forall i :: 0 <= i < |up| ==> IsTypeChar(k.typ[i]) && up[i] == UpperChar(k.typ[i]);
    assert forall i :: 0 <= i < |name| ==> IsTypeChar(name[i]) && Ascii(name)[i] == name[i] as int;
  }

  lemma CounterKeyInjective(k: Kind, k': Kind)
    requires GoodKind(k) && GoodKind(k') && CounterKey(k) == CounterKey(k')
    ensures k == k'
  {
    GoodTypeBytes(k);
    GoodTypeBytes(k');
    SplitUnique(Ascii(CategoryName(k.category)), Ascii(k.typ),
                Ascii(CategoryName(k'.category)), Ascii(k'.typ), BAR);
    KindBytesInjective(k, k');
  }

  lemma ThreePartsUnique(c: Bytes, t: Bytes, v: Bytes, c': Bytes, t': Bytes, v': Bytes, sep: byte)
    requires sep !in c && sep !in c' && sep !in t && sep !in t'
    requires c + [sep] + t + [sep] + v == c' + [sep] + t' + [sep] + v'
    ensures c == c' && t == t' && v == v'
  {
    assert c + [sep] + (t + [sep] + v) == c + [sep] + t + [sep] + v;
    assert c' + [sep] + (t' + [sep] + v') == c' + [sep] + t' + [sep] + v';
    SplitUnique(c, t + [sep] + v, c', t' + [sep] + v', sep);
    SplitUnique(t, v, t', v', sep);
  }

  lemma ValueKeyInjective(k: Kind, v: Bytes, k': Kind, v': Bytes)
    requires GoodKind(k) && GoodKind(k')
    ensures ValueKey(k, v) == ValueKey(k', v') ==> k == k' && v == v'
    ensures CounterKey(k) == CounterKey(k') ==> k == k'
  {
    if CounterKey(k) == CounterKey(k') {
      CounterKeyInjective(k, k');
    }
    if ValueKey(k, v) == ValueKey(k', v') {
      GoodTypeBytes(k);
      GoodTypeBytes(k');
      ThreePartsUnique(Ascii(CategoryName(k.category)), Ascii(k.typ), v,
                       Ascii(CategoryName(k'.category)), Ascii(k'.typ), v', BAR);
      KindBytesInjective(k, k');
    }
  }

  lemma KindBytesInjective(k: Kind, k': Kind)
    requires GoodKind(k) && GoodKind(k')
    requires Ascii(CategoryName(k.category)) == Ascii(CategoryName(k'.category)) && Ascii(k.typ) == Ascii(k'.typ)
    ensures k == k'
  {
    AsciiInjective(CategoryName(k.category), CategoryName(k'.category));
    AsciiInjective(k.typ, k'.typ);
    assert CategoryName(k.category)[..2] == CategoryName(k'.category)[..2];
  }

  lemma LabelHasNoColon(u: Bytes)
    requires IsLabel(u)
    ensures COLON !in u
  {
  }

  lemma TokenTextTail(u: Bytes, d: Bytes)
    ensures TokenText(u, d)[3..] == u + [COLON] + (d + CLOSE)
    ensures (d + CLOSE)[..|d + CLOSE| - 3] == d
  {
  }

  /** A token's label and number can be read off it. */
  lemma TokenTextInjective(u: Bytes, d: Bytes, u': Bytes, d': Bytes)
    requires IsLabel(u) && IsLabel(u') && TokenText(u, d) == TokenText(u', d')
    ensures u == u' && d == d'
  {
    TokenTextTail(u, d);
    TokenTextTail(u', d');
    LabelHasNoColon(u);
    LabelHasNoColon(u');
    SplitUnique(u, d + CLOSE, u', d' + CLOSE, COLON);
  }

  /** Tokens of good kinds are told apart by label and number. */
  lemma MintInjective(k: Kind, n: nat, k': Kind, n': nat)
    requires GoodKind(k) && GoodKind(k') && Mint(k, n) == Mint(k', n')
    ensures ToUpper(k.typ) == ToUpper(k'.typ) && n == n'
  {
    GoodTypeBytes(k);
    GoodTypeBytes(k');
    TokenTextInjective(Ascii(ToUpper(k.typ)), Pad3(n), Ascii(ToUpper(k'.typ)), Pad3(n'));
    AsciiInjective(ToUpper(k.typ), ToUpper(k'.typ));
    ParsePad3(n);
    ParsePad3(n');
  }

  lemma TokenTextIsToken(u: Bytes, d: Bytes)
    requires IsLabel(u)
    ensures IsToken(TokenText(u, d)) <==> IsNumber(d)
  {
    if IsToken(TokenText(u, d)) {
      var u', d' :| IsLabel(u') && IsNumber(d') && TokenText(u, d) == TokenText(u', d');
      TokenTextInjective(u, d, u', d');
    }
  }

  /** A minted token matches the pattern exactly while the counter fits in three digits. */
  lemma MintIsToken(k: Kind, n: nat)
    requires GoodKind(k)
    ensures IsToken(Mint(k, n)) <==> n <= 999
  {
    GoodTypeBytes(k);
    Pad3Width(n);
    TokenTextIsToken(Ascii(ToUpper(k.typ)), Pad3(n));
  }
}
