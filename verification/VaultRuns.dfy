/** What every run of `Tokenize` calls keeps: the two tables stay inverse, and
    the counters count distinct values. */
module VaultRuns {
  import opened ByteStrings
  import opened TokenPattern
  import opened Resolve
  import opened Decimals
  import opened Vault
  import opened Drain

  datatype Call = Call(kind: Kind, value: Bytes)

  /** The vault after `calls`, starting from `vs`. */
  function TokenizeAll(vs: VaultMaps, calls: seq<Call>): VaultMaps
    decreases |calls|
  {
    if calls == [] then vs
    else
      var c := calls[|calls| - 1];
      TokenizeMaps(TokenizeAll(vs, calls[..|calls| - 1]), c.kind, c.value)
  }

  /** `v` is the `n`-th value counted under `counterKey`, and both tables say so. */
  ghost predicate EntryAt(vs: VaultMaps, valueKey: Bytes, counterKey: Bytes, tok: Bytes, v: Bytes, n: nat) {
    && 1 <= n <= CountAt(vs, counterKey)
    && valueKey in vs.valueToToken && vs.valueToToken[valueKey] == tok
    && tok in vs.tokenToValue && vs.tokenToValue[tok] == v
  }

  ghost predicate Entry(vs: VaultMaps, k: Kind, v: Bytes, n: nat) {
    EntryAt(vs, ValueKey(k, v), CounterKey(k), Mint(k, n), v, n)
  }

  ghost predicate KeyNamed(vs: VaultMaps, kinds: set<Kind>, key: Bytes) {
    exists k, v, n :: k in kinds && key == ValueKey(k, v) && Entry(vs, k, v, n)
  }

  ghost predicate TokenNamed(vs: VaultMaps, kinds: set<Kind>, tok: Bytes) {
    exists k, v, n :: k in kinds && tok == Mint(k, n) && Entry(vs, k, v, n)
  }

  /** The two tables are inverse: every row of either is an entry. */
  ghost predicate Inverse(vs: VaultMaps, kinds: set<Kind>) {
    && (forall key :: key in vs.valueToToken ==> KeyNamed(vs, kinds, key))
    && (forall tok :: tok in vs.tokenToValue ==> TokenNamed(vs, kinds, tok))
  }

  lemma EntryUnique(vs: VaultMaps, kinds: set<Kind>, k: Kind, v: Bytes)
    returns (n: nat)
    requires Disciplined(kinds) && Inverse(vs, kinds) && k in kinds
    requires ValueKey(k, v) in vs.valueToToken
    ensures Entry(vs, k, v, n)
  {
    var k', v', n' :| k' in kinds && ValueKey(k, v) == ValueKey(k', v') && Entry(vs, k', v', n');
    ValueKeyInjective(k, v, k', v');
    n := n';
  }

  lemma MintNamesOne(kinds: set<Kind>, k: Kind, n: nat, k': Kind, n': nat)
    requires Disciplined(kinds) && k in kinds && k' in kinds && Mint(k, n) == Mint(k', n')
    ensures k == k' && n == n'
  {
    MintInjective(k, n, k', n');
  }

  lemma OldTokenCounted(vs: VaultMaps, kinds: set<Kind>, k: Kind, n: nat)
    requires Disciplined(kinds) && k in kinds && TokenNamed(vs, kinds, Mint(k, n))
    ensures n <= Count(vs, k)
  {
    var k', v', n' :| k' in kinds && Mint(k, n) == Mint(k', n') && Entry(vs, k', v', n');
    MintNamesOne(kinds, k, n, k', n');
  }

  /** A fresh token is not in the table yet. */
  lemma FreshToken(vs: VaultMaps, kinds: set<Kind>, k: Kind)
    requires Disciplined(kinds) && Inverse(vs, kinds) && k in kinds
    ensures Mint(k, Count(vs, k) + 1) !in vs.tokenToValue
  {
    if Mint(k, Count(vs, k) + 1) in vs.tokenToValue {
      OldTokenCounted(vs, kinds, k, Count(vs, k) + 1);
      assert false;
    }
  }

  lemma RecordKeeps(vs: VaultMaps, valueKey: Bytes, counterKey: Bytes, tok: Bytes, value: Bytes,
                    valueKey': Bytes, counterKey': Bytes, tok': Bytes, v': Bytes, n': nat)
    requires valueKey !in vs.valueToToken && tok !in vs.tokenToValue
    requires EntryAt(vs, valueKey', counterKey', tok', v', n')
    ensures EntryAt(Record(vs, valueKey, counterKey, tok, value), valueKey', counterKey', tok', v', n')
  {
  }

  lemma EntryKept(vs: VaultMaps, kinds: set<Kind>, k: Kind, value: Bytes, k': Kind, v': Bytes, n': nat)
    requires Disciplined(kinds) && Inverse(vs, kinds) && k in kinds && k' in kinds
    requires Entry(vs, k', v', n')
    ensures Entry(TokenizeMaps(vs, k, value), k', v', n')
  {
    if ValueKey(k, value) !in vs.valueToToken {
      FreshToken(vs, kinds, k);
      RecordKeeps(vs, ValueKey(k, value), CounterKey(k), Mint(k, Count(vs, k) + 1), value,
                  ValueKey(k', v'), CounterKey(k'), Mint(k', n'), v', n');
    }
  }

  lemma RecordAdds(vs: VaultMaps, valueKey: Bytes, counterKey: Bytes, tok: Bytes, value: Bytes)
    ensures EntryAt(Record(vs, valueKey, counterKey, tok, value), valueKey, counterKey, tok, value,
                    CountAt(vs, counterKey) + 1)
    ensures forall key :: key in Record(vs, valueKey, counterKey, tok, value).valueToToken ==>
                            key == valueKey || key in vs.valueToToken
    ensures forall t :: t in Record(vs, valueKey, counterKey, tok, value).tokenToValue ==>
                          t == tok || t in vs.tokenToValue
  {
  }

  lemma KeyNamedKept(vs: VaultMaps, kinds: set<Kind>, k: Kind, value: Bytes, key: Bytes)
    requires Disciplined(kinds) && Inverse(vs, kinds) && k in kinds && KeyNamed(vs, kinds, key)
    ensures KeyNamed(TokenizeMaps(vs, k, value), kinds, key)
  {
    var k', v', n' :| k' in kinds && key == ValueKey(k', v') && Entry(vs, k', v', n');
    EntryKept(vs, kinds, k, value, k', v', n');
  }

  lemma TokenNamedKept(vs: VaultMaps, kinds: set<Kind>, k: Kind, value: Bytes, tok: Bytes)
    requires Disciplined(kinds) && Inverse(vs, kinds) && k in kinds && TokenNamed(vs, kinds, tok)
    ensures TokenNamed(TokenizeMaps(vs, k, value), kinds, tok)
  {
    var k', v', n' :| k' in kinds && tok == Mint(k', n') && Entry(vs, k', v', n');
    EntryKept(vs, kinds, k, value, k', v', n');
  }

  lemma NewNamed(vs: VaultMaps, kinds: set<Kind>, k: Kind, value: Bytes)
    requires k in kinds && ValueKey(k, value) !in vs.valueToToken
    ensures KeyNamed(TokenizeMaps(vs, k, value), kinds, ValueKey(k, value))
    ensures TokenNamed(TokenizeMaps(vs, k, value), kinds, Mint(k, Count(vs, k) + 1))
  {
    var n := Count(vs, k) + 1;
    RecordAdds(vs, ValueKey(k, value), CounterKey(k), Mint(k, n), value);
    assert Entry(TokenizeMaps(vs, k, value), k, value, n);
  }

  /** Minting keeps the tables inverse. */
  lemma TokenizeInverse(vs: VaultMaps, kinds: set<Kind>, k: Kind, value: Bytes)
    requires Disciplined(kinds) && Inverse(vs, kinds) && k in kinds
    ensures Inverse(TokenizeMaps(vs, k, value), kinds)
  {
    if ValueKey(k, value) !in vs.valueToToken {
      var vs' := TokenizeMaps(vs, k, value);
      var n := Count(vs, k) + 1;
      RecordAdds(vs, ValueKey(k, value), CounterKey(k), Mint(k, n), value);
      NewNamed(vs, kinds, k, value);
      forall key | key in vs'.valueToToken
        ensures KeyNamed(vs', kinds, key)
      {
        if key != ValueKey(k, value) {
          KeyNamedKept(vs, kinds, k, value, key);
        }
      }
      forall tok | tok in vs'.tokenToValue
        ensures TokenNamed(vs', kinds, tok)
      {
        if tok != Mint(k, n) {
          TokenNamedKept(vs, kinds, k, value, tok);
        }
      }
    }
  }

  ghost predicate UsesKinds(calls: seq<Call>, kinds: set<Kind>) {
    forall i :: 0 <= i < |calls| ==> calls[i].kind in kinds
  }

  lemma {:induction false} RunInverse(vs: VaultMaps, kinds: set<Kind>, calls: seq<Call>)
    requires Disciplined(kinds) && Inverse(vs, kinds) && UsesKinds(calls, kinds)
    ensures Inverse(TokenizeAll(vs, calls), kinds)
    decreases |calls|
  {
    if calls != [] {
      var c := calls[|calls| - 1];
      RunInverse(vs, kinds, calls[..|calls| - 1]);
      TokenizeInverse(TokenizeAll(vs, calls[..|calls| - 1]), kinds, c.kind, c.value);
    }
  }

  /** Every row of both tables is still there. */
  ghost predicate Grows(vs: VaultMaps, vs': VaultMaps) {
    && (forall key :: key in vs.valueToToken ==> key in vs'.valueToToken && vs'.valueToToken[key] == vs.valueToToken[key])
    && (forall tok :: tok in vs.tokenToValue ==> tok in vs'.tokenToValue && vs'.tokenToValue[tok] == vs.tokenToValue[tok])
  }

  lemma RecordGrows(vs: VaultMaps, valueKey: Bytes, counterKey: Bytes, tok: Bytes, value: Bytes)
    requires valueKey !in vs.valueToToken && tok !in vs.tokenToValue
    ensures Grows(vs, Record(vs, valueKey, counterKey, tok, value))
  {
  }

  lemma TokenizeGrows(vs: VaultMaps, kinds: set<Kind>, k: Kind, value: Bytes)
    requires Disciplined(kinds) && Inverse(vs, kinds) && k in kinds
    ensures Grows(vs, TokenizeMaps(vs, k, value))
  {
    if ValueKey(k, value) !in vs.valueToToken {
      FreshToken(vs, kinds, k);
      RecordGrows(vs, ValueKey(k, value), CounterKey(k), Mint(k, Count(vs, k) + 1), value);
    }
  }

  /** No call ever loses or changes a row: minting never overwrites. */
  lemma {:induction false} RunGrows(vs: VaultMaps, kinds: set<Kind>, calls: seq<Call>)
    requires Disciplined(kinds) && Inverse(vs, kinds) && UsesKinds(calls, kinds)
    ensures Grows(vs, TokenizeAll(vs, calls))
    decreases |calls|
  {
    if calls != [] {
      var c, before := calls[|calls| - 1], calls[..|calls| - 1];
      RunGrows(vs, kinds, before);
      RunInverse(vs, kinds, before);
      TokenizeGrows(TokenizeAll(vs, before), kinds, c.kind, c.value);
    }
  }

  /** The same value of the same kind always gets the same token, and only that value does; the token names it. */
  lemma TokensNameValues(vs: VaultMaps, kinds: set<Kind>, k: Kind, v: Bytes, k': Kind, v': Bytes)
    requires Disciplined(kinds) && Inverse(vs, kinds) && k in kinds && k' in kinds
    requires ValueKey(k, v) in vs.valueToToken && ValueKey(k', v') in vs.valueToToken
    ensures Token(vs, k, v) == Token(vs, k', v') <==> k == k' && v == v'
    ensures Token(vs, k, v) in vs.tokenToValue && vs.tokenToValue[Token(vs, k, v)] == v
  {
    var n := EntryUnique(vs, kinds, k, v);
    var n' := EntryUnique(vs, kinds, k', v');
    if Token(vs, k, v) == Token(vs, k', v') {
      MintInjective(k, n, k', n');
    }
  }

  // ----- counters -----

  function ValuesOf(calls: seq<Call>, k: Kind): set<Bytes> {
    set i | 0 <= i < |calls| && calls[i].kind == k :: calls[i].value
  }

  lemma ValuesOfLast(calls: seq<Call>, k: Kind)
    requires calls != []
    ensures var c := calls[|calls| - 1];
            ValuesOf(calls, k) == ValuesOf(calls[..|calls| - 1], k) + (if c.kind == k then {c.value} else {})
  {
    var c, before := calls[|calls| - 1], calls[..|calls| - 1];
    forall v
      ensures v in ValuesOf(calls, k) <==> v in ValuesOf(before, k) || (c.kind == k && v == c.value)
    {
      if v in ValuesOf(calls, k) {
        var i :| 0 <= i < |calls| && calls[i].kind == k && calls[i].value == v;
        assert i < |before| ==> before[i] == calls[i];
      }
      if v in ValuesOf(before, k) {
        var i :| 0 <= i < |before| && before[i].kind == k && before[i].value == v;
        assert calls[i] == before[i];
      }
    }
  }

  ghost predicate CountedKind(vs: VaultMaps, values: set<Bytes>, k: Kind) {
    && Count(vs, k) == |values|
    && forall v :: v in values <==> ValueKey(k, v) in vs.valueToToken
  }

  ghost predicate Counted(vs: VaultMaps, calls: seq<Call>, kinds: set<Kind>) {
    forall k :: k in kinds ==> CountedKind(vs, ValuesOf(calls, k), k)
  }

  lemma TokenizeCounts(vs: VaultMaps, values: set<Bytes>, k: Kind, kind: Kind, value: Bytes)
    requires GoodKind(k) && GoodKind(kind) && CountedKind(vs, values, k)
    ensures CountedKind(TokenizeMaps(vs, kind, value), values + (if kind == k then {value} else {}), k)
  {
    forall v
      ensures ValueKey(kind, value) == ValueKey(k, v) ==> kind == k && value == v
    {
      ValueKeyInjective(kind, value, k, v);
    }
    if kind == k && value !in values {
      assert |values + {value}| == |values| + 1;
    } else if kind == k {
      assert values + {value} == values;
    } else {
      ValueKeyInjective(kind, value, k, value);
      assert values + {} == values;
    }
  }

  /** After any run, a kind's counter is the number of its distinct values. */
  lemma {:induction false} CountersCountValues(kinds: set<Kind>, calls: seq<Call>)
    requires Disciplined(kinds) && UsesKinds(calls, kinds)
    ensures Counted(TokenizeAll(EMPTY, calls), calls, kinds)
    decreases |calls|
  {
    if calls == [] {
      assert forall k :: ValuesOf(calls, k) == {};
    } else {
      var c, before := calls[|calls| - 1], calls[..|calls| - 1];
      CountersCountValues(kinds, before);
      forall k | k in kinds
        ensures CountedKind(TokenizeAll(EMPTY, calls), ValuesOf(calls, k), k)
      {
        ValuesOfLast(calls, k);
        TokenizeCounts(TokenizeAll(EMPTY, before), ValuesOf(before, k), k, c.kind, c.value);
      }
    }
  }

  lemma InValuesOf(calls: seq<Call>, i: nat)
    requires i < |calls|
    ensures calls[i].value in ValuesOf(calls, calls[i].kind)
  {
  }

  /** How many distinct values of kind `k` were tokenised up to and with the first call for `v`. */
  function Rank(calls: seq<Call>, k: Kind, v: Bytes): nat
    requires v in ValuesOf(calls, k)
    decreases |calls|
  {
    if v in ValuesOf(calls[..|calls| - 1], k) then Rank(calls[..|calls| - 1], k, v) else |ValuesOf(calls, k)|
  }

  /** A value tokenised for the first time takes the next number of its kind. */
  lemma FirstNumber(kinds: set<Kind>, before: seq<Call>, c: Call)
    requires Disciplined(kinds) && UsesKinds(before, kinds) && c.kind in kinds && c.value !in ValuesOf(before, c.kind)
    ensures Entry(TokenizeMaps(TokenizeAll(EMPTY, before), c.kind, c.value), c.kind, c.value,
                  |ValuesOf(before, c.kind)| + 1)
  {
    var vs, k := TokenizeAll(EMPTY, before), c.kind;
    CountersCountValues(kinds, before);
    assert CountedKind(vs, ValuesOf(before, k), k);
    RecordAdds(vs, ValueKey(k, c.value), CounterKey(k), Mint(k, Count(vs, k) + 1), c.value);
  }

  lemma NewValue(calls: seq<Call>, k: Kind, v: Bytes)
    requires v in ValuesOf(calls, k) && v !in ValuesOf(calls[..|calls| - 1], k)
    ensures calls[|calls| - 1] == Call(k, v)
    ensures |ValuesOf(calls, k)| == |ValuesOf(calls[..|calls| - 1], k)| + 1
  {
    ValuesOfLast(calls, k);
  }

  /** The number in a value's token is its rank among its kind's values. */
  lemma {:induction false} NumberIsRank(kinds: set<Kind>, calls: seq<Call>, k: Kind, v: Bytes)
    requires Disciplined(kinds) && UsesKinds(calls, kinds) && k in kinds && v in ValuesOf(calls, k)
    ensures Entry(TokenizeAll(EMPTY, calls), k, v, Rank(calls, k, v))
    decreases |calls|
  {
    var c, before := calls[|calls| - 1], calls[..|calls| - 1];
    if v in ValuesOf(before, k) {
      NumberIsRank(kinds, before, k, v);
      RunInverse(EMPTY, kinds, before);
      EntryKept(TokenizeAll(EMPTY, before), kinds, c.kind, c.value, k, v, Rank(before, k, v));
    } else {
      NewValue(calls, k, v);
      FirstNumber(kinds, before, c);
    }
  }

  lemma {:induction false} RankAtMost(calls: seq<Call>, k: Kind, v: Bytes)
    requires v in ValuesOf(calls, k)
    ensures Rank(calls, k, v) <= |ValuesOf(calls, k)|
    decreases |calls|
  {
    var before := calls[..|calls| - 1];
    ValuesOfLast(calls, k);
    if v in ValuesOf(before, k) {
      RankAtMost(before, k, v);
      SubsetSize(ValuesOf(before, k), ValuesOf(calls, k));
    }
  }

  lemma SubsetSize<T>(a: set<T>, b: set<T>)
    requires a <= b
    ensures |a| <= |b|
  {
    assert b == a + (b - a);
  }

  // ----- resolving what was minted -----

  /** Every vault of good kinds keeps tokens short enough for the stream resolver. */
  lemma VaultTokensShort(vs: VaultMaps, kinds: set<Kind>)
    requires Disciplined(kinds) && Inverse(vs, kinds)
    ensures ShortTokens(vs.tokenToValue)
  {
    forall tok | tok in vs.tokenToValue && IsToken(tok)
      ensures |tok| <= MAX_TOKEN_BYTES + 1
    {
      var k, v, n :| k in kinds && tok == Mint(k, n) && Entry(vs, k, v, n);
      MintIsToken(k, n);
      Pad3Width(n);
    }
  }

  /** A minted token begins with an opening bracket and ends with a closing one, token pattern or not. */
  lemma MintBrackets(k: Kind, n: nat)
    ensures var t := Mint(k, n); |t| >= 7 && OPEN <= t && t[|t| - 3..] == CLOSE
  {
  }

  lemma NoOpenInTail(u: Bytes, d: Bytes)
    requires IsLabel(u) && forall i :: 0 <= i < |d| ==> IsDigit(d[i])
    ensures !Occurs(u + [COLON] + d + CLOSE, OPEN)
  {
    var t := u + [COLON] + d + CLOSE;
    assert forall i :: 0 <= i < |t| - 3 ==> t[i] < 0x80 by {
      assert forall i :: 0 <= i < |u| ==> t[i] == u[i];
      assert forall i :: |u| < i < |t| - 3 ==> t[i] == d[i - |u| - 1];
    }
    assert t[|t| - 1] == 0xA7;
    forall i | 0 <= i <= |t|
      ensures !OccursAt(t, OPEN, i)
    {
      if OccursAt(t, OPEN, i) {
        OpenBytes(t, i);
        assert false;
      }
    }
  }

  /** After its opening bracket, a minted token holds no opening bracket. */
  lemma NoOpenInMintTail(k: Kind, n: nat)
    requires GoodKind(k)
    ensures !Occurs(Mint(k, n)[3..], OPEN)
  {
    var u, d := Ascii(ToUpper(k.typ)), Pad3(n);
    GoodTypeBytes(k);
    NoOpenInTail(u, d);
    assert TokenText(u, d)[3..] == u + [COLON] + d + CLOSE;
  }

  lemma MintMatch(k: Kind, n: nat)
    requires GoodKind(k)
    ensures TokenLen(Mint(k, n)) == if n <= 999 then |Mint(k, n)| else 0
  {
    var t := Mint(k, n);
    MintIsToken(k, n);
    assert t[..|t|] == t;
    if n <= 999 {
      TokenLenIsMatch(t, |t|);
    } else if TokenLen(t) > 0 {
      TokenInMint(k, n, TokenLen(t));
      assert false;
    }
  }

  /** A token with a number over 999 is left as it is. */
  lemma OverflowIsPlain(m: Restore, k: Kind, n: nat)
    requires GoodKind(k) && n > 999
    ensures ResolveAll(m, Mint(k, n)) == Mint(k, n)
  {
    MintMatch(k, n);
    MintBrackets(k, n);
    NoOpenInMintTail(k, n);
    CopyOpen(m, Mint(k, n));
    ResolvePlain(m, Mint(k, n)[3..]);
  }

  /** A minted token that is matched is matched as a whole: its only closing bracket is its last. */
  lemma TokenInMint(k: Kind, n: nat, p: nat)
    requires GoodKind(k) && p <= |Mint(k, n)| && IsToken(Mint(k, n)[..p])
    ensures p == |Mint(k, n)|
  {
    var t := Mint(k, n);
    var u, d := Ascii(ToUpper(k.typ)), Pad3(n);
    GoodTypeBytes(k);
    TokenShape(t[..p]);
    assert t[..p][p - 3..][0] == t[p - 3];
    assert forall i :: 3 <= i < 3 + |u| ==> t[i] == u[i - 3];
    assert forall i :: 4 + |u| <= i < |t| - 3 ==> t[i] == d[i - 4 - |u|];
    assert t[|t| - 3..][1] == t[|t| - 2] && t[|t| - 3..][2] == t[|t| - 1];
  }

  /** What a token resolves to: its value while its number has three digits, itself after that. */
  lemma MintResolves(vs: VaultMaps, kinds: set<Kind>, k: Kind, v: Bytes, n: nat)
    requires Disciplined(kinds) && k in kinds && Entry(vs, k, v, n)
    ensures ResolveAll(vs.tokenToValue, Mint(k, n)) == if n <= 999 then v else Mint(k, n)
  {
    MintIsToken(k, n);
    if n <= 999 {
      ResolveToken(vs.tokenToValue, Mint(k, n));
    } else {
      OverflowIsPlain(vs.tokenToValue, k, n);
    }
  }

  // ----- kinds that break the promise -----

  /** Two kinds that share an upper-cased label mint the same token: the second value overwrites the first. */
  lemma SharedLabelOverwrites(k: Kind, k': Kind, v: Bytes, v': Bytes)
    requires GoodKind(k) && GoodKind(k') && k != k' && ToUpper(k.typ) == ToUpper(k'.typ)
    ensures var vs := TokenizeAll(EMPTY, [Call(k, v), Call(k', v')]);
            && ValueKey(k, v) in vs.valueToToken && ValueKey(k', v') in vs.valueToToken
            && Token(vs, k, v) == Token(vs, k', v')
            && Token(vs, k, v) in vs.tokenToValue && vs.tokenToValue[Token(vs, k, v)] == v'
  {
    var one, two := Call(k, v), Call(k', v');
    RunOne(EMPTY, one);
    RunTwo(EMPTY, one, two);
    ValueKeyInjective(k, v, k', v');
    assert Mint(k, 1) == Mint(k', 1);
    TwoRecords(ValueKey(k, v), CounterKey(k), ValueKey(k', v'), CounterKey(k'), Mint(k, 1), v, v');
    FirstRecord(k, v);
    SecondRecord(TokenizeAll(EMPTY, [one]), k', v', Mint(k, 1));
  }

  lemma FirstRecord(k: Kind, v: Bytes)
    ensures TokenizeMaps(EMPTY, k, v) == Record(EMPTY, ValueKey(k, v), CounterKey(k), Mint(k, 1), v)
  {
  }

  lemma SecondRecord(vs: VaultMaps, k: Kind, v: Bytes, tok: Bytes)
    requires ValueKey(k, v) !in vs.valueToToken && Count(vs, k) == 0 && tok == Mint(k, 1)
    ensures TokenizeMaps(vs, k, v) == Record(vs, ValueKey(k, v), CounterKey(k), tok, v)
  {
  }

  lemma TwoRecords(key: Bytes, counter: Bytes, key': Bytes, counter': Bytes, tok: Bytes, v: Bytes, v': Bytes)
    requires key != key' && counter != counter'
    ensures var first := Record(EMPTY, key, counter, tok, v);
            var both := Record(first, key', counter', tok, v');
            && key' !in first.valueToToken && CountAt(first, counter') == 0
            && key in both.valueToToken && both.valueToToken[key] == tok
            && key' in both.valueToToken && both.valueToToken[key'] == tok
            && tok in both.tokenToValue && both.tokenToValue[tok] == v'
  {
  }

  /** No two different values of these kinds have the same token. */
  ghost predicate SharesNone(vs: VaultMaps, kinds: set<Kind>) {
    forall k, v, k', v' ::
      k in kinds && k' in kinds && ValueKey(k, v) in vs.valueToToken && ValueKey(k', v') in vs.valueToToken
      && Token(vs, k, v) == Token(vs, k', v') ==>
        k == k' && v == v'
  }

  ghost predicate NeverShares(kinds: set<Kind>) {
    forall calls :: UsesKinds(calls, kinds) ==> SharesNone(TokenizeAll(EMPTY, calls), kinds)
  }

  /** In every run tokens tell the values of these kinds apart, exactly when the kinds share no upper-cased label. */
  lemma NeverSharesIff(kinds: set<Kind>)
    requires forall k :: k in kinds ==> GoodKind(k)
    ensures NeverShares(kinds) <==> Disciplined(kinds)
  {
    if Disciplined(kinds) {
      forall calls | UsesKinds(calls, kinds)
        ensures SharesNone(TokenizeAll(EMPTY, calls), kinds)
      {
        RunSharesNone(kinds, calls);
      }
    } else {
      var k, k' :| k in kinds && k' in kinds && ToUpper(k.typ) == ToUpper(k'.typ) && k != k';
      var calls := [Call(k, [1]), Call(k', [2])];
      SharedLabelOverwrites(k, k', [1], [2]);
      assert UsesKinds(calls, kinds) && !SharesNone(TokenizeAll(EMPTY, calls), kinds);
    }
  }

  lemma RunSharesNone(kinds: set<Kind>, calls: seq<Call>)
    requires Disciplined(kinds) && UsesKinds(calls, kinds)
    ensures SharesNone(TokenizeAll(EMPTY, calls), kinds)
  {
    var vs := TokenizeAll(EMPTY, calls);
    RunInverse(EMPTY, kinds, calls);
    forall k, v, k', v' |
      k in kinds && k' in kinds && ValueKey(k, v) in vs.valueToToken && ValueKey(k', v') in vs.valueToToken
      && Token(vs, k, v) == Token(vs, k', v')
      ensures k == k' && v == v'
    {
      TokensNameValues(vs, kinds, k, v, k', v');
    }
  }

  lemma RunOne(vs: VaultMaps, c: Call)
    ensures TokenizeAll(vs, [c]) == TokenizeMaps(vs, c.kind, c.value)
  {
    assert [c][..0] == [];
    assert TokenizeAll(vs, []) == vs;
  }

  lemma RunTwo(vs: VaultMaps, c: Call, d: Call)
    ensures TokenizeAll(vs, [c, d]) == TokenizeMaps(TokenizeAll(vs, [c]), d.kind, d.value)
  {
    assert [c, d][..1] == [c];
  }

  // ----- the kinds the detectors report -----

  predicate ProviderKeyType(typ: string) {
    typ in {"aws_access_key_id", "github_pat_classic", "github_oauth_token", "github_pat_fine_grained",
            "anthropic_api_key", "openai_api_key", "gcp_api_key"}
  }

  predicate OtherSecretType(typ: string) {
    typ in {"slack_token", "stripe_key", "private_key_block", "jwt", "high_entropy_token"}
  }

  predicate SecretType(typ: string) {
    ProviderKeyType(typ) || OtherSecretType(typ)
  }

  predicate PIIType(typ: string) {
    typ in {"email", "phone", "ip_address", "ssn", "credit_card", "iban"}
  }

  predicate InjectionType(typ: string) {
    typ in {"instruction_override", "prompt_extraction", "role_injection"}
  }

  predicate JailbreakType(typ: string) {
    typ in {"known_jailbreak_persona", "restriction_bypass"}
  }

  predicate DetectorKind(k: Kind) {
    match k.category
    case Secret => SecretType(k.typ)
    case PII => PIIType(k.typ)
    case Injection => InjectionType(k.typ)
    case Jailbreak => JailbreakType(k.typ)
    case Unknown => false
  }

  predicate LowerType(s: string) {
    0 < |s| <= 23 && forall i :: 0 <= i < |s| ==> 'a' <= s[i] <= 'z' || s[i] == '_'
  }

  lemma LowerInjective(s: string, t: string)
    requires LowerType(s) && LowerType(t) && ToUpper(s) == ToUpper(t)
    ensures s == t
  {
    forall i | 0 <= i < |s|
      ensures s[i] == t[i]
    {
      assert ToUpper(s)[i] == ToUpper(t)[i];
    }
  }

  lemma ProviderKeyTypesLower(typ: string)
    requires ProviderKeyType(typ)
    ensures LowerType(typ)
  {
  }

  lemma OtherSecretTypesLower(typ: string)
    requires OtherSecretType(typ)
    ensures LowerType(typ)
  {
  }

  lemma PIITypesLower(typ: string)
    requires PIIType(typ)
    ensures LowerType(typ)
  {
  }

  lemma InjectionTypesLower(typ: string)
    requires InjectionType(typ)
    ensures LowerType(typ)
  {
  }

  lemma JailbreakTypesLower(typ: string)
    requires JailbreakType(typ)
    ensures LowerType(typ)
  {
  }

  lemma DetectorTypesLower(k: Kind)
    requires DetectorKind(k)
    ensures LowerType(k.typ)
  {
    if k.category == Secret {
      if ProviderKeyType(k.typ) {
        ProviderKeyTypesLower(k.typ);
      } else {
        OtherSecretTypesLower(k.typ);
      }
    } else if k.category == PII {
      PIITypesLower(k.typ);
    } else if k.category == Injection {
      InjectionTypesLower(k.typ);
    } else {
      JailbreakTypesLower(k.typ);
    }
  }

  lemma DetectorCategoryByType(k: Kind, k': Kind)
    requires DetectorKind(k) && DetectorKind(k') && k.typ == k'.typ
    ensures k == k'
  {
    var c := (t: string) => if SecretType(t) then Secret else if PIIType(t) then PII
                            else if InjectionType(t) then Injection else Jailbreak;
    assert c(k.typ) == k.category && c(k'.typ) == k'.category;
  }

  /** Every set of kinds the detectors report is one the vault's promises hold for. */
  lemma DetectorKindsDisciplined(kinds: set<Kind>)
    requires forall k :: k in kinds ==> DetectorKind(k)
    ensures Disciplined(kinds)
  {
    forall k | k in kinds
      ensures GoodKind(k)
    {
      DetectorTypesLower(k);
    }
    forall k, k' | k in kinds && k' in kinds && ToUpper(k.typ) == ToUpper(k'.typ)
      ensures k == k'
    {
      DetectorTypesLower(k);
      DetectorTypesLower(k');
      LowerInjective(k.typ, k'.typ);
      DetectorCategoryByType(k, k');
    }
  }
}
