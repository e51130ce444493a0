/** Texts of any kind: when a tokenised text that may itself hold live tokens comes back as it was. */
module LiveText {
  import opened ByteStrings
  import opened TokenPattern
  import opened Resolve
  import opened Drain
  import opened Vault
  import opened VaultRuns
  import opened Spans
  import opened Sanitize
  import opened Reversal

  // ----- two texts that part at some byte -----

  ghost predicate Diverge(a: Bytes, b: Bytes) {
    exists p :: 0 <= p < |a| && p < |b| && a[p] != b[p]
  }

  lemma DivergeWithin(x: Bytes, a: Bytes, b: Bytes, y: Bytes, z: Bytes)
    requires Diverge(a, b)
    ensures Diverge(x + a + y, x + b + z)
  {
    var p :| 0 <= p < |a| && p < |b| && a[p] != b[p];
    assert (x + a + y)[|x| + p] == a[p] && (x + b + z)[|x| + p] == b[p];
  }

  /** The value is told from an opening bracket by one of its first three bytes. */
  predicate StartsOff(v: Bytes) {
    exists i :: 0 <= i < 3 && i < |v| && v[i] != OPEN[i]
  }

  lemma ValueForToken(v: Bytes, t: Bytes)
    requires StartsOff(v) && OPEN <= t
    ensures Diverge(v, t) && Diverge(t, v)
  {
    var i :| 0 <= i < 3 && i < |v| && v[i] != OPEN[i];
    assert t[i] == OPEN[i];
  }

  ghost predicate ValuesStartOff(m: Restore) {
    forall t :: t in m ==> StartsOff(m[t])
  }

  // ----- what resolution leaves alone -----

  /** A token the table knows occurs in the text. */
  ghost predicate HasLive(m: Restore, s: Bytes) {
    exists t :: t in m && IsToken(t) && Occurs(s, t)
  }

  /** A token begins where resolution stops for one: at the head, or past it. */
  lemma TokenPastHead(s: Bytes, t: Bytes, i: nat)
    requires s != [] && IsToken(t) && OccursAt(s, t, i)
    ensures if TokenLen(s) > 0 && i < TokenLen(s) then i == 0 && t == s[..TokenLen(s)] else i >= HeadLen(s)
  {
    var n := TokenLen(s);
    if i == 0 {
      assert s[..|t|] == t;
      TokenShape(t);
      TokenLenIsMatch(s, |t|);
    } else if i < n {
      InsideToken(s, t, i, n);
    }
  }

  lemma TokenBytes(t: Bytes)
    requires IsToken(t)
    ensures |t| >= 11 && t[0] == 0xE2 && t[2] == 0xA6 && t[|t| - 1] == 0xA7
    ensures forall j :: 0 < j < |t| && t[j] == 0xE2 ==> j == |t| - 3
  {
    TokenShape(t);
    assert t[|t| - 3..][2] == t[|t| - 1];
  }

  lemma InsideToken(s: Bytes, t: Bytes, i: nat, n: nat)
    requires IsToken(t) && OccursAt(s, t, i) && n <= |s| && IsToken(s[..n])
    ensures !(0 < i < n)
  {
    TokenBytes(t);
    TokenBytes(s[..n]);
    assert s[i] == s[i..i + |t|][0] && s[i + 2] == s[i..i + |t|][2];
    assert s[n - 1] == s[..n][n - 1];
    if 0 < i < n {
      assert false;
    }
  }

  lemma LiveInTail(m: Restore, s: Bytes)
    requires s != [] && !(TokenLen(s) > 0 && s[..TokenLen(s)] in m)
    ensures HasLive(m, s) <==> HasLive(m, s[HeadLen(s)..])
  {
    var n := HeadLen(s);
    if HasLive(m, s) {
      var t :| t in m && IsToken(t) && Occurs(s, t);
      var i :| 0 <= i <= |s| && OccursAt(s, t, i);
      TokenPastHead(s, t, i);
      OccursInTail(s, t, n, i - n);
      assert Occurs(s[n..], t);
    }
    if HasLive(m, s[n..]) {
      var t :| t in m && IsToken(t) && Occurs(s[n..], t);
      var i :| 0 <= i <= |s[n..]| && OccursAt(s[n..], t, i);
      OccursInTail(s, t, n, i);
      assert Occurs(s, t);
    }
  }

  lemma NothingLive(m: Restore)
    ensures !HasLive(m, [])
  {
    forall t | t in m && IsToken(t)
      ensures !Occurs([], t)
    {
      TokenShape(t);
    }
  }

  lemma HeadsDiverge(s: Bytes, all: Bytes, x: Bytes, y: Bytes, a: Bytes, b: Bytes)
    requires s == x + a && all == y + b && Diverge(x, y)
    ensures Diverge(s, all) && all != s
  {
    DivergeWithin([], x, y, a, b);
    assert [] + x + a == x + a && [] + y + b == y + b;
  }

  lemma TailsDiverge(s: Bytes, all: Bytes, x: Bytes, a: Bytes, b: Bytes)
    requires s == x + a && all == x + b && (b == a || Diverge(a, b))
    ensures all == s <==> b == a
    ensures b != a ==> Diverge(s, all)
  {
    if b != a {
      DivergeWithin(x, a, b, [], []);
      assert x + a + [] == x + a && x + b + [] == x + b;
    }
  }

  lemma LiveHead(m: Restore, s: Bytes)
    requires ValuesStartOff(m) && s != [] && TokenLen(s) > 0 && s[..TokenLen(s)] in m
    ensures HasLive(m, s) && Diverge(s[..HeadLen(s)], Head(m, s))
  {
    var t := s[..TokenLen(s)];
    assert s[0..0 + |t|] == t;
    assert OccursAt(s, t, 0);
    TokenShape(t);
    ValueForToken(m[t], t);
  }

  /** Resolution leaves a text alone exactly when no live token occurs in it, and else parts from it. */
  lemma {:induction false} ResolveFixedIff(m: Restore, s: Bytes)
    requires ValuesStartOff(m)
    ensures ResolveAll(m, s) == s <==> !HasLive(m, s)
    ensures HasLive(m, s) ==> Diverge(s, ResolveAll(m, s))
    decreases |s|
  {
    if s == [] {
      NothingLive(m);
    } else {
      var n := HeadLen(s);
      ResolveStep(m, s);
      ResolveFixedIff(m, s[n..]);
      FixedStep(m, s, n, ResolveAll(m, s[n..]), ResolveAll(m, s));
    }
  }

  lemma FixedStep(m: Restore, s: Bytes, n: nat, rest: Bytes, all: Bytes)
    requires ValuesStartOff(m) && s != [] && n == HeadLen(s) && all == Head(m, s) + rest
    requires rest == s[n..] <==> !HasLive(m, s[n..])
    requires HasLive(m, s[n..]) ==> Diverge(s[n..], rest)
    ensures all == s <==> !HasLive(m, s)
    ensures HasLive(m, s) ==> Diverge(s, all)
  {
    var head, tail := s[..n], s[n..];
    assert s == head + tail;
    if TokenLen(s) > 0 && s[..TokenLen(s)] in m {
      LiveHead(m, s);
      HeadsDiverge(s, all, head, Head(m, s), tail, rest);
    } else {
      LiveInTail(m, s);
      TailsDiverge(s, all, head, tail, rest);
    }
  }

  // ----- a tokenised text -----

  ghost predicate GapsDead(m: Restore, text: Bytes, hi: nat, d: seq<Finding>) {
    forall i :: 0 <= i <= |d| ==> !HasLive(m, Gap(text, hi, d, i))
  }

  lemma GapsDeadTail(m: Restore, text: Bytes, hi: nat, d: seq<Finding>)
    requires d != [] && RightToLeft(text, d) && d[0].end <= hi <= |text|
    ensures GapsDead(m, text, hi, d) <==>
              GapsDead(m, text, d[0].start, d[1..]) && !HasLive(m, text[d[0].end..hi])
  {
    assert Gap(text, hi, d, 0) == text[d[0].end..hi];
    forall i | 0 <= i <= |d[1..]|
      ensures Gap(text, d[0].start, d[1..], i) == Gap(text, hi, d, i + 1)
    {
      GapTail(text, hi, d, i);
    }
    if GapsDead(m, text, d[0].start, d[1..]) && !HasLive(m, text[d[0].end..hi]) {
      forall i | 0 <= i <= |d|
        ensures !HasLive(m, Gap(text, hi, d, i))
      {
        if i > 0 {
          assert Gap(text, d[0].start, d[1..], i - 1) == Gap(text, hi, d, i);
        }
      }
    }
    if GapsDead(m, text, hi, d) {
      forall i | 0 <= i <= |d[1..]|
        ensures !HasLive(m, Gap(text, d[0].start, d[1..], i))
      {
        assert Gap(text, d[0].start, d[1..], i) == Gap(text, hi, d, i + 1);
      }
    }
  }

  /** What replacement `i` resolves to: its finding's value, or something that parts from it. */
  ghost predicate Resolves(m: Restore, f: Finding, t: Bytes) {
    Bracketed(t) && (ResolveAll(m, t) == f.value || Diverge(f.value, ResolveAll(m, t)))
  }

  ghost predicate AllResolve(m: Restore, d: seq<Finding>, r: seq<Bytes>)
    requires |r| == |d|
  {
    forall i :: 0 <= i < |d| ==> Resolves(m, d[i], r[i])
  }

  ghost predicate AllReturn(m: Restore, d: seq<Finding>, r: seq<Bytes>)
    requires |r| == |d|
  {
    forall i :: 0 <= i < |d| ==> ResolveAll(m, r[i]) == d[i].value
  }

  lemma ReturnTail(m: Restore, d: seq<Finding>, r: seq<Bytes>)
    requires |r| == |d| > 0 && AllResolve(m, d, r)
    ensures AllResolve(m, d[1..], r[1..])
    ensures AllReturn(m, d, r) <==> ResolveAll(m, r[0]) == d[0].value && AllReturn(m, d[1..], r[1..])
  {
    assert forall i :: 0 < i < |d| ==> d[i] == d[1..][i - 1] && r[i] == r[1..][i - 1];
    assert forall i :: 0 <= i < |d[1..]| ==> d[1..][i] == d[i + 1] && r[1..][i] == r[i + 1];
  }

  /** Brackets cut the text whatever stands around them. */
  lemma ResolvePieces(m: Restore, a: Bytes, t: Bytes, b: Bytes)
    requires Bracketed(t)
    ensures ResolveAll(m, a + t + b) == ResolveAll(m, a) + ResolveAll(m, t) + ResolveAll(m, b)
  {
    assert OPEN <= t + b;
    SeparableBeforeOpen(a, t + b);
    ResolveCut(m, a, t + b);
    SeparableAfterClose(t, b);
    ResolveCut(m, t, b);
    Associate(a, t, b);
    Associate(ResolveAll(m, a), ResolveAll(m, t), ResolveAll(m, b));
  }

  /** Two pieces that each come back or part from what they were: so does the whole. */
  lemma TwoComeBack(s: Bytes, all: Bytes, a: Bytes, a': Bytes, b: Bytes, b': Bytes)
    requires s == a + b && all == a' + b'
    requires (a' == a || Diverge(a, a')) && (b' == b || Diverge(b, b'))
    ensures all == s <==> a' == a && b' == b
    ensures all == s || Diverge(s, all)
  {
    if a' != a {
      HeadsDiverge(s, all, a, a', b, b');
    } else {
      TailsDiverge(s, all, a, b, b');
    }
  }

  lemma ThreeComeBack(s: Bytes, all: Bytes, a: Bytes, a': Bytes, v: Bytes, v': Bytes, b: Bytes, b': Bytes)
    requires s == a + v + b && all == a' + v' + b'
    requires (a' == a || Diverge(a, a')) && (v' == v || Diverge(v, v')) && (b' == b || Diverge(b, b'))
    ensures all == s <==> a' == a && v' == v && b' == b
    ensures all == s || Diverge(s, all)
  {
    TwoComeBack(a + v, a' + v', a, a', v, v');
    TwoComeBack(s, all, a + v, a' + v', b, b');
  }

  lemma SplitAround(text: Bytes, f: Finding, hi: nat)
    requires ReportedWithin(text, f) && f.end <= hi <= |text|
    ensures text[..hi] == text[..f.start] + f.value + text[f.end..hi]
  {
  }

  /** One more span, and the gap after it. */
  lemma OneMoreSpan(m: Restore, text: Bytes, hi: nat, f: Finding, left: Bytes, t: Bytes, q: Bytes)
    requires ValuesStartOff(m) && Resolves(m, f, t) && ReportedWithin(text, f) && f.end <= hi <= |text|
    requires ResolveAll(m, left) == text[..f.start] || Diverge(text[..f.start], ResolveAll(m, left))
    requires q == ResolveAll(m, left + t + text[f.end..hi])
    ensures q == text[..hi] <==>
              ResolveAll(m, left) == text[..f.start] && ResolveAll(m, t) == f.value && !HasLive(m, text[f.end..hi])
    ensures q == text[..hi] || Diverge(text[..hi], q)
  {
    var gap := text[f.end..hi];
    ResolvePieces(m, left, t, gap);
    ResolveFixedIff(m, gap);
    SplitAround(text, f, hi);
    ThreeComeBack(text[..hi], q, text[..f.start], ResolveAll(m, left), f.value, ResolveAll(m, t), gap, ResolveAll(m, gap));
  }

  predicate ReportedWithin(text: Bytes, f: Finding) {
    0 <= f.start <= f.end <= |text| && f.value == text[f.start..f.end]
  }

  lemma {:induction false} ComesBackIff(m: Restore, text: Bytes, hi: nat, d: seq<Finding>, r: seq<Bytes>)
    requires |d| == |r| && hi <= |text| && ValuesStartOff(m) && AllResolve(m, d, r)
    requires RightToLeft(text, d) && HoldTheirValues(text, d) && (d != [] ==> d[0].end <= hi)
    ensures var q := ResolveAll(m, Substitute(text, hi, d, r));
            && (q == text[..hi] <==> AllReturn(m, d, r) && GapsDead(m, text, hi, d))
            && (q == text[..hi] || Diverge(text[..hi], q))
    decreases |d|
  {
    if d == [] {
      ResolveFixedIff(m, text[..hi]);
      assert Gap(text, hi, d, 0) == text[..hi];
    } else {
      var left := Substitute(text, d[0].start, d[1..], r[1..]);
      ReturnTail(m, d, r);
      ComesBackIff(m, text, d[0].start, d[1..], r[1..]);
      OneMoreSpan(m, text, hi, d[0], left, r[0], ResolveAll(m, Substitute(text, hi, d, r)));
      GapsDeadTail(m, text, hi, d);
    }
  }

  // ----- a whole request -----

  ghost predicate CallsStartOff(calls: seq<Call>) {
    forall i :: 0 <= i < |calls| ==> StartsOff(calls[i].value)
  }

  lemma {:induction false} TableStartsOff(calls: seq<Call>)
    requires CallsStartOff(calls)
    ensures ValuesStartOff(TokenizeAll(EMPTY, calls).tokenToValue)
    decreases |calls|
  {
    if calls != [] {
      TableStartsOff(calls[..|calls| - 1]);
    }
  }

  lemma TokensResolve(vs: VaultMaps, kinds: set<Kind>, d: seq<Finding>)
    requires Disciplined(kinds) && Inverse(vs, kinds) && KindsOf(d, kinds) && Tokenized(vs, d)
    requires forall i :: 0 <= i < |d| ==> StartsOff(d[i].value)
    ensures AllResolve(vs.tokenToValue, d, Tokens(vs, d))
    ensures AllReturn(vs.tokenToValue, d, Tokens(vs, d)) <==> AllFit(vs, d)
  {
    forall i | 0 <= i < |d|
      ensures Resolves(vs.tokenToValue, d[i], Tokens(vs, d)[i])
      ensures ResolveAll(vs.tokenToValue, Tokens(vs, d)[i]) == d[i].value <==> IsToken(Tokens(vs, d)[i])
    {
      TokenResolves(vs, kinds, d, i);
      ValueForToken(d[i].value, Tokens(vs, d)[i]);
    }
  }

  /** Whatever the text holds: its tokenised form resolves to it exactly when every token minted for it fits the
      pattern and no gap between the spans holds a live token. */
  lemma AnyTextReversalIff(vs: VaultMaps, kinds: set<Kind>, text: Bytes, d: seq<Finding>)
    requires Disciplined(kinds) && Inverse(vs, kinds) && KindsOf(d, kinds) && Tokenized(vs, d)
    requires ValuesStartOff(vs.tokenToValue) && forall i :: 0 <= i < |d| ==> StartsOff(d[i].value)
    requires RightToLeft(text, d) && HoldTheirValues(text, d)
    ensures ResolveAll(vs.tokenToValue, Substitute(text, |text|, d, Tokens(vs, d))) == text
            <==> AllFit(vs, d) && GapsDead(vs.tokenToValue, text, |text|, d)
  {
    TokensResolve(vs, kinds, d);
    ComesBackIff(vs.tokenToValue, text, |text|, d, Tokens(vs, d));
    assert text[..|text|] == text;
  }

  // ----- which tokens are live -----

  /** Some value takes each number up to the number of values. */
  lemma {:induction false} NumberTaken(calls: seq<Call>, k: Kind, n: nat) returns (v: Bytes)
    requires 1 <= n <= |ValuesOf(calls, k)|
    ensures v in ValuesOf(calls, k) && Rank(calls, k, v) == n
    decreases |calls|
  {
    assert calls == [] ==> ValuesOf(calls, k) == {};
    if calls != [] {
      var c, init := calls[|calls| - 1], calls[..|calls| - 1];
      ValuesOfLast(calls, k);
      if n <= |ValuesOf(init, k)| {
        v := NumberTaken(init, k, n);
      } else {
        v := c.value;
      }
    }
  }

  /** The token of the `n`-th value of its kind, in a request of these calls. */
  predicate Issued(calls: seq<Call>, k: Kind, n: nat) {
    1 <= n <= |ValuesOf(calls, k)| && n <= 999
  }

  lemma IssuedIsLive(kinds: set<Kind>, calls: seq<Call>, k: Kind, n: nat)
    requires Disciplined(kinds) && UsesKinds(calls, kinds) && k in kinds && Issued(calls, k, n)
    ensures Mint(k, n) in TokenizeAll(EMPTY, calls).tokenToValue && IsToken(Mint(k, n))
  {
    var v := NumberTaken(calls, k, n);
    NumberIsRank(kinds, calls, k, v);
    MintIsToken(k, n);
  }

  lemma LiveIsIssued(kinds: set<Kind>, calls: seq<Call>, t: Bytes) returns (k: Kind, n: nat)
    requires Disciplined(kinds) && UsesKinds(calls, kinds)
    requires t in TokenizeAll(EMPTY, calls).tokenToValue && IsToken(t)
    ensures k in kinds && Issued(calls, k, n) && t == Mint(k, n)
  {
    var vs := TokenizeAll(EMPTY, calls);
    EmptyInverse(kinds, calls);
    assert TokenNamed(vs, kinds, t);
    var k', v, n' :| k' in kinds && t == Mint(k', n') && Entry(vs, k', v, n');
    k, n := k', n';
    MintIsToken(k, n);
    CountersCountValues(kinds, calls);
    assert CountedKind(vs, ValuesOf(calls, k), k);
  }

  /** No gap between the spans holds a token issued anywhere in the request. */
  ghost predicate GapsFree(kinds: set<Kind>, calls: seq<Call>, text: Bytes, d: seq<Finding>) {
    forall i, k, n :: 0 <= i <= |d| && k in kinds && Issued(calls, k, n) ==> !Occurs(Gap(text, |text|, d, i), Mint(k, n))
  }

  lemma GapsDeadIffFree(kinds: set<Kind>, calls: seq<Call>, text: Bytes, d: seq<Finding>)
    requires Disciplined(kinds) && UsesKinds(calls, kinds)
    ensures GapsDead(TokenizeAll(EMPTY, calls).tokenToValue, text, |text|, d) <==> GapsFree(kinds, calls, text, d)
  {
    var m := TokenizeAll(EMPTY, calls).tokenToValue;
    if GapsFree(kinds, calls, text, d) {
      forall i | 0 <= i <= |d|
        ensures !HasLive(m, Gap(text, |text|, d, i))
      {
        if HasLive(m, Gap(text, |text|, d, i)) {
          var t :| t in m && IsToken(t) && Occurs(Gap(text, |text|, d, i), t);
          var k, n := LiveIsIssued(kinds, calls, t);
          assert false;
        }
      }
    }
    if GapsDead(m, text, |text|, d) {
      forall i, k, n | 0 <= i <= |d| && k in kinds && Issued(calls, k, n)
        ensures !Occurs(Gap(text, |text|, d, i), Mint(k, n))
      {
        IssuedIsLive(kinds, calls, k, n);
        assert !HasLive(m, Gap(text, |text|, d, i));
      }
    }
  }

  lemma FieldStartsOff(before: seq<Call>, d: seq<Finding>, after: seq<Call>)
    requires CallsStartOff(before + CallsOf(d) + after)
    ensures forall i :: 0 <= i < |d| ==> StartsOff(d[i].value)
  {
    var calls := before + CallsOf(d) + after;
    forall i | 0 <= i < |d|
      ensures StartsOff(d[i].value)
    {
      assert calls[|before| + i] == CallsOf(d)[i] == Call(d[i].kind, d[i].value);
    }
  }

  /**
   * The whole way for any text: a field echoed in any chunks comes back whole exactly when each of its values is
   * among the first 999 of its kind in the request and nothing between its spans is a token issued in the request.
   */
  lemma AnyTextComesBackIff(kinds: set<Kind>, before: seq<Call>, text: Bytes, d: seq<Finding>, after: seq<Call>,
                            chunks: seq<Bytes>)
    requires Disciplined(kinds) && UsesKinds(before, kinds) && KindsOf(d, kinds) && UsesKinds(after, kinds)
    requires CallsStartOff(before + CallsOf(d) + after) && RightToLeft(text, d) && HoldTheirValues(text, d)
    requires Concat(chunks)
          == Substitute(text, |text|, d, ReplaceEach(true, TokenizeAll(EMPTY, before), d).replacements)
    ensures StreamAll(TokenizeAll(EMPTY, before + CallsOf(d) + after).tokenToValue, chunks) == text
            <==> AllRanked(before, d, after) && GapsFree(kinds, before + CallsOf(d) + after, text, d)
  {
    var calls := before + CallsOf(d) + after;
    var vs := TokenizeAll(EMPTY, calls);
    RequestVault(kinds, before, d, after);
    AppendUsesKinds(before, d, after, kinds);
    AllFitIffRanked(kinds, before, d, after, vs);
    TableStartsOff(calls);
    FieldStartsOff(before, d, after);
    AnyTextReversalIff(vs, kinds, text, d);
    GapsDeadIffFree(kinds, calls, text, d);
    VaultTokensShort(vs, kinds);
    ChunkIndependence(vs.tokenToValue, chunks);
  }

  /** A text that is nothing but a token already issued is not screened, and comes back as the value it names. */
  lemma IssuedTokenIsChanged(k: Kind, value: Bytes, chunks: seq<Bytes>)
    requires GoodKind(k) && StartsOff(value) && Concat(chunks) == Mint(k, 1)
    ensures StreamAll(TokenizeAll(EMPTY, [Call(k, value)]).tokenToValue, chunks) != Mint(k, 1)
  {
    var calls := [Call(k, value)];
    var text := Mint(k, 1);
    assert calls + CallsOf([]) + [] == calls;
    assert calls[..0] == [] && ValuesOf(calls[..0], k) == {};
    ValuesOfLast(calls, k);
    assert Issued(calls, k, 1);
    assert Gap(text, |text|, [], 0) == text;
    assert text[0..0 + |text|] == text;
    assert OccursAt(text, text, 0);
    assert text[..|text|] == text;
    AnyTextComesBackIff({k}, calls, text, [], [], chunks);
  }
}
