/** The sliding token window: what a pool counts against a key's token limit is what was recorded for it lately. */
module TokenWindow {
  import opened Options
  import opened PoolModel
  import opened PoolFacts
  import opened PoolRuns

  ghost predicate Sorted(s: seq<TokenSample>) {
    forall j, k :: 0 <= j < k < |s| ==> s[j].at <= s[k].at
  }

  /** The tokens sampled between two times, both included. */
  function TokensWithin(s: seq<TokenSample>, from: Time, end: Time): int {
    if s == [] then 0
    else
      var last := s[|s| - 1];
      TokensWithin(s[..|s| - 1], from, end) + if from <= last.at <= end then last.tokens else 0
  }

  // ----- pruning -----

  lemma {:induction false} DropOldPrefix(s: seq<TokenSample>, cutoff: Time) returns (k: nat)
    ensures k <= |s| && DropOldTokens(s, cutoff) == s[k..]
    ensures forall j :: 0 <= j < k ==> s[j].at < cutoff
    ensures k < |s| ==> s[k].at >= cutoff
  {
    if s != [] && s[0].at < cutoff {
      var m := DropOldPrefix(s[1..], cutoff);
      k := m + 1;
      assert s[k..] == s[1..][m..];
      assert forall j :: 1 <= j < k ==> s[j] == s[1..][j - 1];
    } else {
      k := 0;
    }
  }

  lemma {:induction false} DropOldTwice(s: seq<TokenSample>, a: Time, b: Time)
    requires a <= b
    ensures DropOldTokens(DropOldTokens(s, a), b) == DropOldTokens(s, b)
  {
    if s != [] && s[0].at < a {
      DropOldTwice(s[1..], a, b);
    }
  }

  lemma {:induction false} DropOldSnoc(s: seq<TokenSample>, t: TokenSample, cutoff: Time)
    requires cutoff <= t.at
    ensures DropOldTokens(s + [t], cutoff) == DropOldTokens(s, cutoff) + [t]
  {
    if s != [] {
      assert (s + [t])[1..] == s[1..] + [t];
      if s[0].at < cutoff {
        DropOldSnoc(s[1..], t, cutoff);
      }
    } else {
      assert s + [t] == [t];
    }
  }

  lemma {:induction false} WithinAppend(s: seq<TokenSample>, t: seq<TokenSample>, from: Time, end: Time)
    ensures TokensWithin(s + t, from, end) == TokensWithin(s, from, end) + TokensWithin(t, from, end)
  {
    if t == [] {
      assert s + t == s;
    } else {
      assert (s + t)[..|s + t| - 1] == s + t[..|t| - 1];
      WithinAppend(s, t[..|t| - 1], from, end);
    }
  }

  lemma {:induction false} WithinNone(s: seq<TokenSample>, from: Time, end: Time)
    requires forall j :: 0 <= j < |s| ==> s[j].at < from
    ensures TokensWithin(s, from, end) == 0
  {
    if s != [] {
      WithinNone(s[..|s| - 1], from, end);
    }
  }

  lemma {:induction false} WithinAll(s: seq<TokenSample>, from: Time, end: Time)
    requires forall j :: 0 <= j < |s| ==> from <= s[j].at <= end
    ensures TokensWithin(s, from, end) == TokenSum(s)
  {
    if s != [] {
      WithinAll(s[..|s| - 1], from, end);
    }
  }

  /** On samples in order, what pruning leaves sums up to the tokens young enough. */
  lemma PruneSums(s: seq<TokenSample>, cutoff: Time, now: Time)
    requires Sorted(s) && forall j :: 0 <= j < |s| ==> s[j].at <= now
    ensures TokenSum(DropOldTokens(s, cutoff)) == TokensWithin(s, cutoff, now)
  {
    var k := DropOldPrefix(s, cutoff);
    assert s == s[..k] + s[k..];
    WithinAppend(s[..k], s[k..], cutoff, now);
    WithinNone(s[..k], cutoff, now);
    WithinAll(s[k..], cutoff, now);
  }

  // ----- what one key sees of a run -----

  /** A selection, which prunes the key's samples, or a sample recorded for it. */
  datatype Beat = Pruned(now: Time) | Sampled(sample: TokenSample)

  function TimeOf(b: Beat): Time {
    match b
    case Pruned(now) => now
    case Sampled(sample) => sample.at
  }

  predicate Samples(c: Config, q: Pool, e: Event, i: nat) {
    e.RecordTokens? && e.tokens > 0 && c.tpmLimit != 0 && FindByID(q.creds, e.id) == Some(i)
  }

  function BeatOf(c: Config, q: Pool, e: Event, i: nat): seq<Beat> {
    if e.Select? then [Pruned(e.now)]
    else if e.RecordTokens? && Samples(c, q, e, i) then [Sampled(TokenSample(e.now, e.tokens))]
    else []
  }

  function Beats(c: Config, p: Pool, es: seq<Event>, i: nat): seq<Beat>
    requires ValidConfig(c)
  {
    if es == [] then []
    else Beats(c, p, es[..|es| - 1], i) + BeatOf(c, Run(c, p, es[..|es| - 1]), es[|es| - 1], i)
  }

  /** Everything ever recorded for the key. */
  function SampleLog(beats: seq<Beat>): seq<TokenSample> {
    if beats == [] then []
    else
      var b := beats[|beats| - 1];
      SampleLog(beats[..|beats| - 1]) + if b.Sampled? then [b.sample] else []
  }

  /** The samples those beats leave behind. */
  function WindowOf(beats: seq<Beat>, window: int): seq<TokenSample> {
    if beats == [] then []
    else
      var before := WindowOf(beats[..|beats| - 1], window);
      match beats[|beats| - 1]
      case Pruned(now) => DropOldTokens(before, now - window)
      case Sampled(sample) => before + [sample]
  }

  lemma BeatStep(c: Config, q: Pool, e: Event, i: nat, beats: seq<Beat>)
    requires ValidConfig(c) && i < |q.creds| && c.tpmLimit > 0 && q.creds[i].recentTokens == WindowOf(beats, c.rateWindow)
    ensures Step(c, q, e).creds[i].recentTokens == WindowOf(beats + BeatOf(c, q, e, i), c.rateWindow)
  {
    StepAt(c, q, e, i);
    var beat := BeatOf(c, q, e, i);
    if beat != [] {
      assert (beats + beat)[..|beats|] == beats;
    } else {
      assert beats + beat == beats;
    }
  }

  lemma {:induction false} WindowOfRun(c: Config, p: Pool, es: seq<Event>, i: nat)
    requires ValidConfig(c) && Fresh(p) && i < |p.creds| && c.tpmLimit > 0
    ensures Run(c, p, es).creds[i].recentTokens == WindowOf(Beats(c, p, es, i), c.rateWindow)
  {
    if es != [] {
      var before := es[..|es| - 1];
      WindowOfRun(c, p, before, i);
      BeatStep(c, Run(c, p, before), es[|es| - 1], i, Beats(c, p, before, i));
    }
  }

  // ----- the window is the recent part of the log -----

  ghost predicate Ordered(beats: seq<Beat>) {
    forall j, k :: 0 <= j < k < |beats| ==> TimeOf(beats[j]) <= TimeOf(beats[k])
  }

  function LastPruned(beats: seq<Beat>): Option<Time> {
    if beats == [] then None
    else if beats[|beats| - 1].Pruned? then Some(beats[|beats| - 1].now)
    else LastPruned(beats[..|beats| - 1])
  }

  lemma {:induction false} LastPrunedIsPast(beats: seq<Beat>)
    requires Ordered(beats) && beats != []
    ensures LastPruned(beats).Some? ==> LastPruned(beats).value <= TimeOf(beats[|beats| - 1])
  {
    var init := beats[..|beats| - 1];
    if beats[|beats| - 1].Sampled? && init != [] {
      LastPrunedIsPast(init);
    }
  }

  lemma {:induction false} LogSorted(beats: seq<Beat>)
    requires Ordered(beats)
    ensures Sorted(SampleLog(beats))
    ensures forall k :: 0 <= k < |SampleLog(beats)| ==> beats != [] && SampleLog(beats)[k].at <= TimeOf(beats[|beats| - 1])
  {
    if beats != [] {
      LogSorted(beats[..|beats| - 1]);
    }
  }

  function Recent(log: seq<TokenSample>, last: Option<Time>, window: int): seq<TokenSample> {
    if last.None? then log else DropOldTokens(log, last.value - window)
  }

  lemma RecentPruned(log: seq<TokenSample>, last: Option<Time>, window: int, now: Time)
    requires last.Some? ==> last.value <= now
    ensures DropOldTokens(Recent(log, last, window), now - window) == DropOldTokens(log, now - window)
  {
    if last.Some? {
      DropOldTwice(log, last.value - window, now - window);
    }
  }

  lemma RecentSampled(log: seq<TokenSample>, last: Option<Time>, window: int, s: TokenSample)
    requires last.Some? ==> last.value <= s.at
    requires window > 0
    ensures Recent(log, last, window) + [s] == Recent(log + [s], last, window)
  {
    if last.Some? {
      DropOldSnoc(log, s, last.value - window);
    }
  }

  lemma PastLastPruned(beats: seq<Beat>)
    requires Ordered(beats) && beats != []
    ensures var last := LastPruned(beats[..|beats| - 1]); last.Some? ==> last.value <= TimeOf(beats[|beats| - 1])
  {
    var init := beats[..|beats| - 1];
    if init != [] {
      LastPrunedIsPast(init);
    }
  }

  lemma {:induction false} WindowIsRecentLog(beats: seq<Beat>, window: int)
    requires Ordered(beats) && window > 0
    ensures WindowOf(beats, window) == Recent(SampleLog(beats), LastPruned(beats), window)
  {
    if beats != [] {
      var init := beats[..|beats| - 1];
      WindowIsRecentLog(init, window);
      PastLastPruned(beats);
      match beats[|beats| - 1]
      case Pruned(now) =>
        RecentPruned(SampleLog(init), LastPruned(init), window, now);
        assert SampleLog(init) + [] == SampleLog(init);
      case Sampled(s) => RecentSampled(SampleLog(init), LastPruned(init), window, s);
    }
  }

  // ----- the token limit -----

  /** What was recorded for key `i` in a run. */
  function RecordedFor(c: Config, p: Pool, es: seq<Event>, i: nat): seq<TokenSample>
    requires ValidConfig(c)
  {
    SampleLog(Beats(c, p, es, i))
  }

  lemma PrunedSum(beats: seq<Beat>, window: int, now: Time)
    requires Ordered(beats + [Pruned(now)]) && window > 0
    ensures TokenSum(DropOldTokens(WindowOf(beats, window), now - window)) == TokensWithin(SampleLog(beats), now - window, now)
  {
    var all := beats + [Pruned(now)];
    assert all[..|beats|] == beats;
    WindowIsRecentLog(all, window);
    LogSorted(all);
    assert SampleLog(beats) + [] == SampleLog(beats);
    PruneSums(SampleLog(beats), now - window, now);
  }

  lemma CountedAt(c: Config, e: Cred, beats: seq<Beat>, now: Time)
    requires ValidConfig(c) && c.tpmLimit > 0 && e.recentTokens == WindowOf(beats, c.rateWindow)
    requires Ordered(beats + [Pruned(now)])
    ensures TokenSum(Refresh(c, e, now).recentTokens) == TokensWithin(SampleLog(beats), now - c.rateWindow, now)
  {
    PrunedSum(beats, c.rateWindow, now);
  }

  /** When a selection looks at a key, the tokens it counts are exactly those recorded for it within the window. */
  lemma CountsRecentTokens(c: Config, p: Pool, es: seq<Event>, i: nat, now: Time)
    requires ValidConfig(c) && Fresh(p) && i < |p.creds| && c.tpmLimit > 0
    requires Ordered(Beats(c, p, es, i) + [Pruned(now)])
    ensures TokenSum(Refresh(c, Run(c, p, es).creds[i], now).recentTokens)
            == TokensWithin(RecordedFor(c, p, es, i), now - c.rateWindow, now)
  {
    WindowOfRun(c, p, es, i);
    CountedAt(c, Run(c, p, es).creds[i], Beats(c, p, es, i), now);
  }

  /**
   * In every run, a key picked outside the backstop had fewer tokens recorded within the window than its
   * limit allows.
   */
  lemma TokenLimitKept(c: Config, p: Pool, es: seq<Event>, i: nat, now: Time, key: string)
    requires ValidConfig(c) && Fresh(p) && i < |p.creds| && c.tpmLimit > 0
    requires Ordered(Beats(c, p, es, i) + [Pruned(now)])
    ensures var (_, s) := SelectStep(c, Run(c, p, es), now, key);
            s.index == Some(i) && !s.backstop ==>
              TokensWithin(RecordedFor(c, p, es, i), now - c.rateWindow, now) < c.tpmLimit
  {
    var q := Run(c, p, es);
    CountsRecentTokens(c, p, es, i, now);
    ChooseIsRight(c, RefreshAll(c, q.creds, now), q.counter, q.affinity, key, now);
  }
}
