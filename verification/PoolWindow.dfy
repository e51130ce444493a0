/** The sliding request window: pruning is filtering by age, and the soft limit caps every window of a run. */
module PoolWindow {
  import opened Options
  import opened PoolModel
  import opened PoolFacts
  import opened PoolRuns

  ghost predicate Sorted(s: seq<Time>) {
    forall j, k :: 0 <= j < k < |s| ==> s[j] <= s[k]
  }

  /** The timestamps between two times, both included. */
  function Within(s: seq<Time>, from: Time, to: Time): (r: seq<Time>)
    ensures |r| <= |s|
  {
    if s == [] then []
    else Within(s[..|s| - 1], from, to) + if from <= s[|s| - 1] <= to then [s[|s| - 1]] else []
  }

  // ----- pruning -----

  lemma {:induction false} DropOldPrefix(s: seq<Time>, cutoff: Time) returns (k: nat)
    ensures k <= |s| && DropOld(s, cutoff) == s[k..]
    ensures forall j :: 0 <= j < k ==> s[j] < cutoff
    ensures k < |s| ==> s[k] >= cutoff
  {
    if s != [] && s[0] < cutoff {
      var m := DropOldPrefix(s[1..], cutoff);
      k := m + 1;
      assert s[k..] == s[1..][m..];
      assert forall j :: 1 <= j < k ==> s[j] == s[1..][j - 1];
    } else {
      k := 0;
    }
  }

  lemma {:induction false} DropOldTwice(s: seq<Time>, a: Time, b: Time)
    requires a <= b
    ensures DropOld(DropOld(s, a), b) == DropOld(s, b)
  {
    if s != [] && s[0] < a {
      DropOldTwice(s[1..], a, b);
    }
  }

  lemma {:induction false} DropOldSnoc(s: seq<Time>, t: Time, cutoff: Time)
    requires cutoff <= t
    ensures DropOld(s + [t], cutoff) == DropOld(s, cutoff) + [t]
  {
    if s != [] {
      assert (s + [t])[1..] == s[1..] + [t];
      if s[0] < cutoff {
        DropOldSnoc(s[1..], t, cutoff);
      }
    } else {
      assert s + [t] == [t];
    }
  }

  lemma {:induction false} WithinAll(s: seq<Time>, from: Time, to: Time)
    requires forall j :: 0 <= j < |s| ==> from <= s[j] <= to
    ensures Within(s, from, to) == s
  {
    if s != [] {
      WithinAll(s[..|s| - 1], from, to);
    }
  }

  lemma {:induction false} WithinNone(s: seq<Time>, from: Time, to: Time)
    requires forall j :: 0 <= j < |s| ==> s[j] < from || to < s[j]
    ensures Within(s, from, to) == []
  {
    if s != [] {
      WithinNone(s[..|s| - 1], from, to);
    }
  }

  lemma {:induction false} WithinAppend(s: seq<Time>, t: seq<Time>, from: Time, to: Time)
    ensures Within(s + t, from, to) == Within(s, from, to) + Within(t, from, to)
  {
    if t == [] {
      assert s + t == s;
    } else {
      assert (s + t)[..|s + t| - 1] == s + t[..|t| - 1];
      WithinAppend(s, t[..|t| - 1], from, to);
    }
  }

  lemma WithinTail(s: seq<Time>, m: nat, from: Time, to: Time)
    requires m <= |s| && forall j :: 0 <= j < m ==> s[j] < from || to < s[j]
    ensures Within(s, from, to) == Within(s[m..], from, to)
  {
    assert s == s[..m] + s[m..];
    WithinAppend(s[..m], s[m..], from, to);
    WithinNone(s[..m], from, to);
  }

  /** On timestamps in order, dropping the old ones off the front keeps exactly those young enough. */
  lemma PruneIsFilter(s: seq<Time>, cutoff: Time, now: Time)
    requires Sorted(s) && forall j :: 0 <= j < |s| ==> s[j] <= now
    ensures DropOld(s, cutoff) == Within(s, cutoff, now)
  {
    var k := DropOldPrefix(s, cutoff);
    WithinTail(s, k, cutoff, now);
    WithinAll(s[k..], cutoff, now);
  }

  // ----- what one key sees of a run -----

  /** One selection as seen by one key: when, whether it was chosen, and whether by the backstop. */
  datatype Look = Look(now: Time, chosen: bool, backstop: bool)

  function LookAt(c: Config, q: Pool, now: Time, key: string, i: nat): Look
    requires ValidConfig(c)
  {
    var s := SelectStep(c, q, now, key).1;
    Look(now, s.index == Some(i), s.backstop)
  }

  function Looks(c: Config, p: Pool, es: seq<Event>, i: nat): seq<Look>
    requires ValidConfig(c)
  {
    if es == [] then []
    else
      var before := es[..|es| - 1];
      var e := es[|es| - 1];
      Looks(c, p, before, i) + if e.Select? then [LookAt(c, Run(c, p, before), e.now, e.key, i)] else []
  }

  /** The clock readings of the selections, successful or not. */
  function Readings(es: seq<Event>): seq<Time> {
    if es == [] then []
    else Readings(es[..|es| - 1]) + if es[|es| - 1].Select? then [es[|es| - 1].now] else []
  }

  /** The clock does not run backwards between selections. */
  ghost predicate Ordered(es: seq<Event>) {
    Sorted(Readings(es))
  }

  /** The times at which the key was chosen. */
  function ChosenTimes(looks: seq<Look>): seq<Time> {
    if looks == [] then []
    else
      var l := looks[|looks| - 1];
      ChosenTimes(looks[..|looks| - 1]) + if l.chosen then [l.now] else []
  }

  /** The times at which a run selected key `i`. */
  function LogOf(c: Config, p: Pool, es: seq<Event>, i: nat): seq<Time>
    requires ValidConfig(c)
  {
    ChosenTimes(Looks(c, p, es, i))
  }

  /** The window those looks leave behind: each prunes it, and adds to it when it chooses the key. */
  function WindowOf(looks: seq<Look>, window: int): seq<Time> {
    if looks == [] then []
    else
      var l := looks[|looks| - 1];
      DropOld(WindowOf(looks[..|looks| - 1], window), l.now - window) + if l.chosen then [l.now] else []
  }

  lemma {:induction false} LooksAreReadings(c: Config, p: Pool, es: seq<Event>, i: nat)
    requires ValidConfig(c)
    ensures |Looks(c, p, es, i)| == |Readings(es)|
    ensures forall k :: 0 <= k < |Readings(es)| ==> Looks(c, p, es, i)[k].now == Readings(es)[k]
  {
    if es != [] {
      LooksAreReadings(c, p, es[..|es| - 1], i);
    }
  }

  /** A selection prunes the window it finds and then adds to it, nothing else touches it. */
  lemma WindowStep(c: Config, q: Pool, e: Event, i: nat)
    requires ValidConfig(c) && i < |q.creds| && c.rateLimit > 0
    ensures var a := q.creds[i].recentRequests;
            var b := Step(c, q, e).creds[i].recentRequests;
            b == if !e.Select? then a
                 else DropOld(a, e.now - c.rateWindow) + if LookAt(c, q, e.now, e.key, i).chosen then [e.now] else []
  {
    StepAt(c, q, e, i);
  }

  lemma {:induction false} WindowOfRun(c: Config, p: Pool, es: seq<Event>, i: nat)
    requires ValidConfig(c) && Fresh(p) && i < |p.creds| && c.rateLimit > 0
    ensures Run(c, p, es).creds[i].recentRequests == WindowOf(Looks(c, p, es, i), c.rateWindow)
  {
    if es != [] {
      var before := es[..|es| - 1];
      WindowOfRun(c, p, before, i);
      var q := Run(c, p, before);
      var e := es[|es| - 1];
      WindowStep(c, q, e, i);
      if e.Select? {
        LooksSnoc(Looks(c, p, before, i), LookAt(c, q, e.now, e.key, i), c.rateWindow);
      } else {
        assert Looks(c, p, es, i) == Looks(c, p, before, i);
      }
    }
  }

  lemma LooksSnoc(looks: seq<Look>, l: Look, window: int)
    ensures WindowOf(looks + [l], window)
            == DropOld(WindowOf(looks, window), l.now - window) + if l.chosen then [l.now] else []
  {
    assert (looks + [l])[..|looks|] == looks;
  }

  /** Each look that chooses the key outside the backstop finds room in the pruned window. */
  ghost predicate Roomy(looks: seq<Look>, window: int, limit: nat) {
    looks != [] ==>
      var before := looks[..|looks| - 1];
      var l := looks[|looks| - 1];
      && Roomy(before, window, limit)
      && (l.chosen && !l.backstop ==> |DropOld(WindowOf(before, window), l.now - window)| < limit)
  }

  /** A key picked outside the backstop had room in its window. */
  lemma ChosenHadRoom(c: Config, p: Pool, e: Event, i: nat)
    requires ValidConfig(c) && c.rateLimit > 0 && e.Select? && i < |p.creds|
    requires LookAt(c, p, e.now, e.key, i).chosen && !SelectStep(c, p, e.now, e.key).1.backstop
    ensures |DropOld(p.creds[i].recentRequests, e.now - c.rateWindow)| < c.rateSoftLimit
  {
    var creds := RefreshAll(c, p.creds, e.now);
    ChooseIsRight(c, creds, p.counter, p.affinity, e.key, e.now);
    assert UnderCaps(c, creds[i]);
  }

  lemma {:induction false} LooksRoomy(c: Config, p: Pool, es: seq<Event>, i: nat)
    requires ValidConfig(c) && Fresh(p) && i < |p.creds| && c.rateLimit > 0
    ensures Roomy(Looks(c, p, es, i), c.rateWindow, c.rateSoftLimit)
  {
    if es != [] {
      var before := es[..|es| - 1];
      LooksRoomy(c, p, before, i);
      WindowOfRun(c, p, before, i);
      if es[|es| - 1].Select? {
        var q := Run(c, p, before);
        var l := LookAt(c, q, es[|es| - 1].now, es[|es| - 1].key, i);
        if l.chosen && !l.backstop {
          ChosenHadRoom(c, q, es[|es| - 1], i);
        }
        RoomySnoc(Looks(c, p, before, i), l, c.rateWindow, c.rateSoftLimit);
      } else {
        assert Looks(c, p, es, i) == Looks(c, p, before, i);
      }
    }
  }

  lemma RoomySnoc(looks: seq<Look>, l: Look, window: int, limit: nat)
    requires Roomy(looks, window, limit)
    requires l.chosen && !l.backstop ==> |DropOld(WindowOf(looks, window), l.now - window)| < limit
    ensures Roomy(looks + [l], window, limit)
  {
    assert (looks + [l])[..|looks|] == looks;
  }

  // ----- the window is the recent part of the log -----

  ghost predicate LooksOrdered(looks: seq<Look>) {
    forall j, k :: 0 <= j < k < |looks| ==> looks[j].now <= looks[k].now
  }

  /** The part of a log that the last selection's pruning leaves. */
  function Recent(log: seq<Time>, last: Option<Time>, window: int): seq<Time> {
    if last.None? then [] else DropOld(log, last.value - window)
  }

  /** Pruning again later is pruning the whole log. */
  lemma RecentPruned(log: seq<Time>, last: Option<Time>, window: int, now: Time)
    requires last.None? ==> log == []
    requires last.Some? ==> last.value <= now
    ensures DropOld(Recent(log, last, window), now - window) == DropOld(log, now - window)
  {
    if last.Some? {
      DropOldTwice(log, last.value - window, now - window);
    }
  }

  lemma RecentGrows(log: seq<Time>, last: Option<Time>, window: int, now: Time, chosen: bool)
    requires window > 0
    requires last.None? ==> log == []
    requires last.Some? ==> last.value <= now
    ensures var add := if chosen then [now] else [];
            DropOld(Recent(log, last, window), now - window) + add == Recent(log + add, Some(now), window)
  {
    RecentPruned(log, last, window, now);
    if chosen {
      DropOldSnoc(log, now, now - window);
    } else {
      assert log + [] == log;
    }
  }

  function LastLook(looks: seq<Look>): Option<Time> {
    if looks == [] then None else Some(looks[|looks| - 1].now)
  }

  lemma {:induction false} ChosenSorted(looks: seq<Look>)
    requires LooksOrdered(looks)
    ensures var log := ChosenTimes(looks);
            Sorted(log) && forall k :: 0 <= k < |log| ==> looks != [] && log[k] <= looks[|looks| - 1].now
  {
    if looks != [] {
      ChosenSorted(looks[..|looks| - 1]);
    }
  }

  lemma {:induction false} WindowIsRecentLog(looks: seq<Look>, window: int)
    requires LooksOrdered(looks) && window > 0
    ensures WindowOf(looks, window) == Recent(ChosenTimes(looks), LastLook(looks), window)
  {
    if looks != [] {
      var before := looks[..|looks| - 1];
      var l := looks[|looks| - 1];
      WindowIsRecentLog(before, window);
      RecentGrows(ChosenTimes(before), LastLook(before), window, l.now, l.chosen);
    }
  }

  // ----- the cap -----

  /** No run of `limit + 1` consecutive entries fits into a window. */
  ghost predicate Spaced(log: seq<Time>, limit: nat, window: int) {
    forall k :: limit <= k < |log| ==> log[k] - log[k - limit] > window
  }

  lemma SpacedSnoc(log: seq<Time>, now: Time, limit: nat, window: int)
    requires Sorted(log) && Spaced(log, limit, window) && limit > 0
    requires |DropOld(log, now - window)| < limit
    ensures Spaced(log + [now], limit, window)
  {
    var m := DropOldPrefix(log, now - window);
    assert |DropOld(log, now - window)| == |log| - m;
    var all := log + [now];
    forall k | limit <= k < |all| ensures all[k] - all[k - limit] > window {
      if k == |log| {
        assert k - limit < m;
      }
    }
  }

  lemma {:induction false} LogSpaced(looks: seq<Look>, window: int, limit: nat)
    requires LooksOrdered(looks) && Roomy(looks, window, limit) && window > 0 && limit > 0
    requires forall k :: 0 <= k < |looks| && looks[k].chosen ==> !looks[k].backstop
    ensures Spaced(ChosenTimes(looks), limit, window)
  {
    if looks != [] {
      var before := looks[..|looks| - 1];
      var l := looks[|looks| - 1];
      LogSpaced(before, window, limit);
      if l.chosen {
        WindowIsRecentLog(before, window);
        ChosenSorted(before);
        RecentPruned(ChosenTimes(before), LastLook(before), window, l.now);
        SpacedSnoc(ChosenTimes(before), l.now, limit, window);
      } else {
        assert ChosenTimes(looks) == ChosenTimes(before);
      }
    }
  }

  /** A sorted, spaced log that ends inside the window: only its last entries can lie in the window. */
  lemma OlderOutside(log: seq<Time>, limit: nat, window: int, from: Time, to: Time, j: nat)
    requires Sorted(log) && Spaced(log, limit, window) && to - from <= window
    requires |log| > limit > 0 && log[|log| - 1] <= to && j < |log| - limit
    ensures log[j] < from
  {
    var last := |log| - 1;
    assert log[last] - log[last - limit] > window;
    assert log[j] <= log[last - limit];
  }

  lemma {:induction false} FewWithin(log: seq<Time>, limit: nat, window: int, from: Time, to: Time)
    requires Sorted(log) && Spaced(log, limit, window) && to - from <= window && limit > 0
    ensures |Within(log, from, to)| <= limit
  {
    if |log| > limit {
      var last := |log| - 1;
      if log[last] > to {
        FewWithin(log[..last], limit, window, from, to);
      } else {
        var m := |log| - limit;
        forall j | 0 <= j < m ensures log[j] < from || to < log[j] {
          OlderOutside(log, limit, window, from, to, j);
        }
        WithinTail(log, m, from, to);
      }
    }
  }

  /** The backstop never picked key `i` in the run. */
  ghost predicate NeverBackstop(c: Config, p: Pool, es: seq<Event>, i: nat)
    requires ValidConfig(c)
  {
    forall k :: 0 <= k < |Looks(c, p, es, i)| && Looks(c, p, es, i)[k].chosen ==> !Looks(c, p, es, i)[k].backstop
  }

  /**
   * In every run in which the backstop never picks a key, no closed interval as long as the rate
   * window holds more selections of that key than the soft limit.
   */
  lemma SoftLimitCapsEveryWindow(c: Config, p: Pool, es: seq<Event>, i: nat, from: Time, to: Time)
    requires ValidConfig(c) && Fresh(p) && Ordered(es) && i < |p.creds| && c.rateLimit > 0
    requires NeverBackstop(c, p, es, i) && to - from <= c.rateWindow
    ensures |Within(LogOf(c, p, es, i), from, to)| <= c.rateSoftLimit
  {
    var looks := Looks(c, p, es, i);
    LooksAreReadings(c, p, es, i);
    LooksRoomy(c, p, es, i);
    ChosenSorted(looks);
    LogSpaced(looks, c.rateWindow, c.rateSoftLimit);
    FewWithin(ChosenTimes(looks), c.rateSoftLimit, c.rateWindow, from, to);
  }

  /** At any time after a first selection, a key's window is its log filtered by age at the last one. */
  lemma WindowIsFilteredLog(c: Config, p: Pool, es: seq<Event>, i: nat)
    requires ValidConfig(c) && Fresh(p) && Ordered(es) && i < |p.creds| && c.rateLimit > 0
    requires Readings(es) != []
    ensures var now := Readings(es)[|Readings(es)| - 1];
            Run(c, p, es).creds[i].recentRequests == Within(LogOf(c, p, es, i), now - c.rateWindow, now)
  {
    var looks := Looks(c, p, es, i);
    LooksAreReadings(c, p, es, i);
    WindowOfRun(c, p, es, i);
    WindowIsRecentLog(looks, c.rateWindow);
    ChosenSorted(looks);
    var now := Readings(es)[|Readings(es)| - 1];
    PruneIsFilter(ChosenTimes(looks), now - c.rateWindow, now);
  }
}
