/** What one selection promises, whatever the strategy, the limits and the bindings. */
module PoolFacts {
  import opened Options
  import opened PoolModel

  // ----- what each strategy picks -----

  /** `i` is admitted and nothing listed before it is. */
  ghost predicate Earliest(c: Config, pass: Pass, creds: seq<Cred>, now: Time, i: nat) {
    && i < |creds| && Admits(c, pass, creds[i], now)
    && forall j :: 0 <= j < i ==> !Admits(c, pass, creds[j], now)
  }

  /** `i` is admitted, nothing admitted carries less load, and nothing before it carries as little. */
  ghost predicate LeastLoaded(c: Config, pass: Pass, creds: seq<Cred>, now: Time, n: nat, i: nat)
    requires n <= |creds|
  {
    && i < n && Admits(c, pass, creds[i], now)
    && (forall j :: 0 <= j < n && Admits(c, pass, creds[j], now) ==> creds[i].inFlight <= creds[j].inFlight)
    && forall j :: 0 <= j < i && Admits(c, pass, creds[j], now) ==> creds[i].inFlight < creds[j].inFlight
  }

  /** `i` is admitted and lies `skip` places cyclically after `base`, past nothing admitted. */
  ghost predicate NextInTurn(c: Config, pass: Pass, creds: seq<Cred>, now: Time, base: nat, skip: nat, i: nat) {
    && skip < |creds| && i == Place(base, skip, |creds|)
    && Admits(c, pass, creds[i], now)
    && forall k :: 0 <= k < skip ==> !Admits(c, pass, creds[Place(base, k, |creds|)], now)
  }

  ghost predicate NobodyAdmitted(c: Config, pass: Pass, creds: seq<Cred>, now: Time) {
    forall i :: 0 <= i < |creds| ==> !Admits(c, pass, creds[i], now)
  }

  lemma {:induction false} FirstFrom(c: Config, pass: Pass, creds: seq<Cred>, now: Time, from: nat)
    requires from <= |creds|
    requires forall j :: 0 <= j < from ==> !Admits(c, pass, creds[j], now)
    ensures var r := FirstAdmitted(c, pass, creds, now, from);
            if r.Some? then Earliest(c, pass, creds, now, r.value) else NobodyAdmitted(c, pass, creds, now)
    decreases |creds| - from
  {
    if from < |creds| && !Admits(c, pass, creds[from], now) {
      FirstFrom(c, pass, creds, now, from + 1);
    }
  }

  lemma {:induction false} LeastOf(c: Config, pass: Pass, creds: seq<Cred>, now: Time, n: nat)
    requires n <= |creds|
    ensures var r := LeastAdmitted(c, pass, creds, now, n);
            if r.Some? then LeastLoaded(c, pass, creds, now, n, r.value)
            else forall i :: 0 <= i < n ==> !Admits(c, pass, creds[i], now)
  {
    if n > 0 {
      LeastOf(c, pass, creds, now, n - 1);
    }
  }

  lemma {:induction false} CyclicFrom(c: Config, pass: Pass, creds: seq<Cred>, now: Time, base: nat, skipped: nat)
    requires base < |creds| && skipped <= |creds|
    requires forall k :: 0 <= k < skipped ==> !Admits(c, pass, creds[Place(base, k, |creds|)], now)
    ensures var r := CyclicAdmitted(c, pass, creds, now, base, skipped);
            if r.Some? then exists skip :: NextInTurn(c, pass, creds, now, base, skip, r.value)
            else NobodyAdmitted(c, pass, creds, now)
    decreases |creds| - skipped
  {
    if skipped == |creds| {
      forall i | 0 <= i < |creds| ensures !Admits(c, pass, creds[i], now) {
        var k := if base <= i then i - base else i - base + |creds|;
        Turn(base, k, i, |creds|);
      }
    } else if Admits(c, pass, creds[Place(base, skipped, |creds|)], now) {
      assert NextInTurn(c, pass, creds, now, base, skipped, Place(base, skipped, |creds|));
    } else {
      CyclicFrom(c, pass, creds, now, base, skipped + 1);
    }
  }

  lemma Turn(base: nat, k: nat, i: nat, n: nat)
    requires n > 0 && base < n && i < n
    requires k == if base <= i then i - base else i - base + n
    ensures Place(base, k, n) == i
  {
    var q := (base + k) / n;
    assert base + k == n * q + Place(base, k, n);
    if base > i {
      TimesSmall(n, q, i + n, Place(base, k, n));
    } else {
      TimesSmall(n, q, i, Place(base, k, n));
    }
  }

  /** Quotient and remainder of a number below 2n. */
  lemma TimesSmall(n: int, q: int, a: int, r: int)
    requires n > 0 && a == n * q + r && 0 <= r < n && 0 <= a < 2 * n
    ensures r == if a < n then a else a - n
  {
    assert q == 0 || q == 1;
  }

  /** Every strategy picks an admitted credential, the one its rule names, whenever there is one. */
  lemma PickIsRight(c: Config, pass: Pass, creds: seq<Cred>, now: Time, counter: nat)
    requires ValidConfig(c)
    ensures var r := Pick(c, pass, creds, now, counter);
            && (r.None? <==> NobodyAdmitted(c, pass, creds, now))
            && (r.Some? ==> r.value < |creds| && Admits(c, pass, creds[r.value], now))
            && (r.Some? && c.strategy == Fallback ==> Earliest(c, pass, creds, now, r.value))
            && (r.Some? && c.strategy == LeastRequests ==> LeastLoaded(c, pass, creds, now, |creds|, r.value))
            && (r.Some? && c.strategy == RoundRobin ==>
                  exists skip :: NextInTurn(c, pass, creds, now, Base(c, |creds|, counter), skip, r.value))
  {
    match c.strategy
    case Fallback => FirstFrom(c, pass, creds, now, 0);
    case LeastRequests => LeastOf(c, pass, creds, now, |creds|);
    case RoundRobin =>
      if creds != [] {
        CyclicFrom(c, pass, creds, now, Base(c, |creds|, counter), 0);
      }
  }

  // ----- what Select promises of the pool it was given -----

  /** Parked or circuit-broken, and its time is not over. */
  predicate Cooling(e: Cred, now: Time) {
    e.health != Healthy && now <= e.coolEnd
  }

  /** The credential's proactive limits at `now`, on the samples still in the window. */
  ghost predicate WithinCaps(c: Config, e: Cred, now: Time) {
    UnderCaps(c, Refresh(c, e, now))
  }

  lemma RefreshKeeps(c: Config, e: Cred, now: Time)
    ensures var f := Refresh(c, e, now);
            && f.id == e.id && f.inFlight == e.inFlight && f.rateLimitFailures == e.rateLimitFailures
            && f.coolEnd == e.coolEnd && (Available(f, now) <==> !Cooling(e, now))
            && (Available(f, now) ==> f.health == Healthy)
  {
  }

  lemma ChooseIsRight(c: Config, creds: seq<Cred>, counter: nat, a: map<string, Binding<string>>, key: string, now: Time)
    requires ValidConfig(c)
    ensures var s := Choose(c, creds, counter, a, key, now);
            && (s.index.Some? ==> s.index.value < |creds| && Available(creds[s.index.value], now))
            && (s.index.Some? && !s.backstop ==> UnderCaps(c, creds[s.index.value]))
            && (s.backstop ==> NobodyAdmitted(c, Proactive, creds, now))
            && (s.index.None? ==> NobodyAdmitted(c, Proactive, creds, now))
            && (s.index.None? && (c.rateLimit > 0 || c.tpmLimit > 0) ==> NobodyAdmitted(c, Backstop, creds, now))
            && (c.rateLimit <= 0 && c.tpmLimit <= 0 ==> !s.backstop)
  {
    PickIsRight(c, Proactive, creds, now, counter);
    PickIsRight(c, Backstop, creds, now, CounterAfter(c, creds, counter));
  }

  /** The selected key is not cooling, is taken exactly once more, and every other key keeps its load. */
  lemma SelectSound(c: Config, p: Pool, now: Time, key: string)
    requires ValidConfig(c)
    ensures var (q, s) := SelectStep(c, p, now, key);
            && |q.creds| == |p.creds|
            && (s.index.Some? ==> s.index.value < |p.creds| && !Cooling(p.creds[s.index.value], now))
            && (forall i :: 0 <= i < |p.creds| ==>
                  q.creds[i].inFlight == p.creds[i].inFlight + (if s.index == Some(i) then 1 else 0))
  {
    var creds := RefreshAll(c, p.creds, now);
    ChooseIsRight(c, creds, p.counter, p.affinity, key, now);
    forall i | 0 <= i < |p.creds|
      ensures creds[i].inFlight == p.creds[i].inFlight
      ensures Available(creds[i], now) <==> !Cooling(p.creds[i], now)
    {
      RefreshKeeps(c, p.creds[i], now);
    }
  }

  /** A key over a limit is chosen only when every key that is not cooling is over one. */
  lemma OverCapsOnlyAsBackstop(c: Config, p: Pool, now: Time, key: string)
    requires ValidConfig(c)
    ensures var s := SelectStep(c, p, now, key).1;
            s.index.Some? && s.index.value < |p.creds| && !WithinCaps(c, p.creds[s.index.value], now) ==>
              && s.backstop
              && forall j :: 0 <= j < |p.creds| && !Cooling(p.creds[j], now) ==> !WithinCaps(c, p.creds[j], now)
  {
    var creds := RefreshAll(c, p.creds, now);
    ChooseIsRight(c, creds, p.counter, p.affinity, key, now);
    var s := SelectStep(c, p, now, key).1;
    if s.backstop {
      forall j | 0 <= j < |p.creds| && !Cooling(p.creds[j], now) ensures !WithinCaps(c, p.creds[j], now) {
        RefreshKeeps(c, p.creds[j], now);
        assert !Admits(c, Proactive, creds[j], now);
      }
    }
  }

  /** Limits that can be met, or a backstop to fall on: what a negative limit takes away. */
  predicate Served(c: Config) {
    || c.rateLimit > 0 || c.tpmLimit > 0
    || ((c.rateLimit == 0 || c.rateSoftLimit > 0) && c.tpmLimit == 0)
  }

  /** What holds of every reachable credential: no request log without a limit, no negative samples. */
  ghost predicate Logged(c: Config, e: Cred) {
    && (c.rateLimit <= 0 ==> e.recentRequests == [])
    && (forall k :: 0 <= k < |e.recentTokens| ==> e.recentTokens[k].tokens > 0)
  }

  lemma {:induction false} SumNonNegative(s: seq<TokenSample>)
    requires forall k :: 0 <= k < |s| ==> s[k].tokens > 0
    ensures TokenSum(s) >= 0
  {
    if s != [] {
      SumNonNegative(s[..|s| - 1]);
    }
  }

  /**
   * Select fails exactly when every key is cooling, provided the limits can be served;
   * with limits that cannot be, it always fails, whatever the keys' health.
   */
  lemma NoSelectionIff(c: Config, p: Pool, now: Time, key: string)
    requires ValidConfig(c)
    requires forall i :: 0 <= i < |p.creds| ==> Logged(c, p.creds[i])
    ensures SelectStep(c, p, now, key).1.index.None? <==>
              (Served(c) ==> forall i :: 0 <= i < |p.creds| ==> Cooling(p.creds[i], now))
  {
    var creds := RefreshAll(c, p.creds, now);
    ChooseIsRight(c, creds, p.counter, p.affinity, key, now);
    PickIsRight(c, Proactive, creds, now, p.counter);
    forall i | 0 <= i < |p.creds|
      ensures Available(creds[i], now) <==> !Cooling(p.creds[i], now)
      ensures c.rateLimit <= 0 && c.tpmLimit <= 0 && Served(c) ==> UnderCaps(c, creds[i])
      ensures !Served(c) ==> !UnderCaps(c, creds[i])
    {
      RefreshKeeps(c, p.creds[i], now);
      SumNonNegative(p.creds[i].recentTokens);
    }
    var s := SelectStep(c, p, now, key).1;
    if s.index.None? && Served(c) {
      forall i | 0 <= i < |p.creds| ensures Cooling(p.creds[i], now) {
        assert !Admits(c, Proactive, creds[i], now);
        if c.rateLimit > 0 || c.tpmLimit > 0 {
          assert !Admits(c, Backstop, creds[i], now);
        }
      }
    }
  }

  /** A negative request limit without a soft limit starves a pool of healthy keys. */
  lemma NegativeLimitStarves()
    ensures exists c: Config, p: Pool ::
              ValidConfig(c) && |p.creds| == 1 && p.creds[0].health == Healthy &&
              Logged(c, p.creds[0]) && SelectStep(c, p, 0, "").1.index.None?
  {
    var c := Config(Fallback, 5, 60, -1, 0, 60, 0, [10], 1, None);
    var e := Cred("a", Healthy, 0, 0, 0, 0, [], []);
    var p := Pool([e], 0, map[]);
    NoSelectionIff(c, p, 0, "");
  }

  // ----- sticky sessions -----

  ghost predicate Distinct(creds: seq<Cred>) {
    forall j, k :: 0 <= j < k < |creds| ==> creds[j].id != creds[k].id
  }

  lemma FindsUnique(creds: seq<Cred>, i: nat)
    requires i < |creds|
    requires Distinct(creds)
    ensures FindByID(creds, creds[i].id) == Some(i)
  {
    var r := FindByID(creds, creds[i].id);
    assert r.Some?;
    assert r.value == i;
  }

  /** The session's binding, fresh from one selection, decides the next while its key is admitted. */
  lemma SessionSticks(c: Config, p: Pool, key: string, now: Time, later: Time)
    requires ValidConfig(c) && c.stickyTTL.Some? && key != "" && now <= later <= now + c.stickyTTL.value
    requires Distinct(p.creds)
    ensures var (q, s) := SelectStep(c, p, now, key);
            s.index.Some? ==>
              && s.index.value < |q.creds|
              && (Admits(c, Proactive, Refresh(c, q.creds[s.index.value], later), later) ==>
                    var s2 := SelectStep(c, q, later, key).1;
                    s2.index == s.index && s2.counter == s.counter && !s2.backstop)
  {
    var (q, s) := SelectStep(c, p, now, key);
    var creds := RefreshAll(c, p.creds, now);
    ChooseIsRight(c, creds, p.counter, p.affinity, key, now);
    if s.index.Some? {
      var i := s.index.value;
      var creds2 := RefreshAll(c, q.creds, later);
      forall j | 0 <= j < |creds2| ensures creds2[j].id == p.creds[j].id {
        RefreshKeeps(c, p.creds[j], now);
        RefreshKeeps(c, q.creds[j], later);
      }
      FindsUnique(creds2, i);
      assert key in q.affinity && q.affinity[key] == Binding(creds[i].id, now);
    }
  }
}
