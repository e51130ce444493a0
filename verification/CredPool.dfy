/** The credential pool: each method is one mutex section, proved against its step. */
module CredPool {
  import opened Options
  import opened PoolModel

  /** The pool's configuration as it is given, before defaults. */
  datatype RawConfig = RawConfig(
    strategy: string,
    threshold: int,
    cooldown: int,
    rateLimit: int,
    rateSoftLimit: int,
    rateWindow: int,
    tpmLimit: int,
    tiers: seq<int>,
    batch: int,
    sticky: bool,
    stickyTTL: int)

  const MINUTE := 60 * SECOND

  const DEFAULT_TIERS := [10 * SECOND, 30 * SECOND, 60 * SECOND, 120 * SECOND, 300 * SECOND]

  function StrategyOf(name: string): Strategy {
    if name == "least_requests" then LeastRequests
    else if name == "fallback" then Fallback
    else RoundRobin
  }

  /** Defaults filled in; every configuration, however odd, becomes a valid one. */
  function Defaults(raw: RawConfig): (c: Config)
    ensures ValidConfig(c)
  {
    var soft :=
      if raw.rateLimit > 0 && raw.rateSoftLimit <= 0 then
        if raw.rateLimit - 2 < 1 then 1 else raw.rateLimit - 2
      else raw.rateSoftLimit;
    var batch := raw.batch % UINT64;
    Config(StrategyOf(raw.strategy),
           if raw.threshold <= 0 then 5 else raw.threshold,
           if raw.cooldown <= 0 then MINUTE else raw.cooldown,
           raw.rateLimit,
           soft,
           if raw.rateWindow <= 0 then MINUTE else raw.rateWindow,
           raw.tpmLimit,
           if raw.tiers == [] then DEFAULT_TIERS else raw.tiers,
           if batch == 0 then 1 else batch,
           if !raw.sticky then None else Some(if raw.stickyTTL <= 0 then 30 * MINUTE else raw.stickyTTL))
  }

  /** What is not set: five failures break the circuit for a minute, two requests are spared of a limit, a window is a
      minute, 429s pause a key for ten seconds to five minutes, keys take turns, and sessions stick for half an hour. */
  lemma UnsetMeans(raw: RawConfig)
    requires raw.threshold <= 0 && raw.cooldown <= 0 && raw.rateSoftLimit <= 0 && raw.rateWindow <= 0
    requires raw.tiers == [] && raw.batch == 0 && raw.stickyTTL <= 0 && raw.strategy == ""
    ensures var c := Defaults(raw);
            && c.threshold == 5 && c.cooldown == 60_000_000_000 && c.rateWindow == 60_000_000_000 && c.batch == 1
            && c.tiers == [10_000_000_000, 30_000_000_000, 60_000_000_000, 120_000_000_000, 300_000_000_000]
            && c.strategy == RoundRobin && c.rateLimit == raw.rateLimit && c.tpmLimit == raw.tpmLimit
            && (raw.rateLimit > 2 ==> c.rateSoftLimit == raw.rateLimit - 2)
            && (0 < raw.rateLimit <= 2 ==> c.rateSoftLimit == 1)
            && c.stickyTTL == if raw.sticky then Some(1_800_000_000_000) else None
  {
  }

  function FreshCred(id: string): Cred {
    Cred(id, Healthy, 0, 0, 0, 0, [], [])
  }

  class CredPool {
    const cfg: Config
    var creds: seq<Cred>
    var counter: nat
    var affinity: map<string, Binding<string>>

    ghost predicate Valid()
      reads this
    {
      && ValidConfig(cfg)
      && counter < UINT64
    }

    ghost function State(): Pool
      reads this
    {
      Pool(creds, counter, affinity)
    }

    constructor (raw: RawConfig, ids: seq<string>)
      ensures Valid() && cfg == Defaults(raw)
      ensures State() == Pool(seq(|ids|, i requires 0 <= i < |ids| => FreshCred(ids[i])), 0, map[])
    {
      cfg := Defaults(raw);
      creds := seq(|ids|, i requires 0 <= i < |ids| => FreshCred(ids[i]));
      counter := 0;
      affinity := map[];
    }

    /** Recovers and prunes, then chooses: the first mutex section of Select. */
    method Select(now: Time, key: string) returns (s: Selected)
      requires Valid()
      modifies this
      ensures Valid()
      ensures (State(), s) == SelectStep(cfg, old(State()), now, key)
    {
      RecoverExpired(now);
      PruneAll(now);
      assert creds == RefreshAll(cfg, old(creds), now);
      s := ChooseCred(now, key);
      if s.index.None? {
        return;
      }
      var i := s.index.value;
      if cfg.stickyTTL.Some? && key != "" {
        affinity := Bind(affinity, key, creds[i].id, now, cfg.stickyTTL.value);
      }
      creds := creds[i := Acquire(cfg, creds[i], now)];
    }

    method RecoverExpired(now: Time)
      requires Valid()
      modifies `creds
      ensures |creds| == |old(creds)|
      ensures forall i :: 0 <= i < |creds| ==> creds[i] == Recover(old(creds)[i], now)
    {
      var i := 0;
      while i < |creds|
        invariant 0 <= i <= |creds| == |old(creds)|
        invariant forall j :: 0 <= j < i ==> creds[j] == Recover(old(creds)[j], now)
        invariant forall j :: i <= j < |creds| ==> creds[j] == old(creds)[j]
      {
        var e := creds[i];
        if (e.health == CoolingDown || e.health == RateLimited) && now > e.coolEnd {
          creds := creds[i := e.(health := Healthy, failures := 0)];
        }
        i := i + 1;
      }
    }

    method PruneAll(now: Time)
      requires Valid()
      modifies `creds
      ensures |creds| == |old(creds)|
      ensures forall i, e :: 0 <= i < |creds| && old(creds)[i] == Recover(e, now) ==> creds[i] == Refresh(cfg, e, now)
    {
      var i := 0;
      while i < |creds|
        invariant 0 <= i <= |creds| == |old(creds)|
        invariant forall j, e :: 0 <= j < i && old(creds)[j] == Recover(e, now) ==> creds[j] == Refresh(cfg, e, now)
        invariant forall j :: i <= j < |creds| ==> creds[j] == old(creds)[j]
      {
        var e := creds[i];
        if cfg.rateLimit > 0 {
          var recent := PruneWindow(e.recentRequests, now - cfg.rateWindow);
          e := e.(recentRequests := recent);
        }
        if cfg.tpmLimit > 0 {
          var tokens := PruneTokenWindow(e.recentTokens, now - cfg.rateWindow);
          e := e.(recentTokens := tokens);
        }
        creds := creds[i := e];
        i := i + 1;
      }
    }

    static method PruneWindow(s: seq<Time>, cutoff: Time) returns (r: seq<Time>)
      ensures r == DropOld(s, cutoff)
    {
      var i := 0;
      while i < |s| && s[i] < cutoff
        invariant 0 <= i <= |s|
        invariant DropOld(s[i..], cutoff) == DropOld(s, cutoff)
      {
        assert s[i..][1..] == s[i + 1..];
        i := i + 1;
      }
      r := s[i..];
    }

    static method PruneTokenWindow(s: seq<TokenSample>, cutoff: Time) returns (r: seq<TokenSample>)
      ensures r == DropOldTokens(s, cutoff)
    {
      var i := 0;
      while i < |s| && s[i].at < cutoff
        invariant 0 <= i <= |s|
        invariant DropOldTokens(s[i..], cutoff) == DropOldTokens(s, cutoff)
      {
        assert s[i..][1..] == s[i + 1..];
        i := i + 1;
      }
      r := s[i..];
    }

    static method TokensInWindow(e: Cred) returns (sum: int)
      ensures sum == TokenSum(e.recentTokens)
    {
      sum := 0;
      for i := 0 to |e.recentTokens|
        invariant sum == TokenSum(e.recentTokens[..i])
      {
        assert e.recentTokens[..i + 1][..i] == e.recentTokens[..i];
        sum := sum + e.recentTokens[i].tokens;
      }
      assert e.recentTokens[..|e.recentTokens|] == e.recentTokens;
    }

    method Eligible(pass: Pass, e: Cred, now: Time) returns (ok: bool)
      ensures ok == Admits(cfg, pass, e, now)
    {
      if !Available(e, now) {
        return false;
      }
      if pass == Backstop {
        return true;
      }
      if !(cfg.rateLimit == 0 || |e.recentRequests| < cfg.rateSoftLimit) {
        return false;
      }
      if cfg.tpmLimit == 0 {
        return true;
      }
      var sum := TokensInWindow(e);
      return sum < cfg.tpmLimit;
    }

    method ChooseCred(now: Time, key: string) returns (s: Selected)
      requires Valid()
      modifies `counter, `affinity
      ensures s == Choose(cfg, creds, old(counter), old(affinity), key, now)
      ensures counter == s.counter < UINT64
      ensures affinity == if cfg.stickyTTL.Some? && key != "" then Forget(old(affinity), key, now, cfg.stickyTTL.value)
                          else old(affinity)
      ensures s.index.Some? ==> s.index.value < |creds|
    {
      if cfg.stickyTTL.Some? && key != "" {
        var sticky := TrySticky(now, key);
        if sticky.Some? {
          return Selected(sticky, false, counter);
        }
      }
      var picked := SelectByCriteria(Proactive, now);
      if picked.None? && (cfg.rateLimit > 0 || cfg.tpmLimit > 0) {
        picked := SelectByCriteria(Backstop, now);
        return Selected(picked, true, counter);
      }
      return Selected(picked, false, counter);
    }

    method TrySticky(now: Time, key: string) returns (r: Option<nat>)
      requires Valid() && cfg.stickyTTL.Some? && key != ""
      modifies `affinity
      ensures r == StickyChoice(cfg, creds, old(affinity), key, now)
      ensures affinity == Forget(old(affinity), key, now, cfg.stickyTTL.value)
      ensures r.Some? ==> r.value < |creds|
    {
      if key !in affinity {
        return None;
      }
      var b := affinity[key];
      if now - b.lastSeen > cfg.stickyTTL.value {
        affinity := affinity - {key};
        return None;
      }
      r := FindByID(creds, b.id);
      if r.Some? {
        var ok := Eligible(Proactive, creds[r.value], now);
        if !ok {
          return None;
        }
      }
    }

    method SelectByCriteria(pass: Pass, now: Time) returns (r: Option<nat>)
      requires Valid()
      modifies `counter
      ensures r == Pick(cfg, pass, creds, now, old(counter))
      ensures counter == CounterAfter(cfg, creds, old(counter)) < UINT64
      ensures r.Some? ==> r.value < |creds|
    {
      match cfg.strategy
      case LeastRequests => r := LeastRequestsFiltered(pass, now);
      case Fallback => r := FallbackFiltered(pass, now);
      case RoundRobin => r := RoundRobinFiltered(pass, now);
    }

    method FallbackFiltered(pass: Pass, now: Time) returns (r: Option<nat>)
      ensures r == FirstAdmitted(cfg, pass, creds, now, 0)
      ensures r.Some? ==> r.value < |creds|
    {
      var i := 0;
      while i < |creds|
        invariant 0 <= i <= |creds|
        invariant FirstAdmitted(cfg, pass, creds, now, 0) == FirstAdmitted(cfg, pass, creds, now, i)
      {
        var ok := Eligible(pass, creds[i], now);
        if ok {
          return Some(i);
        }
        i := i + 1;
      }
      return None;
    }

    /** Picks from the counter's place; skipping an ineligible entry does not touch the counter. */
    method RoundRobinFiltered(pass: Pass, now: Time) returns (r: Option<nat>)
      requires Valid() && cfg.strategy == RoundRobin
      modifies `counter
      ensures r == Pick(cfg, pass, creds, now, old(counter))
      ensures counter == CounterAfter(cfg, creds, old(counter)) < UINT64
      ensures r.Some? ==> r.value < |creds|
    {
      var n := |creds|;
      if n == 0 {
        assert creds == [];
        return None;
      }
      var base := counter / cfg.batch % n;
      counter := (counter + 1) % UINT64;
      var i := 0;
      while i < n
        invariant 0 <= i <= n
        invariant CyclicAdmitted(cfg, pass, creds, now, base, 0) == CyclicAdmitted(cfg, pass, creds, now, base, i)
        invariant counter == (old(counter) + 1) % UINT64
      {
        var ok := Eligible(pass, creds[(base + i) % n], now);
        if ok {
          return Some((base + i) % n);
        }
        i := i + 1;
      }
      return None;
    }

    method LeastRequestsFiltered(pass: Pass, now: Time) returns (best: Option<nat>)
      ensures best == LeastAdmitted(cfg, pass, creds, now, |creds|)
      ensures best.Some? ==> best.value < |creds|
    {
      best := None;
      for i := 0 to |creds|
        invariant best == LeastAdmitted(cfg, pass, creds, now, i)
      {
        var ok := Eligible(pass, creds[i], now);
        if !ok {
          continue;
        }
        if best.None? || creds[i].inFlight < creds[best.value].inFlight {
          best := Some(i);
        }
      }
    }

    /** The mutex section after a failed credential fetch. */
    method SourceError(i: nat, now: Time)
      requires Valid() && i < |creds|
      modifies `creds
      ensures Valid() && creds == old(creds)[i := SourceFailed(cfg, old(creds)[i], now)]
    {
      var e := creds[i].(inFlight := creds[i].inFlight - 1, failures := creds[i].failures + 1);
      if e.failures >= cfg.threshold {
        e := e.(health := CoolingDown, coolEnd := now + cfg.cooldown);
      }
      creds := creds[i := e];
    }

    /** Gives a plan back with its outcome; an id the pool does not know is ignored. */
    method Release(id: string, outcome: Outcome, now: Time)
      requires Valid()
      modifies `creds
      ensures Valid()
      ensures FindByID(old(creds), id).None? ==> creds == old(creds)
      ensures FindByID(old(creds), id).Some? ==>
                var i := FindByID(old(creds), id).value;
                creds == old(creds)[i := ReleaseCred(cfg, old(creds)[i], outcome, now)]
    {
      var r := FindByID(creds, id);
      if r.None? {
        return;
      }
      var e := creds[r.value];
      if e.inFlight > 0 {
        e := e.(inFlight := e.inFlight - 1);
      }
      match outcome {
        case Deadline =>
        case RateLimit(retryAfter) =>
          var cooldown := RateLimitBackoff(e.rateLimitFailures);
          if retryAfter > 0 {
            cooldown := retryAfter;
          }
          e := e.(rateLimitFailures := e.rateLimitFailures + 1);
          if e.health == Healthy {
            e := e.(health := RateLimited, coolEnd := now + cooldown);
          }
        case Overload(retryAfter) =>
          var cooldown := retryAfter;
          if cooldown <= 0 {
            cooldown := 5 * SECOND;
          }
          if e.health == Healthy {
            e := e.(health := RateLimited, coolEnd := now + cooldown);
          }
        case Failure =>
          e := e.(failures := e.failures + 1);
          if e.failures >= cfg.threshold {
            e := e.(health := CoolingDown, coolEnd := now + cfg.cooldown);
          }
        case Success =>
          e := e.(failures := 0, rateLimitFailures := 0);
      }
      creds := creds[r.value := e];
    }

    method RateLimitBackoff(failures: nat) returns (d: int)
      requires Valid()
      ensures d == Backoff(cfg, failures)
    {
      var idx := failures;
      if idx >= |cfg.tiers| {
        idx := |cfg.tiers| - 1;
      }
      d := cfg.tiers[idx];
    }

    /** Lifts every rate limit and takes those credentials for a probe. */
    method TakeRateLimited() returns (candidates: seq<nat>)
      requires Valid()
      modifies `creds
      ensures Valid() && creds == LiftAll(old(creds))
      ensures forall i :: i in candidates <==> 0 <= i < |creds| && old(creds)[i].health == RateLimited
      ensures forall j, k :: 0 <= j < k < |candidates| ==> candidates[j] < candidates[k]
    {
      candidates := [];
      var i := 0;
      while i < |creds|
        invariant 0 <= i <= |creds| == |old(creds)|
        invariant forall j :: 0 <= j < i ==> creds[j] == Lift(old(creds)[j])
        invariant forall j :: i <= j < |creds| ==> creds[j] == old(creds)[j]
        invariant forall j :: j in candidates <==> 0 <= j < i && old(creds)[j].health == RateLimited
        invariant forall j, k :: 0 <= j < k < |candidates| ==> candidates[j] < candidates[k]
      {
        var e := creds[i];
        if e.health == RateLimited {
          creds := creds[i := e.(health := Healthy, inFlight := e.inFlight + 1)];
          assert forall k :: 0 <= k < |candidates| ==> candidates[k] in candidates;
          candidates := candidates + [i];
        }
        i := i + 1;
      }
    }

    method ProbeSourceError(i: nat)
      requires Valid() && i < |creds|
      modifies `creds
      ensures Valid() && creds == old(creds)[i := ProbeFailed(old(creds)[i])]
    {
      creds := creds[i := creds[i].(health := RateLimited, inFlight := creds[i].inFlight - 1)];
    }

    method RecordTokens(id: string, tokens: int, now: Time)
      requires Valid()
      modifies `creds
      ensures Valid() && creds == Record(cfg, old(creds), id, tokens, now)
    {
      if tokens <= 0 || cfg.tpmLimit == 0 {
        return;
      }
      var i := 0;
      while i < |creds|
        invariant 0 <= i <= |creds|
        invariant forall j :: 0 <= j < i ==> creds[j].id != id
      {
        if creds[i].id == id {
          var e := creds[i];
          creds := creds[i := e.(recentTokens := e.recentTokens + [TokenSample(now, tokens)])];
          return;
        }
        i := i + 1;
      }
    }

    /** The soonest end of a rate-limit cooldown still running. */
    method EarliestCooldown(now: Time) returns (earliest: Option<Time>)
      ensures earliest.None? <==> forall i :: 0 <= i < |creds| ==> !CoolingAt(creds[i], now)
      ensures earliest.Some? ==>
                && (exists i :: 0 <= i < |creds| && CoolingAt(creds[i], now) && creds[i].coolEnd == earliest.value)
                && (forall i :: 0 <= i < |creds| && CoolingAt(creds[i], now) ==> earliest.value <= creds[i].coolEnd)
    {
      earliest := None;
      for i := 0 to |creds|
        invariant earliest.None? <==> forall j :: 0 <= j < i ==> !CoolingAt(creds[j], now)
        invariant earliest.Some? ==>
                    && (exists j :: 0 <= j < i && CoolingAt(creds[j], now) && creds[j].coolEnd == earliest.value)
                    && (forall j :: 0 <= j < i && CoolingAt(creds[j], now) ==> earliest.value <= creds[j].coolEnd)
      {
        var e := creds[i];
        if e.health == RateLimited && e.coolEnd > now {
          if earliest.None? || e.coolEnd < earliest.value {
            earliest := Some(e.coolEnd);
          }
        }
      }
    }
  }

  predicate CoolingAt(e: Cred, now: Time) {
    e.health == RateLimited && e.coolEnd > now
  }
}
