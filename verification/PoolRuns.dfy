/** Runs of a credential pool: any sequence of its mutex sections, in any order. */
module PoolRuns {
  import opened Options
  import opened PoolModel
  import opened PoolFacts

  datatype Event =
    | Select(now: Time, key: string)
    | FetchFailed(i: nat, now: Time)
    | Release(id: string, outcome: Outcome, now: Time)
    | Probe
    | ProbeFetchFailed(i: nat)
    | RecordTokens(id: string, tokens: int, now: Time)

  function ReleaseAll(c: Config, creds: seq<Cred>, id: string, outcome: Outcome, now: Time): (r: seq<Cred>)
    requires ValidConfig(c)
    ensures |r| == |creds|
  {
    var i := FindByID(creds, id);
    if i.None? then creds else creds[i.value := ReleaseCred(c, creds[i.value], outcome, now)]
  }

  function Step(c: Config, p: Pool, e: Event): (q: Pool)
    requires ValidConfig(c)
    ensures |q.creds| == |p.creds|
  {
    match e
    case Select(now, key) => SelectStep(c, p, now, key).0
    case FetchFailed(i, now) =>
      if i < |p.creds| then p.(creds := p.creds[i := SourceFailed(c, p.creds[i], now)]) else p
    case Release(id, outcome, now) => p.(creds := ReleaseAll(c, p.creds, id, outcome, now))
    case Probe => p.(creds := LiftAll(p.creds))
    case ProbeFetchFailed(i) => if i < |p.creds| then p.(creds := p.creds[i := ProbeFailed(p.creds[i])]) else p
    case RecordTokens(id, tokens, now) => p.(creds := Record(c, p.creds, id, tokens, now))
  }

  function Run(c: Config, p: Pool, es: seq<Event>): (q: Pool)
    requires ValidConfig(c)
    ensures |q.creds| == |p.creds|
  {
    if es == [] then p else Step(c, Run(c, p, es[..|es| - 1]), es[|es| - 1])
  }

  /** A pool as constructed: every key healthy and unused. */
  ghost predicate Fresh(p: Pool) {
    && p.counter < UINT64
    && (forall i :: 0 <= i < |p.creds| ==>
          p.creds[i] == Cred(p.creds[i].id, Healthy, 0, 0, 0, p.creds[i].coolEnd, [], []))
    && Distinct(p.creds)
  }

  /** The key's state after a step; what a step does to one key. */
  lemma StepAt(c: Config, p: Pool, e: Event, i: nat)
    requires ValidConfig(c) && i < |p.creds|
    ensures var a := p.creds[i];
            var b := Step(c, p, e).creds[i];
            b.id == a.id &&
            match e {
              case Select(now, key) =>
                b == if Chosen(c, p, e) == Some(i) then Acquire(c, Refresh(c, a, now), now) else Refresh(c, a, now)
              case FetchFailed(j, now) => b == if i == j then SourceFailed(c, a, now) else a
              case Release(id, outcome, now) =>
                b == if FindByID(p.creds, id) == Some(i) then ReleaseCred(c, a, outcome, now) else a
              case Probe => b == Lift(a)
              case ProbeFetchFailed(j) => b == if i == j then ProbeFailed(a) else a
              case RecordTokens(id, tokens, now) =>
                b == if tokens > 0 && c.tpmLimit != 0 && FindByID(p.creds, id) == Some(i)
                     then a.(recentTokens := a.recentTokens + [TokenSample(now, tokens)]) else a
            }
  {
    if e.Select? {
      SelectAt(c, p, e.now, e.key, i);
    }
  }

  lemma SelectAt(c: Config, p: Pool, now: Time, key: string, i: nat)
    requires ValidConfig(c) && i < |p.creds|
    ensures var (q, s) := SelectStep(c, p, now, key);
            && q.creds[i] == (if s.index == Some(i) then Acquire(c, Refresh(c, p.creds[i], now), now)
                              else Refresh(c, p.creds[i], now))
            && q.creds[i].id == p.creds[i].id
  {
    RefreshKeeps(c, p.creds[i], now);
  }

  /** The key a step selects, if it is a selection and finds one. */
  function Chosen(c: Config, p: Pool, e: Event): Option<nat>
    requires ValidConfig(c)
  {
    if e.Select? then SelectStep(c, p, e.now, e.key).1.index else None
  }

  lemma {:induction false} RunKeepsIds(c: Config, p: Pool, es: seq<Event>, i: nat)
    requires ValidConfig(c) && i < |p.creds|
    ensures Run(c, p, es).creds[i].id == p.creds[i].id
  {
    if es != [] {
      RunKeepsIds(c, p, es[..|es| - 1], i);
      StepAt(c, Run(c, p, es[..|es| - 1]), es[|es| - 1], i);
    }
  }

  // ----- logs are clean in every run -----

  lemma {:induction false} DropsKeepsPositive(s: seq<TokenSample>, cutoff: Time)
    requires forall k :: 0 <= k < |s| ==> s[k].tokens > 0
    ensures forall k :: 0 <= k < |DropOldTokens(s, cutoff)| ==> DropOldTokens(s, cutoff)[k].tokens > 0
  {
    if s != [] && s[0].at < cutoff {
      DropsKeepsPositive(s[1..], cutoff);
    }
  }

  lemma StepKeepsLogged(c: Config, p: Pool, e: Event, i: nat)
    requires ValidConfig(c) && i < |p.creds| && Logged(c, p.creds[i])
    ensures Logged(c, Step(c, p, e).creds[i])
  {
    StepAt(c, p, e, i);
    if e.Select? {
      DropsKeepsPositive(p.creds[i].recentTokens, e.now - c.rateWindow);
    }
  }

  lemma {:induction false} RunLogged(c: Config, p: Pool, es: seq<Event>, i: nat)
    requires ValidConfig(c) && Fresh(p) && i < |p.creds|
    ensures Logged(c, Run(c, p, es).creds[i])
  {
    if es != [] {
      RunLogged(c, p, es[..|es| - 1], i);
      StepKeepsLogged(c, Run(c, p, es[..|es| - 1]), es[|es| - 1], i);
    }
  }

  /** In every run, Select fails exactly when every key is cooling, if the limits can be served at all. */
  lemma NoSelectionInRuns(c: Config, p: Pool, es: seq<Event>, now: Time, key: string)
    requires ValidConfig(c) && Fresh(p) && Served(c)
    ensures var q := Run(c, p, es);
            SelectStep(c, q, now, key).1.index.None? <==> forall i :: 0 <= i < |q.creds| ==> Cooling(q.creds[i], now)
  {
    var q := Run(c, p, es);
    forall i | 0 <= i < |q.creds| ensures Logged(c, q.creds[i]) {
      RunLogged(c, p, es, i);
    }
    NoSelectionIff(c, q, now, key);
  }

  // ----- the circuit breaker -----

  /** A key that is not circuit-broken has failures to spare. */
  predicate Sound(c: Config, e: Cred) {
    e.health != CoolingDown ==> e.failures < c.threshold
  }

  /** The one step that can break the invariant: a failed probe of a key that has failed too often meanwhile. */
  predicate Relabels(c: Config, p: Pool, e: Event, i: nat)
    requires i < |p.creds|
  {
    e == ProbeFetchFailed(i) && p.creds[i].failures >= c.threshold
  }

  lemma SoundStepIff(c: Config, p: Pool, e: Event, i: nat)
    requires ValidConfig(c) && i < |p.creds| && Sound(c, p.creds[i])
    ensures Sound(c, Step(c, p, e).creds[i]) <==> !Relabels(c, p, e, i)
  {
    StepAt(c, p, e, i);
  }

  lemma {:induction false} SoundInRuns(c: Config, p: Pool, es: seq<Event>, i: nat)
    requires ValidConfig(c) && Fresh(p) && i < |p.creds|
    requires forall k :: 0 <= k < |es| ==> !Relabels(c, Run(c, p, es[..k]), es[k], i)
    ensures Sound(c, Run(c, p, es).creds[i])
  {
    if es != [] {
      var init := es[..|es| - 1];
      forall k | 0 <= k < |init| ensures !Relabels(c, Run(c, p, init[..k]), init[k], i) {
        assert init[..k] == es[..k];
      }
      SoundInRuns(c, p, init, i);
      SoundStepIff(c, Run(c, p, init), es[|es| - 1], i);
    }
  }

  /** How the only key of a pool moves. */
  predicate Moves(c: Config, e: Event, a: Cred, b: Cred)
    requires ValidConfig(c)
  {
    b.id == a.id &&
    match e
    case Select(now, _) => b == Refresh(c, a, now) || b == Acquire(c, Refresh(c, a, now), now)
    case FetchFailed(j, now) => b == if j == 0 then SourceFailed(c, a, now) else a
    case Release(id, outcome, now) => b == if id == a.id then ReleaseCred(c, a, outcome, now) else a
    case Probe => b == Lift(a)
    case ProbeFetchFailed(j) => b == if j == 0 then ProbeFailed(a) else a
    case RecordTokens(id, tokens, now) => b == a.(recentTokens := b.recentTokens)
  }

  lemma OneKeyStep(c: Config, p: Pool, es: seq<Event>, k: nat) returns (b: Cred)
    requires ValidConfig(c) && 0 < k <= |es| && |p.creds| == 1
    ensures b == Run(c, p, es[..k]).creds[0]
    ensures Moves(c, es[k - 1], Run(c, p, es[..k - 1]).creds[0], b)
  {
    assert es[..k][..k - 1] == es[..k - 1];
    var q := Run(c, p, es[..k - 1]);
    b := Run(c, p, es[..k]).creds[0];
    StepAt(c, q, es[k - 1], 0);
    FindsUnique(q.creds, 0);
  }

  /** What six such moves make of a healthy key with threshold one. */
  lemma HiddenByProbe(c: Config, es: seq<Event>, a: seq<Cred>)
    requires ValidConfig(c) && c.threshold == 1 && |es| == 6 && |a| == 7
    requires a[0].id == "a" && a[0].health == Healthy && a[0].failures == 0
    requires es[0] == es[1] == Select(0, "") && es[2] == Release("a", RateLimit(0), 1)
    requires es[3] == Probe && es[4] == Release("a", Failure, 2) && es[5] == ProbeFetchFailed(0)
    requires forall k :: 0 <= k < 6 ==> Moves(c, es[k], a[k], a[k + 1])
    ensures !Sound(c, a[6])
  {
    assert Moves(c, es[0], a[0], a[1]) && Moves(c, es[1], a[1], a[2]);
    assert a[2].health == Healthy && a[2].failures == 0;
    assert Moves(c, es[2], a[2], a[3]);
    assert a[3].health == RateLimited;
    assert Moves(c, es[3], a[3], a[4]) && Moves(c, es[4], a[4], a[5]);
    assert a[5].failures == 1;
    assert Moves(c, es[5], a[5], a[6]);
  }

  lemma OneKeyRun(c: Config, p: Pool, es: seq<Event>) returns (a: seq<Cred>)
    requires ValidConfig(c) && |p.creds| == 1
    ensures |a| == |es| + 1 && a[0] == p.creds[0] && a[|es|] == Run(c, p, es).creds[0]
    ensures forall k :: 0 <= k < |es| ==> Moves(c, es[k], a[k], a[k + 1])
  {
    a := [p.creds[0]];
    assert es[..0] == [];
    for k := 0 to |es|
      invariant |a| == k + 1 && a[0] == p.creds[0] && a[k] == Run(c, p, es[..k]).creds[0]
      invariant forall j :: 0 <= j < k ==> Moves(c, es[j], a[j], a[j + 1])
    {
      var b := OneKeyStep(c, p, es, k + 1);
      a := a + [b];
    }
    assert es[..|es|] == es;
  }

  /** A probe in flight while the key fails to its threshold: the failed probe hides the broken circuit. */
  lemma ProbeHidesBrokenCircuit()
    ensures exists c: Config, p: Pool, es: seq<Event> ::
              ValidConfig(c) && Fresh(p) && |p.creds| == 1 && |es| == 6 && !Sound(c, Run(c, p, es).creds[0])
  {
    var c := Config(Fallback, 1, 60, 0, 0, 60, 0, [10], 1, None);
    var p := Pool([Cred("a", Healthy, 0, 0, 0, 0, [], [])], 0, map[]);
    var es := [Select(0, ""), Select(0, ""), Release("a", RateLimit(0), 1), Probe,
               Release("a", Failure, 2), ProbeFetchFailed(0)];
    BrokenCircuitHidden(c, p, es);
  }

  lemma BrokenCircuitHidden(c: Config, p: Pool, es: seq<Event>)
    requires ValidConfig(c) && Fresh(p) && c.threshold == 1 && |p.creds| == 1 && |es| == 6
    requires p.creds[0].id == "a" && p.creds[0].health == Healthy && p.creds[0].failures == 0
    requires es[0] == es[1] == Select(0, "") && es[2] == Release("a", RateLimit(0), 1)
    requires es[3] == Probe && es[4] == Release("a", Failure, 2) && es[5] == ProbeFetchFailed(0)
    ensures exists c: Config, p: Pool, es: seq<Event> ::
              ValidConfig(c) && Fresh(p) && |p.creds| == 1 && |es| == 6 && !Sound(c, Run(c, p, es).creds[0])
  {
    var a := OneKeyRun(c, p, es);
    HiddenByProbe(c, es, a);
    assert !Sound(c, Run(c, p, es).creds[0]);
  }

  // ----- escalation of 429 cooldowns -----

  function StrikesAfter(before: nat, e: Event, id: string): nat {
    if !e.Release? || e.id != id then before
    else match e.outcome
      case RateLimit(_) => before + 1
      case Success => 0
      case Overload(_) => before
      case Deadline => before
      case Failure => before
  }

  /** The 429 answers to a key since its last success, read off the run alone. */
  function Strikes(es: seq<Event>, id: string): nat {
    if es == [] then 0 else StrikesAfter(Strikes(es[..|es| - 1], id), es[|es| - 1], id)
  }

  lemma StrikesStep(c: Config, q: Pool, e: Event, i: nat)
    requires ValidConfig(c) && i < |q.creds|
    requires Distinct(q.creds)
    ensures Step(c, q, e).creds[i].rateLimitFailures
            == StrikesAfter(q.creds[i].rateLimitFailures, e, q.creds[i].id)
  {
    StepAt(c, q, e, i);
    FindsUnique(q.creds, i);
  }

  /** Neither recovery nor probes nor overloads nor expired budgets touch the count of strikes. */
  lemma {:induction false} StrikesCounted(c: Config, p: Pool, es: seq<Event>, i: nat)
    requires ValidConfig(c) && Fresh(p) && i < |p.creds|
    ensures Run(c, p, es).creds[i].rateLimitFailures == Strikes(es, p.creds[i].id)
  {
    if es != [] {
      var q := Run(c, p, es[..|es| - 1]);
      StrikesCounted(c, p, es[..|es| - 1], i);
      forall j | 0 <= j < |p.creds| ensures q.creds[j].id == p.creds[j].id {
        RunKeepsIds(c, p, es[..|es| - 1], j);
      }
      StrikesStep(c, q, es[|es| - 1], i);
    }
  }

  function Min(a: int, b: int): int {
    if a < b then a else b
  }

  lemma RunSnoc(c: Config, p: Pool, es: seq<Event>, e: Event)
    requires ValidConfig(c)
    ensures Run(c, p, es + [e]) == Step(c, Run(c, p, es), e)
  {
    assert (es + [e])[..|es|] == es;
  }

  lemma StrikesSnoc(es: seq<Event>, id: string, after: int, now: Time)
    ensures Strikes(es + [Release(id, RateLimit(after), now)], id) == Strikes(es, id) + 1
  {
    var e := Release(id, RateLimit(after), now);
    assert (es + [e])[..|es|] == es;
  }

  /** A 429 on a healthy key of a pool with distinct ids, for the step itself. */
  lemma RateLimitAt(c: Config, q: Pool, i: nat, after: int, now: Time, b: Cred)
    requires ValidConfig(c) && i < |q.creds| && q.creds[i].health == Healthy
    requires Distinct(q.creds)
    requires b == Step(c, q, Release(q.creds[i].id, RateLimit(after), now)).creds[i]
    ensures b.health == RateLimited && b.failures == q.creds[i].failures
    ensures b.coolEnd == now + (if after > 0 then after else c.tiers[Min(q.creds[i].rateLimitFailures, |c.tiers| - 1)])
  {
    StepAt(c, q, Release(q.creds[i].id, RateLimit(after), now), i);
    FindsUnique(q.creds, i);
  }

  /**
   * The k-th 429 since the last success, met by a healthy key and carrying no delay of its own,
   * parks the key for the k-th tier, or the last one when the tiers run out.
   */
  lemma EscalatingCooldown(c: Config, p: Pool, es: seq<Event>, i: nat, after: int, now: Time)
    requires ValidConfig(c) && Fresh(p) && i < |p.creds|
    requires Run(c, p, es).creds[i].health == Healthy
    ensures var e := Release(p.creds[i].id, RateLimit(after), now);
            var k := Strikes(es + [e], p.creds[i].id);
            var b := Run(c, p, es + [e]).creds[i];
            && k == Strikes(es, p.creds[i].id) + 1
            && b.health == RateLimited
            && b.coolEnd == now + (if after > 0 then after else c.tiers[Min(k - 1, |c.tiers| - 1)])
            && b.failures == Run(c, p, es).creds[i].failures
  {
    var q := Run(c, p, es);
    forall j | 0 <= j < |p.creds| ensures q.creds[j].id == p.creds[j].id {
      RunKeepsIds(c, p, es, j);
    }
    StrikesCounted(c, p, es, i);
    StrikesSnoc(es, p.creds[i].id, after, now);
    RunSnoc(c, p, es, Release(p.creds[i].id, RateLimit(after), now));
    RateLimitAt(c, q, i, after, now, Run(c, p, es + [Release(p.creds[i].id, RateLimit(after), now)]).creds[i]);
  }

  /** Overloads and expired budgets leave both counters of every key as they were. */
  lemma NoPenalty(c: Config, p: Pool, id: string, outcome: Outcome, now: Time, i: nat)
    requires ValidConfig(c) && i < |p.creds| && (outcome.Overload? || outcome.Deadline?)
    ensures var b := Step(c, p, Release(id, outcome, now)).creds[i];
            && b.failures == p.creds[i].failures && b.rateLimitFailures == p.creds[i].rateLimitFailures
            && b.recentRequests == p.creds[i].recentRequests && b.recentTokens == p.creds[i].recentTokens
            && (outcome.Deadline? ==> b.health == p.creds[i].health && b.coolEnd == p.creds[i].coolEnd)
  {
    StepAt(c, p, Release(id, outcome, now), i);
  }

  /** How long an outcome takes a healthy key out of service, if it does. */
  function Pause(c: Config, e: Cred, outcome: Outcome): Option<int>
    requires ValidConfig(c)
  {
    match outcome
    case RateLimit(after) =>
      Some(if after > 0 then after else c.tiers[Min(e.rateLimitFailures, |c.tiers| - 1)])
    case Overload(after) => Some(if after > 0 then after else 5 * SECOND)
    case Failure => if e.failures + 1 >= c.threshold then Some(c.cooldown) else None
    case Deadline => None
    case Success => None
  }

  lemma PauseTaken(c: Config, e: Cred, outcome: Outcome, now: Time, later: Time)
    requires ValidConfig(c) && e.health == Healthy
    ensures Cooling(ReleaseCred(c, e, outcome, now), later)
            <==> Pause(c, e, outcome).Some? && later <= now + Pause(c, e, outcome).value
  {
  }

  /**
   * A healthy key given back sits out exactly its pause: no selection picks it until the pause is
   * over, and after that it no longer cools.
   */
  lemma SitsOutItsPause(c: Config, p: Pool, i: nat, outcome: Outcome, now: Time, later: Time, key: string)
    requires ValidConfig(c) && i < |p.creds| && p.creds[i].health == Healthy
    requires Distinct(p.creds)
    ensures var q := Step(c, p, Release(p.creds[i].id, outcome, now));
            var d := Pause(c, p.creds[i], outcome);
            && (Cooling(q.creds[i], later) <==> d.Some? && later <= now + d.value)
            && (d.Some? && later <= now + d.value ==> Chosen(c, q, Select(later, key)) != Some(i))
  {
    var e := Release(p.creds[i].id, outcome, now);
    StepAt(c, p, e, i);
    FindsUnique(p.creds, i);
    PauseTaken(c, p.creds[i], outcome, now, later);
    SelectSound(c, Step(c, p, e), later, key);
  }
}
