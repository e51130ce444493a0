/** The life of one key, told by the events of a run alone: failures, strikes, and when it is out of service. */
module PoolStory {
  import opened Options
  import opened PoolModel
  import opened PoolFacts
  import opened PoolRuns

  /** `end` is when the latest pause ends or ended. */
  datatype Story = Story(failures: int, strikes: nat, health: Health, end: Time)

  /** A failed fetch or a failed attempt counts; the threshold breaks the circuit, whatever the key's health. */
  function Struck(c: Config, s: Story, now: Time): Story {
    var failures := s.failures + 1;
    if failures < c.threshold then s.(failures := failures)
    else Story(failures, s.strikes, CoolingDown, now + c.cooldown)
  }

  /** Only a healthy key is put on pause. */
  function Paused(s: Story, until: Time): Story {
    if s.health == Healthy then s.(health := RateLimited, end := until) else s
  }

  /** What comes of key `i`, whose id is `id`. */
  function StoryAfter(c: Config, s: Story, e: Event, i: nat, id: string): Story
    requires ValidConfig(c)
  {
    match e
    case Select(now, _) => if s.health != Healthy && now > s.end then s.(failures := 0, health := Healthy) else s
    case FetchFailed(j, now) => if j == i then Struck(c, s, now) else s
    case Release(other, outcome, now) =>
      if other != id then s else
      (match outcome
       case Success => s.(failures := 0, strikes := 0)
       case Failure => Struck(c, s, now)
       case RateLimit(after) =>
         var tier := Min(s.strikes, |c.tiers| - 1);
         Paused(s, now + if after > 0 then after else c.tiers[tier]).(strikes := s.strikes + 1)
       case Overload(after) => Paused(s, now + if after > 0 then after else 5 * SECOND)
       case Deadline => s)
    case Probe => if s.health == RateLimited then s.(health := Healthy) else s
    case ProbeFetchFailed(j) => if j == i then s.(health := RateLimited) else s
    case RecordTokens(_, _, _) => s
  }

  function StoryOf(c: Config, first: Story, es: seq<Event>, i: nat, id: string): Story
    requires ValidConfig(c)
  {
    if es == [] then first else StoryAfter(c, StoryOf(c, first, es[..|es| - 1], i, id), es[|es| - 1], i, id)
  }

  function Told(e: Cred): Story {
    Story(e.failures, e.rateLimitFailures, e.health, e.coolEnd)
  }

  lemma StepTold(c: Config, q: Pool, e: Event, i: nat)
    requires ValidConfig(c) && i < |q.creds| && Distinct(q.creds)
    ensures Told(Step(c, q, e).creds[i]) == StoryAfter(c, Told(q.creds[i]), e, i, q.creds[i].id)
  {
    StepAt(c, q, e, i);
    FindsUnique(q.creds, i);
  }

  lemma {:induction false} RunKeepsDistinct(c: Config, p: Pool, es: seq<Event>)
    requires ValidConfig(c) && Distinct(p.creds)
    ensures Distinct(Run(c, p, es).creds)
  {
    forall j | 0 <= j < |p.creds|
      ensures Run(c, p, es).creds[j].id == p.creds[j].id
    {
      RunKeepsIds(c, p, es, j);
    }
  }

  /** In every run the events alone tell a key's failures, its strikes, its health and when its pause ends. */
  lemma {:induction false} RunTold(c: Config, p: Pool, es: seq<Event>, i: nat)
    requires ValidConfig(c) && Distinct(p.creds) && i < |p.creds|
    ensures Told(Run(c, p, es).creds[i]) == StoryOf(c, Told(p.creds[i]), es, i, p.creds[i].id)
  {
    if es != [] {
      var init := es[..|es| - 1];
      RunTold(c, p, init, i);
      RunKeepsDistinct(c, p, init);
      RunKeepsIds(c, p, init, i);
      StepTold(c, Run(c, p, init), es[|es| - 1], i);
    }
  }

  // ----- failures counted -----

  /** A failed fetch of the key, or a failed attempt with it. */
  predicate Fails(e: Event, i: nat, id: string) {
    (e.FetchFailed? && e.i == i) || (e.Release? && e.id == id && e.outcome == Failure)
  }

  /** A success of the key, or a selection that finds it out of service with its pause over. */
  predicate Clears(s: Story, e: Event, id: string) {
    || (e.Release? && e.id == id && e.outcome == Success)
    || (e.Select? && s.health != Healthy && e.now > s.end)
  }

  function FailuresIn(es: seq<Event>, i: nat, id: string): nat {
    if es == [] then 0 else FailuresIn(es[..|es| - 1], i, id) + if Fails(es[|es| - 1], i, id) then 1 else 0
  }

  /** How many of the events come after the last that cleared the key. */
  function SinceCleared(c: Config, first: Story, es: seq<Event>, i: nat, id: string): (n: nat)
    requires ValidConfig(c)
    ensures n <= |es|
  {
    if es == [] || Clears(StoryOf(c, first, es[..|es| - 1], i, id), es[|es| - 1], id) then 0
    else SinceCleared(c, first, es[..|es| - 1], i, id) + 1
  }


  lemma FailuresSnoc(es: seq<Event>, e: Event, i: nat, id: string)
    ensures FailuresIn(es + [e], i, id) == FailuresIn(es, i, id) + if Fails(e, i, id) then 1 else 0
  {
    assert (es + [e])[..|es|] == es;
  }

  lemma OneMoreFailure(c: Config, s: Story, e: Event, i: nat, id: string)
    requires ValidConfig(c)
    ensures StoryAfter(c, s, e, i, id).failures
         == if Clears(s, e, id) then 0 else s.failures + if Fails(e, i, id) then 1 else 0
  {
  }

  /** The failures of a story are those among the events since the last that cleared it. */
  lemma {:induction false} StoryCounts(c: Config, first: Story, es: seq<Event>, i: nat, id: string)
    requires ValidConfig(c) && first.failures == 0
    ensures StoryOf(c, first, es, i, id).failures == FailuresIn(es[|es| - SinceCleared(c, first, es, i, id)..], i, id)
  {
    if es != [] {
      var init, e := es[..|es| - 1], es[|es| - 1];
      var s := StoryOf(c, first, init, i, id);
      StoryCounts(c, first, init, i, id);
      OneMoreFailure(c, s, e, i, id);
      if !Clears(s, e, id) {
        var from := |init| - SinceCleared(c, first, init, i, id);
        assert es[from..] == init[from..] + [e];
        FailuresSnoc(init[from..], e, i, id);
      } else {
        assert es[|es|..] == [];
      }
    }
  }

  /**
   * In every run of a new pool a key's failures are its failed fetches and failed attempts since its last success
   * or recovery.
   */
  lemma {:induction false} FailuresCounted(c: Config, p: Pool, es: seq<Event>, i: nat)
    requires ValidConfig(c) && Fresh(p) && i < |p.creds|
    ensures var since := SinceCleared(c, Told(p.creds[i]), es, i, p.creds[i].id);
            Run(c, p, es).creds[i].failures == FailuresIn(es[|es| - since..], i, p.creds[i].id)
  {
    RunTold(c, p, es, i);
    StoryCounts(c, Told(p.creds[i]), es, i, p.creds[i].id);
  }

  // ----- the circuit breaker -----

  /** The latest failure and those before it, since the key was cleared. */
  function InARow(c: Config, p: Pool, es: seq<Event>, i: nat): nat
    requires ValidConfig(c) && i < |p.creds|
  {
    var since := SinceCleared(c, Told(p.creds[i]), es, i, p.creds[i].id);
    FailuresIn(es[|es| - since..], i, p.creds[i].id)
  }

  lemma FailingEvent(c: Config, s: Story, e: Event, i: nat, id: string)
    requires ValidConfig(c) && Fails(e, i, id)
    ensures var t := StoryAfter(c, s, e, i, id);
            && t.failures == s.failures + 1 && t.strikes == s.strikes
            && (t.failures >= c.threshold ==> t.health == CoolingDown && t.end == e.now + c.cooldown)
            && (t.failures < c.threshold ==> t.health == s.health && t.end == s.end)
  {
  }

  /** The key after one more failing event. */
  lemma {:induction false} OneMoreFails(c: Config, p: Pool, es: seq<Event>, e: Event, i: nat, before: Cred, after: Cred)
    requires ValidConfig(c) && Fresh(p) && i < |p.creds| && Fails(e, i, p.creds[i].id)
    requires before == Run(c, p, es).creds[i] && after == Run(c, p, es + [e]).creds[i]
    ensures InARow(c, p, es + [e], i) == after.failures
    ensures if after.failures >= c.threshold then after.health == CoolingDown && after.coolEnd == e.now + c.cooldown
            else after.health == before.health && after.coolEnd == before.coolEnd
  {
    assert (es + [e])[..|es|] == es;
    RunTold(c, p, es, i);
    RunTold(c, p, es + [e], i);
    FailuresCounted(c, p, es + [e], i);
    FailingEvent(c, StoryOf(c, Told(p.creds[i]), es, i, p.creds[i].id), e, i, p.creds[i].id);
  }

  /** No selection takes a circuit-broken key before its time. */
  lemma BrokenIsNotChosen(c: Config, q: Pool, i: nat, later: Time, key: string)
    requires ValidConfig(c) && i < |q.creds| && q.creds[i].health == CoolingDown && later <= q.creds[i].coolEnd
    ensures Chosen(c, q, Select(later, key)) != Some(i)
  {
    SelectSound(c, q, later, key);
  }

  /**
   * In every run of a new pool: a failure that is the threshold's or a later one in a row leaves the key out of
   * service until a cooldown later, and no selection takes it before; any earlier one leaves its health as it was.
   */
  lemma {:induction false} BreaksAtThreshold(c: Config, p: Pool, es: seq<Event>, e: Event, i: nat, later: Time, key: string)
    requires ValidConfig(c) && Fresh(p) && i < |p.creds| && Fails(e, i, p.creds[i].id)
    ensures var before, after := Run(c, p, es).creds[i], Run(c, p, es + [e]).creds[i];
            if InARow(c, p, es + [e], i) >= c.threshold then
              && after.health == CoolingDown && after.coolEnd == e.now + c.cooldown
              && (later <= e.now + c.cooldown ==> Chosen(c, Run(c, p, es + [e]), Select(later, key)) != Some(i))
            else after.health == before.health && after.coolEnd == before.coolEnd
  {
    var q := Run(c, p, es + [e]);
    OneMoreFails(c, p, es, e, i, Run(c, p, es).creds[i], q.creds[i]);
    if q.creds[i].failures >= c.threshold && later <= e.now + c.cooldown {
      BrokenIsNotChosen(c, q, i, later, key);
    }
  }

  /** Not broken, or broken by enough failures in a row. */
  predicate SparedOrBroken(c: Config, s: Story) {
    s.health == CoolingDown ==> s.failures >= c.threshold
  }

  lemma StaysSpared(c: Config, s: Story, e: Event, i: nat, id: string)
    requires ValidConfig(c) && SparedOrBroken(c, s) && !(e.Release? && e.id == id && e.outcome == Success)
    ensures SparedOrBroken(c, StoryAfter(c, s, e, i, id))
  {
  }

  predicate NeverSucceeds(es: seq<Event>, id: string) {
    forall k :: 0 <= k < |es| ==> !(es[k].Release? && es[k].id == id && es[k].outcome == Success)
  }

  lemma {:induction false} SparedAlong(c: Config, first: Story, es: seq<Event>, i: nat, id: string)
    requires ValidConfig(c) && first.health == Healthy && NeverSucceeds(es, id)
    ensures SparedOrBroken(c, StoryOf(c, first, es, i, id))
  {
    if es != [] {
      SparedAlong(c, first, es[..|es| - 1], i, id);
      StaysSpared(c, StoryOf(c, first, es[..|es| - 1], i, id), es[|es| - 1], i, id);
    }
  }

  /** Fewer failures in a row never break the circuit. */
  lemma {:induction false} FewerNeverBreak(c: Config, p: Pool, es: seq<Event>, i: nat)
    requires ValidConfig(c) && Fresh(p) && i < |p.creds| && NeverSucceeds(es, p.creds[i].id)
    requires InARow(c, p, es, i) < c.threshold
    ensures Run(c, p, es).creds[i].health != CoolingDown
  {
    RunTold(c, p, es, i);
    FailuresCounted(c, p, es, i);
    SparedAlong(c, Told(p.creds[i]), es, i, p.creds[i].id);
  }

  // ----- failures one after another -----

  /** Attempts with one key, all failing, at the given times. */
  function Failing(id: string, times: seq<Time>): seq<Event> {
    seq(|times|, k requires 0 <= k < |times| => Release(id, Failure, times[k]))
  }

  lemma {:induction false} AllFail(id: string, times: seq<Time>, i: nat)
    ensures FailuresIn(Failing(id, times), i, id) == |times|
    decreases |times|
  {
    if times != [] {
      AllFail(id, times[..|times| - 1], i);
      assert Failing(id, times)[..|times| - 1] == Failing(id, times[..|times| - 1]);
    }
  }

  lemma {:induction false} NoneClears(c: Config, first: Story, id: string, times: seq<Time>, i: nat)
    requires ValidConfig(c)
    ensures SinceCleared(c, first, Failing(id, times), i, id) == |times|
    decreases |times|
  {
    if times != [] {
      NoneClears(c, first, id, times[..|times| - 1], i);
      assert Failing(id, times)[..|times| - 1] == Failing(id, times[..|times| - 1]);
    }
  }

  lemma {:induction false} AllInARow(c: Config, p: Pool, i: nat, times: seq<Time>)
    requires ValidConfig(c) && Fresh(p) && i < |p.creds|
    ensures InARow(c, p, Failing(p.creds[i].id, times), i) == |times|
  {
    var es := Failing(p.creds[i].id, times);
    assert es[|es| - |times|..] == es;
    NoneClears(c, Told(p.creds[i]), p.creds[i].id, times, i);
    AllFail(p.creds[i].id, times, i);
  }

  lemma FailingSnoc(id: string, times: seq<Time>)
    requires times != []
    ensures Failing(id, times) == Failing(id, times[..|times| - 1]) + [Release(id, Failure, times[|times| - 1])]
  {
  }

  /** A new key that fails so often and nothing else is out until a cooldown after the last, exactly when that is at
      least the threshold. */
  lemma {:induction false} RowOfFailures(c: Config, p: Pool, i: nat, times: seq<Time>)
    requires ValidConfig(c) && Fresh(p) && i < |p.creds|
    ensures var after := Run(c, p, Failing(p.creds[i].id, times)).creds[i];
            && after.failures == |times|
            && (|times| >= c.threshold ==> after.health == CoolingDown && after.coolEnd == times[|times| - 1] + c.cooldown)
            && (|times| < c.threshold ==> after.health == Healthy)
    decreases |times|
  {
    var id := p.creds[i].id;
    AllInARow(c, p, i, times);
    FailuresCounted(c, p, Failing(id, times), i);
    if times != [] {
      var init, last := times[..|times| - 1], times[|times| - 1];
      FailingSnoc(id, times);
      RowOfFailures(c, p, i, init);
      BreaksAtThreshold(c, p, Failing(id, init), Release(id, Failure, last), i, 0, "");
    }
  }
}
