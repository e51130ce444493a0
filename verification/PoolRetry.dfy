/** A retry loop over one pool: keys that an attempt parks are not tried again. */
module PoolRetry {
  import opened Options
  import opened PoolModel
  import opened PoolFacts
  import opened PoolRuns

  /** One turn of the loop: a selection, and the outcome its plan comes back with. */
  datatype Round = Round(now: Time, key: string, outcome: Outcome, after: Time)

  function Taken(c: Config, p: Pool, r: Round): Option<nat>
    requires ValidConfig(c)
  {
    Chosen(c, p, Select(r.now, r.key))
  }

  function Play(c: Config, p: Pool, r: Round): (q: Pool)
    requires ValidConfig(c)
    ensures |q.creds| == |p.creds|
  {
    var i := Taken(c, p, r);
    var selected := Step(c, p, Select(r.now, r.key));
    if i.None? || i.value >= |p.creds| then selected
    else Step(c, selected, Release(p.creds[i.value].id, r.outcome, r.after))
  }

  function PlayAll(c: Config, p: Pool, rounds: seq<Round>): (q: Pool)
    requires ValidConfig(c)
    ensures |q.creds| == |p.creds|
  {
    if rounds == [] then p else Play(c, PlayAll(c, p, rounds[..|rounds| - 1]), rounds[|rounds| - 1])
  }

  /** The keys taken, in order. */
  function KeysTaken(c: Config, p: Pool, rounds: seq<Round>): seq<nat>
    requires ValidConfig(c)
  {
    if rounds == [] then []
    else
      var before := rounds[..|rounds| - 1];
      var i := Taken(c, PlayAll(c, p, before), rounds[|rounds| - 1]);
      KeysTaken(c, p, before) + if i.Some? then [i.value] else []
  }

  /** Out of service at least until `end`. */
  predicate OutUntil(e: Cred, end: Time) {
    e.health != Healthy && end <= e.coolEnd
  }

  /** Every round selects no later than `end`, and its outcome parks the key it took until then. */
  predicate ParksUntil(c: Config, p: Pool, rounds: seq<Round>, end: Time)
    requires ValidConfig(c)
  {
    rounds != [] ==>
      var before := rounds[..|rounds| - 1];
      var r := rounds[|rounds| - 1];
      var q := PlayAll(c, p, before);
      && ParksUntil(c, p, before, end) && r.now <= end
      && (Taken(c, q, r).Some? && Taken(c, q, r).value < |q.creds| ==>
            var pause := Pause(c, Refresh(c, q.creds[Taken(c, q, r).value], r.now), r.outcome);
            pause.Some? && end <= r.after + pause.value)
  }

  /** What a round does to one key: the key taken is parked, any other keeps its health and cooldown or recovers. */
  lemma PlayAt(c: Config, p: Pool, r: Round, i: nat, end: Time)
    requires ValidConfig(c) && i < |p.creds| && Distinct(p.creds) && r.now <= end
    ensures Play(c, p, r).creds[i].id == p.creds[i].id
    ensures Taken(c, p, r) != Some(i) && OutUntil(p.creds[i], end) ==> OutUntil(Play(c, p, r).creds[i], end)
    ensures Taken(c, p, r) == Some(i) ==>
              var pause := Pause(c, Refresh(c, p.creds[i], r.now), r.outcome);
              pause.Some? && end <= r.after + pause.value ==> OutUntil(Play(c, p, r).creds[i], end)
  {
    var selected := Step(c, p, Select(r.now, r.key));
    StepAt(c, p, Select(r.now, r.key), i);
    RefreshKeeps(c, p.creds[i], r.now);
    SelectSound(c, p, r.now, r.key);
    var t := Taken(c, p, r);
    if t.Some? {
      SelectKeepsIds(c, p, r);
      StepAt(c, p, Select(r.now, r.key), t.value);
      StepAt(c, selected, Release(p.creds[t.value].id, r.outcome, r.after), i);
      FindsUnique(selected.creds, t.value);
      if t.value == i {
        TakenIsParked(c, p, selected, r, i, end);
      }
    }
  }

  lemma SelectKeepsIds(c: Config, p: Pool, r: Round)
    requires ValidConfig(c) && Distinct(p.creds)
    ensures Distinct(Step(c, p, Select(r.now, r.key)).creds)
  {
    forall i | 0 <= i < |p.creds| ensures Step(c, p, Select(r.now, r.key)).creds[i].id == p.creds[i].id {
      StepAt(c, p, Select(r.now, r.key), i);
    }
  }

  lemma TakenIsParked(c: Config, p: Pool, selected: Pool, r: Round, i: nat, end: Time)
    requires ValidConfig(c) && i < |p.creds| && Taken(c, p, r) == Some(i)
    requires |selected.creds| == |p.creds| && selected.creds[i] == Acquire(c, Refresh(c, p.creds[i], r.now), r.now)
    ensures var pause := Pause(c, Refresh(c, p.creds[i], r.now), r.outcome);
            pause.Some? && end <= r.after + pause.value ==>
              OutUntil(ReleaseCred(c, selected.creds[i], r.outcome, r.after), end)
  {
    SelectSound(c, p, r.now, r.key);
    RefreshKeeps(c, p.creds[i], r.now);
  }

  lemma {:induction false} PlayKeepsIds(c: Config, p: Pool, rounds: seq<Round>, end: Time)
    requires ValidConfig(c) && Distinct(p.creds) && ParksUntil(c, p, rounds, end)
    ensures Distinct(PlayAll(c, p, rounds).creds)
  {
    if rounds != [] {
      var q := PlayAll(c, p, rounds[..|rounds| - 1]);
      PlayKeepsIds(c, p, rounds[..|rounds| - 1], end);
      forall i | 0 <= i < |p.creds| ensures Play(c, q, rounds[|rounds| - 1]).creds[i].id == q.creds[i].id {
        PlayAt(c, q, rounds[|rounds| - 1], i, end);
      }
    }
  }

  /** Every key taken so far is out of service until the end. */
  ghost predicate AllOut(q: Pool, keys: seq<nat>, end: Time) {
    forall k :: 0 <= k < |keys| ==> keys[k] < |q.creds| && OutUntil(q.creds[keys[k]], end)
  }

  ghost predicate NoRepeats(keys: seq<nat>) {
    forall j, k :: 0 <= j < k < |keys| ==> keys[j] != keys[k]
  }

  lemma PlayKeepsOut(c: Config, q: Pool, r: Round, keys: seq<nat>, end: Time)
    requires ValidConfig(c) && Distinct(q.creds) && r.now <= end && AllOut(q, keys, end)
    requires Taken(c, q, r).Some? ==>
               && Taken(c, q, r).value < |q.creds|
               && var pause := Pause(c, Refresh(c, q.creds[Taken(c, q, r).value], r.now), r.outcome);
                  pause.Some? && end <= r.after + pause.value
    ensures var t := Taken(c, q, r);
            && (t.Some? ==> t.value !in keys)
            && AllOut(Play(c, q, r), keys + (if t.Some? then [t.value] else []), end)
  {
    SelectSound(c, q, r.now, r.key);
    var t := Taken(c, q, r);
    var all := keys + if t.Some? then [t.value] else [];
    forall k | 0 <= k < |all| ensures all[k] < |q.creds| && OutUntil(Play(c, q, r).creds[all[k]], end) {
      PlayAt(c, q, r, all[k], end);
    }
  }

  /**
   * When every attempt parks its key for longer than the loop lasts, no key is taken twice; so a loop
   * over a pool of n keys makes at most n attempts, whatever the strategy, the limits and the sessions.
   */
  lemma {:induction false} NoKeyTwice(c: Config, p: Pool, rounds: seq<Round>, end: Time)
    requires ValidConfig(c) && Distinct(p.creds) && ParksUntil(c, p, rounds, end)
    ensures NoRepeats(KeysTaken(c, p, rounds)) && AllOut(PlayAll(c, p, rounds), KeysTaken(c, p, rounds), end)
    ensures |KeysTaken(c, p, rounds)| <= |p.creds|
  {
    if rounds != [] {
      var before, r := rounds[..|rounds| - 1], rounds[|rounds| - 1];
      var q := PlayAll(c, p, before);
      NoKeyTwice(c, p, before, end);
      PlayKeepsIds(c, p, before, end);
      SelectSound(c, q, r.now, r.key);
      PlayKeepsOut(c, q, r, KeysTaken(c, p, before), end);
    }
    FitsIn(KeysTaken(c, p, rounds), |p.creds|);
  }

  lemma FitsIn(keys: seq<nat>, n: nat)
    requires NoRepeats(keys) && forall k :: 0 <= k < |keys| ==> keys[k] < n
    ensures |keys| <= n
  {
    var some := set k | 0 <= k < |keys| :: keys[k];
    BelowIs(n);
    CountKeys(keys);
    assert some <= Below(n);
    Smaller(some, Below(n));
  }

  function Below(n: nat): set<nat> {
    if n == 0 then {} else Below(n - 1) + {n - 1}
  }

  lemma Smaller(a: set<nat>, b: set<nat>)
    requires a <= b
    ensures |a| <= |b|
  {
    assert b == a + (b - a);
  }

  lemma {:induction false} BelowIs(n: nat)
    ensures |Below(n)| == n && forall i: nat :: i in Below(n) <==> i < n
  {
    if n > 0 {
      BelowIs(n - 1);
    }
  }

  lemma {:induction false} CountKeys(keys: seq<nat>)
    requires NoRepeats(keys)
    ensures |set k | 0 <= k < |keys| :: keys[k]| == |keys|
  {
    if keys != [] {
      var init, last := keys[..|keys| - 1], keys[|keys| - 1];
      CountKeys(init);
      assert (set k | 0 <= k < |keys| :: keys[k]) == (set k | 0 <= k < |init| :: init[k]) + {last};
    }
  }
}
