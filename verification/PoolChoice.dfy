/** Which key a selection takes, said of the pool as it was given. */
module PoolChoice {
  import opened Options
  import opened PoolModel
  import opened PoolFacts

  /** Key `i` is not cooling and, where the limits are heeded, within them. */
  ghost predicate Usable(c: Config, p: Pool, now: Time, heeded: bool, i: nat) {
    i < |p.creds| && !Cooling(p.creds[i], now) && (heeded ==> WithinCaps(c, p.creds[i], now))
  }

  ghost predicate AnyUsable(c: Config, p: Pool, now: Time, heeded: bool) {
    exists i :: Usable(c, p, now, heeded, i)
  }

  /** The session's binding is live and names key `i`, which can serve it within its limits. */
  ghost predicate SessionServes(c: Config, p: Pool, now: Time, key: string, i: nat) {
    && c.stickyTTL.Some? && key != "" && key in p.affinity && now - p.affinity[key].lastSeen <= c.stickyTTL.value
    && Usable(c, p, now, true, i) && p.creds[i].id == p.affinity[key].id
    && forall j :: 0 <= j < i ==> p.creds[j].id != p.affinity[key].id
  }

  /** The usable key the strategy is documented to take: the earliest, the earliest of the least loaded, or the
      first in the ring from the counter's place on. */
  ghost predicate Due(c: Config, p: Pool, now: Time, heeded: bool, counter: nat, i: nat)
    requires c.batch > 0
  {
    && Usable(c, p, now, heeded, i)
    && match c.strategy
       case Fallback => forall j :: 0 <= j < i ==> !Usable(c, p, now, heeded, j)
       case LeastRequests =>
         && (forall j: nat :: Usable(c, p, now, heeded, j) ==> p.creds[i].inFlight <= p.creds[j].inFlight)
         && (forall j: nat :: j < i && Usable(c, p, now, heeded, j) ==> p.creds[i].inFlight < p.creds[j].inFlight)
       case RoundRobin => exists skip :: FirstInRing(c, p, now, heeded, counter / c.batch % |p.creds|, skip, i)
  }

  ghost predicate FirstInRing(c: Config, p: Pool, now: Time, heeded: bool, place: nat, skip: nat, i: nat) {
    && skip < |p.creds| && i == InRing(place, skip, |p.creds|)
    && forall k :: 0 <= k < skip ==> !Usable(c, p, now, heeded, InRing(place, k, |p.creds|))
  }

  /** The `k`-th after `place` of `n` in a ring. */
  function InRing(place: nat, k: nat, n: nat): nat
    requires n > 0
  {
    (place + k) % n
  }

  // ----- the refreshed pool and the one given -----

  lemma UsableIff(c: Config, p: Pool, creds: seq<Cred>, now: Time, heeded: bool, i: nat)
    requires creds == RefreshAll(c, p.creds, now) && i < |p.creds|
    ensures Usable(c, p, now, heeded, i) <==> Admits(c, if heeded then Proactive else Backstop, creds[i], now)
    ensures creds[i].inFlight == p.creds[i].inFlight && creds[i].id == p.creds[i].id
  {
    RefreshKeeps(c, p.creds[i], now);
  }

  /** The pass admits the refreshed keys that are usable. */
  ghost predicate Mirrors(c: Config, p: Pool, creds: seq<Cred>, now: Time, heeded: bool, pass: Pass) {
    && |creds| == |p.creds|
    && (forall i: nat :: i < |creds| ==> (Usable(c, p, now, heeded, i) <==> Admits(c, pass, creds[i], now)))
    && (forall i: nat :: i < |creds| ==> creds[i].inFlight == p.creds[i].inFlight)
  }

  lemma RefreshMirrors(c: Config, p: Pool, creds: seq<Cred>, now: Time, heeded: bool)
    requires creds == RefreshAll(c, p.creds, now)
    ensures Mirrors(c, p, creds, now, heeded, if heeded then Proactive else Backstop)
  {
    forall i: nat | i < |creds|
      ensures Usable(c, p, now, heeded, i) <==> Admits(c, if heeded then Proactive else Backstop, creds[i], now)
      ensures creds[i].inFlight == p.creds[i].inFlight
    {
      UsableIff(c, p, creds, now, heeded, i);
    }
  }

  lemma EarliestIsDue(c: Config, p: Pool, creds: seq<Cred>, now: Time, heeded: bool, pass: Pass, counter: nat, i: nat)
    requires ValidConfig(c) && c.strategy == Fallback && Mirrors(c, p, creds, now, heeded, pass)
    requires Earliest(c, pass, creds, now, i)
    ensures Due(c, p, now, heeded, counter, i)
  {
    forall j | 0 <= j < i
      ensures !Usable(c, p, now, heeded, j)
    {
      assert !Admits(c, pass, creds[j], now);
    }
  }

  lemma LeastIsDue(c: Config, p: Pool, creds: seq<Cred>, now: Time, heeded: bool, pass: Pass, counter: nat, i: nat)
    requires ValidConfig(c) && c.strategy == LeastRequests && Mirrors(c, p, creds, now, heeded, pass)
    requires LeastLoaded(c, pass, creds, now, |creds|, i)
    ensures Due(c, p, now, heeded, counter, i)
  {
    forall j: nat | Usable(c, p, now, heeded, j)
      ensures p.creds[i].inFlight <= p.creds[j].inFlight && (j < i ==> p.creds[i].inFlight < p.creds[j].inFlight)
    {
      assert Admits(c, pass, creds[j], now);
    }
  }

  lemma TurnIsDue(c: Config, p: Pool, creds: seq<Cred>, now: Time, heeded: bool, pass: Pass, counter: nat, place: nat,
                  skip: nat, i: nat)
    requires ValidConfig(c) && c.strategy == RoundRobin && Mirrors(c, p, creds, now, heeded, pass) && creds != []
    requires place == counter / c.batch % |creds| && NextInTurn(c, pass, creds, now, place, skip, i)
    ensures Due(c, p, now, heeded, counter, i)
  {
    forall k | 0 <= k < skip
      ensures !Usable(c, p, now, heeded, InRing(place, k, |p.creds|))
    {
      assert InRing(place, k, |p.creds|) == Place(place, k, |creds|);
      assert !Admits(c, pass, creds[Place(place, k, |creds|)], now);
    }
    assert InRing(place, skip, |p.creds|) == Place(place, skip, |creds|);
    assert FirstInRing(c, p, now, heeded, place, skip, i);
  }

  lemma PickedIsDue(c: Config, p: Pool, creds: seq<Cred>, now: Time, heeded: bool, pass: Pass, counter: nat, i: nat)
    requires ValidConfig(c) && Mirrors(c, p, creds, now, heeded, pass) && Pick(c, pass, creds, now, counter) == Some(i)
    ensures i < |p.creds| && Due(c, p, now, heeded, counter, i)
  {
    PickIsRight(c, pass, creds, now, counter);
    match c.strategy
    case Fallback => EarliestIsDue(c, p, creds, now, heeded, pass, counter, i);
    case LeastRequests => LeastIsDue(c, p, creds, now, heeded, pass, counter, i);
    case RoundRobin =>
      var skip :| NextInTurn(c, pass, creds, now, Base(c, |creds|, counter), skip, i);
      TurnIsDue(c, p, creds, now, heeded, pass, counter, Base(c, |creds|, counter), skip, i);
  }

  /** A strategy's pick over the refreshed pool is the key due. */
  lemma PickIsDue(c: Config, p: Pool, creds: seq<Cred>, now: Time, heeded: bool, pass: Pass, counter: nat)
    requires ValidConfig(c) && Mirrors(c, p, creds, now, heeded, pass)
    ensures DueOrNone(c, p, now, heeded, counter, Pick(c, pass, creds, now, counter))
  {
    PickIsRight(c, pass, creds, now, counter);
    var r := Pick(c, pass, creds, now, counter);
    if r.Some? {
      PickedIsDue(c, p, creds, now, heeded, pass, counter, r.value);
      assert Usable(c, p, now, heeded, r.value);
    } else {
      forall i: nat
        ensures !Usable(c, p, now, heeded, i)
      {
        assert i < |creds| ==> !Admits(c, pass, creds[i], now);
      }
    }
  }

  /** The key due, when any is usable. */
  ghost predicate DueOrNone(c: Config, p: Pool, now: Time, heeded: bool, counter: nat, r: Option<nat>)
    requires c.batch > 0
  {
    if AnyUsable(c, p, now, heeded) then r.Some? && Due(c, p, now, heeded, counter, r.value) else r.None?
  }

  lemma StickyIff(c: Config, p: Pool, creds: seq<Cred>, now: Time, key: string, i: nat)
    requires creds == RefreshAll(c, p.creds, now)
    ensures StickyChoice(c, creds, p.affinity, key, now) == Some(i) <==> SessionServes(c, p, now, key, i)
  {
    forall j | 0 <= j < |p.creds|
      ensures creds[j].id == p.creds[j].id && (Usable(c, p, now, true, j) <==> Admits(c, Proactive, creds[j], now))
    {
      UsableIff(c, p, creds, now, true, j);
    }
  }

  // ----- selections -----

  /** One turn of the ring uses one number. */
  function NextCount(c: Config, p: Pool, counter: nat): nat {
    if c.strategy == RoundRobin && p.creds != [] then (counter + 1) % UINT64 else counter
  }

  /** The key taken for a session its bound key does not serve. */
  ghost predicate Rightly(c: Config, p: Pool, now: Time, s: Selected)
    requires c.batch > 0
  {
    if AnyUsable(c, p, now, true) then
      s.index.Some? && Due(c, p, now, true, p.counter, s.index.value) && !s.backstop && s.counter == NextCount(c, p, p.counter)
    else if (c.rateLimit > 0 || c.tpmLimit > 0) && AnyUsable(c, p, now, false) then
      && s.index.Some? && Due(c, p, now, false, NextCount(c, p, p.counter), s.index.value) && s.backstop
      && s.counter == NextCount(c, p, NextCount(c, p, p.counter))
    else s.index.None? && s.counter == if c.rateLimit > 0 || c.tpmLimit > 0 then NextCount(c, p, NextCount(c, p, p.counter))
                                       else NextCount(c, p, p.counter)
  }

  /** What the two passes make of the refreshed pool. */
  lemma PassesAreRight(c: Config, p: Pool, creds: seq<Cred>, now: Time, s: Selected)
    requires ValidConfig(c) && creds == RefreshAll(c, p.creds, now)
    requires var first, next := Pick(c, Proactive, creds, now, p.counter), CounterAfter(c, creds, p.counter);
             s == if first.Some? || !(c.rateLimit > 0 || c.tpmLimit > 0) then Selected(first, false, next)
                  else Selected(Pick(c, Backstop, creds, now, next), true, CounterAfter(c, creds, next))
    ensures Rightly(c, p, now, s)
  {
    RefreshMirrors(c, p, creds, now, true);
    RefreshMirrors(c, p, creds, now, false);
    PickIsDue(c, p, creds, now, true, Proactive, p.counter);
    PickIsDue(c, p, creds, now, false, Backstop, NextCount(c, p, p.counter));
  }

  /**
   * A session's own key, while it can serve it. Otherwise the key the strategy has due among those that are not cooling
   * and within their limits; when there is none, among those that are not cooling, if there are limits at all.
   */
  lemma SelectionIsRight(c: Config, p: Pool, now: Time, key: string)
    requires ValidConfig(c)
    ensures var s := SelectStep(c, p, now, key).1;
            && (forall i: nat :: SessionServes(c, p, now, key, i) ==>
                  s.index == Some(i) && s.counter == p.counter && !s.backstop)
            && ((forall i: nat :: !SessionServes(c, p, now, key, i)) ==> Rightly(c, p, now, s))
  {
    var creds := RefreshAll(c, p.creds, now);
    var sticky := StickyChoice(c, creds, p.affinity, key, now);
    forall i: nat
      ensures SessionServes(c, p, now, key, i) <==> sticky == Some(i)
    {
      StickyIff(c, p, creds, now, key, i);
    }
    if sticky.None? {
      PassesAreRight(c, p, creds, now, SelectStep(c, p, now, key).1);
    } else {
      assert SessionServes(c, p, now, key, sticky.value);
    }
  }

  // ----- bindings -----

  /** Binding a session dates it now and touches no other, but that past 4096 sessions the expired ones go. */
  lemma BindingPrunes<T>(a: map<string, Binding<T>>, key: string, id: T, now: Time, ttl: int)
    requires ttl >= 0
    ensures var b := Bind(a, key, id, now, ttl);
            && key in b && b[key] == Binding(id, now)
            && (forall k :: k in b && k != key ==> k in a && b[k] == a[k])
            && (forall k :: k in a && k !in b ==> now - a[k].lastSeen > ttl)
            && (|b| > 4096 ==> forall k :: k in b ==> now - b[k].lastSeen <= ttl)
            && (|a[key := Binding(id, now)]| <= 4096 ==> b == a[key := Binding(id, now)])
  {
  }
}
