/** Whole runs of the routing selector: how long a session stays with its target, and how turns are shared. */
module RoutingRuns {
  import opened Options
  import opened PoolModel
  import opened Routing

  /** One selection: what each target answers, what the bound one answers when asked first, and when. */
  datatype Use = Use(key: string, answers: seq<Answer>, sticky: Answer, now: Time)

  function UseStep(strategy: Strategy, ttl: Option<int>, r: Router, u: Use): (Router, Result)
    requires |u.answers| == |r.inFlight|
  {
    RouteStep(strategy, ttl, r, u.answers, u.sticky, u.key, u.now)
  }

  predicate ForTargets(uses: seq<Use>, n: nat) {
    forall i :: 0 <= i < |uses| ==> |uses[i].answers| == n
  }

  /** The router after `uses`. */
  function RouteAll(strategy: Strategy, ttl: Option<int>, r: Router, uses: seq<Use>): (r': Router)
    requires ForTargets(uses, |r.inFlight|)
    ensures |r'.inFlight| == |r.inFlight|
    decreases |uses|
  {
    if uses == [] then r
    else
      var before := RouteAll(strategy, ttl, r, uses[..|uses| - 1]);
      CountsOne(strategy, ttl, before, uses[|uses| - 1].answers, uses[|uses| - 1].sticky, uses[|uses| - 1].key, uses[|uses| - 1].now);
      UseStep(strategy, ttl, before, uses[|uses| - 1]).0
  }

  /** What the `i`-th selection of the run yields. */
  function ResultAt(strategy: Strategy, ttl: Option<int>, r: Router, uses: seq<Use>, i: nat): Result
    requires ForTargets(uses, |r.inFlight|) && i < |uses|
  {
    UseStep(strategy, ttl, RouteAll(strategy, ttl, r, uses[..i]), uses[i]).1
  }

  /** The `i`-th selection of the run is served through its session's binding. */
  predicate StuckAt(strategy: Strategy, ttl: Option<int>, r: Router, uses: seq<Use>, i: nat)
    requires ForTargets(uses, |r.inFlight|) && i < |uses|
  {
    Stuck(strategy, ttl, RouteAll(strategy, ttl, r, uses[..i]), uses[i].sticky, uses[i].key, uses[i].now)
  }

  // ----- when a binding's clock starts -----

  /** Of the selections that serve a session with an older binding, those not through it date it anew, no others. */
  lemma RefreshedIff(strategy: Strategy, ttl: Option<int>, r: Router, u: Use)
    requires |u.answers| == |r.inFlight| && Keyed(strategy, ttl, u.key) && ttl.value > 0
    requires u.key in r.affinity && r.affinity[u.key].lastSeen < u.now
    requires UseStep(strategy, ttl, r, u).1.Wrapped?
    ensures var a := UseStep(strategy, ttl, r, u).0.affinity;
            u.key in a && (a[u.key].lastSeen == u.now <==> !Stuck(strategy, ttl, r, u.sticky, u.key, u.now))
  {
  }

  /** When the binding that stands after uses at these times was made. */
  function Made(ttl: int, times: seq<Time>): Time
    requires times != []
    decreases |times|
  {
    var last := times[|times| - 1];
    if |times| == 1 then last
    else
      var made := Made(ttl, times[..|times| - 1]);
      if last - made <= ttl then made else last
  }

  /** When a session was used. */
  function TimesOf(uses: seq<Use>, key: string): seq<Time>
    decreases |uses|
  {
    if uses == [] then []
    else
      var u := uses[|uses| - 1];
      TimesOf(uses[..|uses| - 1], key) + if u.key == key then [u.now] else []
  }

  /** Every target a session's selection asks has an answer, one of them a plan, and the bound target has one. */
  predicate Servable(u: Use) {
    && u.sticky.Planned?
    && (forall t :: 0 <= t < |u.answers| ==> !u.answers[t].Failed?)
    && (exists t :: 0 <= t < |u.answers| && u.answers[t].Planned?)
  }

  predicate InOrder(uses: seq<Use>) {
    forall i, j :: 0 <= i < j < |uses| ==> uses[i].now <= uses[j].now
  }

  predicate ServableRun(uses: seq<Use>, key: string) {
    InOrder(uses) && forall i :: 0 <= i < |uses| && uses[i].key == key ==> Servable(uses[i])
  }

  /** The session's binding after uses at `times`, seen no earlier than `now`: it dates from when it was made,
      or has expired. */
  predicate BoundSince(a: map<string, Binding<nat>>, key: string, n: nat, ttl: int, times: seq<Time>, now: Time) {
    if times == [] then key !in a
    else if key in a then a[key].id < n && a[key].lastSeen == Made(ttl, times)
    else now - Made(ttl, times) > ttl
  }

  lemma ServesItself(strategy: Strategy, ttl: Option<int>, r: Router, u: Use)
    requires |u.answers| == |r.inFlight| && Servable(u)
    ensures UseStep(strategy, ttl, r, u).1.Wrapped?
  {
    NothingIff(strategy, ttl, r, u.answers, u.sticky, u.key, u.now);
    PanickedIff(strategy, ttl, r, u.answers, u.sticky, u.key, u.now);
  }

  lemma MadeSnoc(ttl: int, times: seq<Time>, now: Time)
    requires ttl > 0
    ensures Made(ttl, times + [now]) == if times != [] && now - Made(ttl, times) <= ttl then Made(ttl, times) else now
  {
    assert (times + [now])[..|times|] == times;
  }

  /** A session's own selection. */
  lemma OwnUse(strategy: Strategy, ttl: Option<int>, r: Router, u: Use, times: seq<Time>, before: Time)
    requires |u.answers| == |r.inFlight| && Keyed(strategy, ttl, u.key) && ttl.value > 0 && Servable(u)
    requires before <= u.now && BoundSince(r.affinity, u.key, |r.inFlight|, ttl.value, times, before)
    ensures BoundSince(UseStep(strategy, ttl, r, u).0.affinity, u.key, |r.inFlight|, ttl.value, times + [u.now], u.now)
    ensures Stuck(strategy, ttl, r, u.sticky, u.key, u.now) <==> times != [] && u.now - Made(ttl.value, times) <= ttl.value
  {
    ServesItself(strategy, ttl, r, u);
    MadeSnoc(ttl.value, times, u.now);
    if Stuck(strategy, ttl, r, u.sticky, u.key, u.now) {
      StickyUseDoesNotRefresh(strategy, ttl, r, u.answers, u.sticky, u.key, u.now);
    } else {
      CountsOne(strategy, ttl, r, u.answers, u.sticky, u.key, u.now);
    }
  }

  /** The binding is as it was, or has gone for having expired. */
  predicate Kept(a: map<string, Binding<nat>>, a': map<string, Binding<nat>>, key: string, now: Time, ttl: int) {
    if key in a' then key in a && a'[key] == a[key] else key in a ==> Expired(a[key], now, ttl)
  }

  lemma OthersForget(a: map<string, Binding<nat>>, other: string, key: string, now: Time, ttl: int)
    requires other != key
    ensures Kept(a, Forget(a, other, now, ttl), key, now, ttl)
  {
  }

  lemma OthersBind(a: map<string, Binding<nat>>, other: string, key: string, t: nat, now: Time, ttl: int)
    requires other != key
    ensures Kept(a, Bind(a, other, t, now, ttl), key, now, ttl)
  {
  }

  /** Another session's selection. */
  lemma OthersUse(strategy: Strategy, ttl: Option<int>, r: Router, u: Use, key: string, times: seq<Time>, before: Time)
    requires |u.answers| == |r.inFlight| && ttl.Some? && ttl.value > 0 && u.key != key
    requires before <= u.now && BoundSince(r.affinity, key, |r.inFlight|, ttl.value, times, before)
    ensures BoundSince(UseStep(strategy, ttl, r, u).0.affinity, key, |r.inFlight|, ttl.value, times, u.now)
  {
    var f := Forget(r.affinity, u.key, u.now, ttl.value);
    var result := UseStep(strategy, ttl, r, u).1;
    var t := if result.Wrapped? then result.target else 0;
    OthersForget(r.affinity, u.key, key, u.now, ttl.value);
    OthersBind(f, u.key, key, t, u.now, ttl.value);
    StepBindings(strategy, ttl, r, u, f, t);
  }

  lemma StepBindings(strategy: Strategy, ttl: Option<int>, r: Router, u: Use, f: map<string, Binding<nat>>, t: nat)
    requires |u.answers| == |r.inFlight| && ttl.Some? && f == Forget(r.affinity, u.key, u.now, ttl.value)
    requires UseStep(strategy, ttl, r, u).1.Wrapped? ==> t == UseStep(strategy, ttl, r, u).1.target
    ensures UseStep(strategy, ttl, r, u).0.affinity
         == if !Keyed(strategy, ttl, u.key) then r.affinity
            else if Stuck(strategy, ttl, r, u.sticky, u.key, u.now) || !UseStep(strategy, ttl, r, u).1.Wrapped? then f
            else Bind(f, u.key, t, u.now, ttl.value)
  {
  }

  lemma {:induction false} RunBoundSince(strategy: Strategy, ttl: Option<int>, r: Router, uses: seq<Use>, key: string)
    requires ForTargets(uses, |r.inFlight|) && Keyed(strategy, ttl, key) && ttl.value > 0
    requires key !in r.affinity && ServableRun(uses, key)
    ensures BoundSince(RouteAll(strategy, ttl, r, uses).affinity, key, |r.inFlight|, ttl.value, TimesOf(uses, key),
                       if uses == [] then 0 else uses[|uses| - 1].now)
    decreases |uses|
  {
    if uses != [] {
      var init, u := uses[..|uses| - 1], uses[|uses| - 1];
      RunBoundSince(strategy, ttl, r, init, key);
      var r1, times := RouteAll(strategy, ttl, r, init), TimesOf(init, key);
      var before := if init == [] then u.now else init[|init| - 1].now;
      if u.key == key {
        OwnUse(strategy, ttl, r1, u, times, before);
      } else {
        assert times + [] == times;
        OthersUse(strategy, ttl, r1, u, key, times, before);
      }
    }
  }

  /** Whatever other sessions do in between: a selection of a session is served through its binding exactly when
      it comes within the TTL of when the binding was made, however often it has been used since. */
  lemma StuckIff(strategy: Strategy, ttl: Option<int>, r: Router, uses: seq<Use>, i: nat)
    requires ForTargets(uses, |r.inFlight|) && i < |uses|
    requires Keyed(strategy, ttl, uses[i].key) && ttl.value > 0
    requires uses[i].key !in r.affinity && ServableRun(uses, uses[i].key)
    ensures var times := TimesOf(uses[..i], uses[i].key);
            StuckAt(strategy, ttl, r, uses, i) <==> times != [] && uses[i].now - Made(ttl.value, times) <= ttl.value
  {
    var u, init := uses[i], uses[..i];
    RunBoundSince(strategy, ttl, r, init, u.key);
    OwnUse(strategy, ttl, RouteAll(strategy, ttl, r, init), u, TimesOf(init, u.key),
           if init == [] then u.now else init[i - 1].now);
  }

  // ----- against the documented idle expiry -----

  predicate Ordered(times: seq<Time>) {
    forall i, j :: 0 <= i < j < |times| ==> times[i] <= times[j]
  }

  /** The `i`-th use comes within the TTL of the one before: by the documentation the binding still holds. */
  predicate Fresh(ttl: int, times: seq<Time>, i: nat)
    requires 0 < i < |times|
  {
    times[i] - times[i - 1] <= ttl
  }

  /** Every use of the session is served through the binding exactly when the documentation says so. */
  predicate ExpiresWhenIdle(ttl: int, times: seq<Time>) {
    forall i :: 0 < i < |times| ==> (Fresh(ttl, times, i) <==> times[i] - Made(ttl, times[..i]) <= ttl)
  }

  /** Uses `i` to `j` with no gap over the TTL. */
  predicate Unbroken(ttl: int, times: seq<Time>, i: nat, j: nat)
    requires j < |times|
  {
    i <= j && forall k :: i < k <= j ==> Fresh(ttl, times, k)
  }

  /** No stretch of uses without an idle TTL is itself longer than the TTL. */
  predicate ShortStretches(ttl: int, times: seq<Time>) {
    forall i, j :: 0 <= i <= j < |times| && Unbroken(ttl, times, i, j) ==> times[j] - times[i] <= ttl
  }

  /** The standing binding was made by some use, unbroken since. */
  lemma {:induction false} MadeByUse(ttl: int, times: seq<Time>, n: nat) returns (a: nat)
    requires Ordered(times) && 0 < n <= |times|
    ensures a < n && Unbroken(ttl, times, a, n - 1) && Made(ttl, times[..n]) == times[a]
    decreases n
  {
    a := n - 1;
    if n > 1 {
      assert times[..n][..n - 1] == times[..n - 1];
      var b := MadeByUse(ttl, times, n - 1);
      if times[n - 1] - times[b] <= ttl {
        a := b;
        assert times[b] <= times[n - 2];
        assert Fresh(ttl, times, n - 1);
      }
    }
  }

  lemma {:induction false} StillMade(ttl: int, times: seq<Time>, i: nat, j: nat)
    requires Ordered(times) && ExpiresWhenIdle(ttl, times) && i <= j < |times| && Unbroken(ttl, times, i, j)
    ensures Made(ttl, times[..j + 1]) == Made(ttl, times[..i + 1])
    decreases j
  {
    if i < j {
      assert times[..j + 1][..j] == times[..j];
      assert Fresh(ttl, times, j);
      StillMade(ttl, times, i, j - 1);
    }
  }

  lemma IdleExpiryShort(ttl: int, times: seq<Time>, i: nat, j: nat)
    requires ttl > 0 && Ordered(times) && ExpiresWhenIdle(ttl, times) && i <= j < |times| && Unbroken(ttl, times, i, j)
    ensures times[j] - times[i] <= ttl
  {
    if i < j {
      assert Fresh(ttl, times, j);
      StillMade(ttl, times, i, j - 1);
      var a := MadeByUse(ttl, times, i + 1);
      assert times[a] <= times[i];
    }
  }

  lemma ShortIdleExpiry(ttl: int, times: seq<Time>, i: nat)
    requires ttl > 0 && Ordered(times) && ShortStretches(ttl, times) && 0 < i < |times|
    ensures Fresh(ttl, times, i) <==> times[i] - Made(ttl, times[..i]) <= ttl
  {
    var a := MadeByUse(ttl, times, i);
    assert times[a] <= times[i - 1];
    if Fresh(ttl, times, i) {
      assert Unbroken(ttl, times, a, i);
    }
  }

  /** The binding expires when idle, as documented, exactly when no stretch of use outlasts the TTL. */
  lemma ExpiresWhenIdleIff(ttl: int, times: seq<Time>)
    requires ttl > 0 && Ordered(times)
    ensures ExpiresWhenIdle(ttl, times) <==> ShortStretches(ttl, times)
  {
    if ExpiresWhenIdle(ttl, times) {
      forall i, j | 0 <= i <= j < |times| && Unbroken(ttl, times, i, j)
        ensures times[j] - times[i] <= ttl
      {
        IdleExpiryShort(ttl, times, i, j);
      }
    }
    if ShortStretches(ttl, times) {
      forall i | 0 < i < |times|
        ensures Fresh(ttl, times, i) <==> times[i] - Made(ttl, times[..i]) <= ttl
      {
        ShortIdleExpiry(ttl, times, i);
      }
    }
  }

  /** With a TTL of 10, uses at 0, 8 and 16: the third is not served through the binding, though the session was
      never idle for the TTL. */
  lemma BusySessionMoves(strategy: Strategy, r: Router, key: string, answers: seq<Answer>, sticky: Answer)
    requires strategy != Fallback && key != "" && key !in r.affinity && |answers| == |r.inFlight|
    requires Servable(Use(key, answers, sticky, 0))
    ensures var uses := [Use(key, answers, sticky, 0), Use(key, answers, sticky, 8), Use(key, answers, sticky, 16)];
            && StuckAt(strategy, Some(10), r, uses, 1) && !StuckAt(strategy, Some(10), r, uses, 2)
            && !ShortStretches(10, TimesOf(uses, key))
  {
    var uses := [Use(key, answers, sticky, 0), Use(key, answers, sticky, 8), Use(key, answers, sticky, 16)];
    StuckIff(strategy, Some(10), r, uses, 1);
    StuckIff(strategy, Some(10), r, uses, 2);
    assert uses[..1][..0] == [] && uses[..2][..1] == uses[..1] && uses[..2] == uses[..3][..2];
    assert uses[..3] == uses;
    assert TimesOf(uses[..1], key) == [0];
    assert TimesOf(uses[..2], key) == [0, 8];
    var times := TimesOf(uses, key);
    assert times == [0, 8, 16];
    assert [0, 8][..1] == [0];
    assert Unbroken(10, times, 0, 2);
  }

  // ----- turns and counters -----

  /** How many of the run's selections were served by target `t`. */
  function ServedBy(strategy: Strategy, ttl: Option<int>, r: Router, uses: seq<Use>, t: nat): nat
    requires ForTargets(uses, |r.inFlight|)
    decreases |uses|
  {
    if uses == [] then 0
    else
      var result := ResultAt(strategy, ttl, r, uses, |uses| - 1);
      ServedBy(strategy, ttl, r, uses[..|uses| - 1], t) + if result.Wrapped? && result.target == t then 1 else 0
  }

  /** Between releases, a target's counter grows by exactly the selections it served, whatever the strategy, the
      sessions and the failures on the way. */
  lemma {:induction false} CountersCountServed(strategy: Strategy, ttl: Option<int>, r: Router, uses: seq<Use>, t: nat)
    requires ForTargets(uses, |r.inFlight|) && t < |r.inFlight|
    ensures RouteAll(strategy, ttl, r, uses).inFlight[t] == r.inFlight[t] + ServedBy(strategy, ttl, r, uses, t)
    decreases |uses|
  {
    if uses != [] {
      var u, init := uses[|uses| - 1], uses[..|uses| - 1];
      CountersCountServed(strategy, ttl, r, init, t);
      CountsOne(strategy, ttl, RouteAll(strategy, ttl, r, init), u.answers, u.sticky, u.key, u.now);
    }
  }

  predicate AllPlanned(uses: seq<Use>) {
    forall i :: 0 <= i < |uses| ==> uses[i].key == "" && forall t :: 0 <= t < |uses[i].answers| ==> uses[i].answers[t].Planned?
  }

  lemma OneTurn(ttl: Option<int>, r: Router, u: Use)
    requires |u.answers| == |r.inFlight| > 0 && u.key == "" && r.rrIdx + 1 < UINT64
    requires forall t :: 0 <= t < |u.answers| ==> u.answers[t].Planned?
    ensures var (r', result) := UseStep(RoundRobin, ttl, r, u);
            r'.rrIdx == r.rrIdx + 1 && result.Wrapped? && result.target == (r.rrIdx + 1) % |r.inFlight|
  {
    RoundRobinRotates(ttl, r, u.answers, u.sticky, u.key, u.now);
  }

  lemma {:induction false} TurnsTaken(ttl: Option<int>, r: Router, uses: seq<Use>)
    requires ForTargets(uses, |r.inFlight|) && |r.inFlight| > 0 && AllPlanned(uses) && r.rrIdx + |uses| < UINT64
    ensures RouteAll(RoundRobin, ttl, r, uses).rrIdx == r.rrIdx + |uses|
    decreases |uses|
  {
    if uses != [] {
      var init := uses[..|uses| - 1];
      TurnsTaken(ttl, r, init);
      OneTurn(ttl, RouteAll(RoundRobin, ttl, r, init), uses[|uses| - 1]);
    }
  }

  /** While every target has plans, round robin serves them in turn. */
  lemma ServesInTurn(ttl: Option<int>, r: Router, uses: seq<Use>, i: nat)
    requires ForTargets(uses, |r.inFlight|) && |r.inFlight| > 0 && AllPlanned(uses) && i < |uses|
    requires r.rrIdx + |uses| < UINT64
    ensures var result := ResultAt(RoundRobin, ttl, r, uses, i);
            result.Wrapped? && result.target == (r.rrIdx + 1 + i) % |r.inFlight|
  {
    TurnsTaken(ttl, r, uses[..i]);
    OneTurn(ttl, RouteAll(RoundRobin, ttl, r, uses[..i]), uses[i]);
  }
}
