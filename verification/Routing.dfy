/** The routing selector: one strategy over several inner selectors, with its own sticky sessions. */
module Routing {
  import opened Options
  import opened PoolModel
  import PoolFacts

  /** What an inner selector answers. */
  datatype Answer =
    | Planned(id: string)
    | NoSelection
    | Failed(error: string)

  datatype Result =
    | Wrapped(target: nat, id: string)
    | Nothing
    | Error(error: string)
    | Panicked

  datatype Router = Router(inFlight: seq<int>, rrIdx: nat, affinity: map<string, Binding<nat>>)

  // ----- the order in which targets are tried -----

  function Insert(order: seq<nat>, load: seq<int>, x: nat): (r: seq<nat>)
    requires x < |load| && forall k :: 0 <= k < |order| ==> order[k] < |load|
    ensures forall k :: 0 <= k < |r| ==> r[k] < |load|
  {
    if order == [] || load[order[|order| - 1]] <= load[x] then order + [x]
    else Insert(order[..|order| - 1], load, x) + [order[|order| - 1]]
  }

  /** The first `n` targets by load, those of equal load as listed. */
  function ByLoad(load: seq<int>, n: nat): (r: seq<nat>)
    requires n <= |load|
    ensures forall k :: 0 <= k < |r| ==> r[k] < |load|
  {
    if n == 0 then [] else Insert(ByLoad(load, n - 1), load, n - 1)
  }

  /** All targets, in the order the strategy tries them. */
  function Order(strategy: Strategy, load: seq<int>, rrIdx: nat): (order: seq<nat>)
    ensures forall k :: 0 <= k < |order| ==> order[k] < |load|
  {
    var n := |load|;
    match strategy
    case Fallback => seq(n, k requires 0 <= k < n => k)
    case RoundRobin => if n == 0 then [] else seq(n, k requires 0 <= k < n => Place((rrIdx + 1) % UINT64 % n, k, n))
    case LeastRequests => ByLoad(load, n)
  }

  /** The first target of the order that does not answer NoSelection. */
  function FirstAnswer(order: seq<nat>, answers: seq<Answer>, from: nat): Option<nat>
    requires from <= |order| && forall k :: 0 <= k < |order| ==> order[k] < |answers|
    decreases |order| - from
  {
    if from == |order| then None
    else if answers[order[from]] != NoSelection then Some(order[from])
    else FirstAnswer(order, answers, from + 1)
  }

  // ----- one selection -----

  predicate Keyed(strategy: Strategy, ttl: Option<int>, key: string) {
    strategy != Fallback && ttl.Some? && key != ""
  }

  /** The target a live binding names. */
  function Bound(r: Router, ttl: int, key: string, now: Time): Option<nat> {
    if key in r.affinity && !Expired(r.affinity[key], now, ttl) && r.affinity[key].id < |r.inFlight|
    then Some(r.affinity[key].id) else None
  }

  function Wrap(r: Router, t: nat): Router
    requires t < |r.inFlight|
  {
    r.(inFlight := r.inFlight[t := r.inFlight[t] + 1])
  }

  /** `sticky` is what the bound target answers when asked first. */
  function RouteStep(strategy: Strategy, ttl: Option<int>, r: Router, answers: seq<Answer>, sticky: Answer,
                     key: string, now: Time): (Router, Result)
    requires |answers| == |r.inFlight|
  {
    var keyed := Keyed(strategy, ttl, key);
    var bound := if keyed then Bound(r, ttl.value, key, now) else None;
    var r1 := if keyed then r.(affinity := Forget(r.affinity, key, now, ttl.value)) else r;
    if bound.Some? && sticky.Planned? then (Wrap(r1, bound.value), Wrapped(bound.value, sticky.id))
    else
      var r2 := if strategy == RoundRobin then r1.(rrIdx := (r1.rrIdx + 1) % UINT64) else r1;
      if strategy == RoundRobin && |answers| == 0 then (r2, Panicked)
      else
        var t := FirstAnswer(Order(strategy, r.inFlight, r.rrIdx), answers, 0);
        if t.None? || t.value >= |answers| then (r2, Nothing)
        else match answers[t.value]
          case Failed(error) => (r2, Error(error))
          case NoSelection => (r2, Nothing)
          case Planned(id) =>
            var r3 := if keyed then r2.(affinity := Bind(r2.affinity, key, t.value, now, ttl.value)) else r2;
            (Wrap(r3, t.value), Wrapped(t.value, id))
  }

  class RoutingSelector {
    const strategy: Strategy
    const ttl: Option<int>
    var inFlight: seq<int>
    var rrIdx: nat
    var affinity: map<string, Binding<nat>>

    ghost function State(): Router
      reads this
    {
      Router(inFlight, rrIdx, affinity)
    }

    constructor (name: string, targets: nat, sticky: bool, stickyTTL: int)
      ensures strategy == if name == "round_robin" then RoundRobin
                          else if name == "least_requests" then LeastRequests else Fallback
      ensures ttl == if !sticky then None else Some(if stickyTTL <= 0 then 30 * 60 * SECOND else stickyTTL)
      ensures State() == Router(seq(targets, _ => 0), 0, map[])
    {
      strategy := if name == "round_robin" then RoundRobin
      else if name == "least_requests" then LeastRequests else Fallback;
      ttl := if !sticky then None else Some(if stickyTTL <= 0 then 30 * 60 * SECOND else stickyTTL);
      inFlight := seq(targets, _ => 0);
      rrIdx := 0;
      affinity := map[];
    }

    method Select(answers: seq<Answer>, sticky: Answer, key: string, now: Time) returns (r: Result)
      requires |answers| == |inFlight|
      modifies this
      ensures (State(), r) == RouteStep(strategy, ttl, old(State()), answers, sticky, key, now)
    {
      match strategy
      case Fallback => r := Try(Order(strategy, inFlight, rrIdx), answers, "", now);
      case RoundRobin => r := SelectRoundRobin(answers, sticky, key, now);
      case LeastRequests => r := SelectLeastRequests(answers, sticky, key, now);
    }

    /** Tries targets in order: only NoSelection moves on, any other error ends the selection. */
    method Try(order: seq<nat>, answers: seq<Answer>, key: string, now: Time) returns (r: Result)
      requires |answers| == |inFlight| && forall k :: 0 <= k < |order| ==> order[k] < |answers|
      requires key != "" ==> ttl.Some?
      modifies this
      ensures var t := FirstAnswer(order, answers, 0);
              if t.None? || t.value >= |answers| then State() == old(State()) && r == Nothing
              else match answers[t.value]
                case Failed(error) => State() == old(State()) && r == Error(error)
                case NoSelection => State() == old(State()) && r == Nothing
                case Planned(id) =>
                  && r == Wrapped(t.value, id)
                  && State() == Wrap(if key != "" then old(State()).(affinity := Bind(old(affinity), key, t.value, now, ttl.value))
                                     else old(State()), t.value)
    {
      var i := 0;
      while i < |order|
        invariant 0 <= i <= |order|
        invariant State() == old(State())
        invariant FirstAnswer(order, answers, 0) == FirstAnswer(order, answers, i)
      {
        var t := order[i];
        match answers[t] {
          case NoSelection =>
          case Failed(error) => return Error(error);
          case Planned(id) =>
            if key != "" {
              affinity := Bind(affinity, key, t, now, ttl.value);
            }
            WrapPlan(t);
            return Wrapped(t, id);
        }
        i := i + 1;
      }
      return Nothing;
    }

    method SelectRoundRobin(answers: seq<Answer>, sticky: Answer, key: string, now: Time) returns (r: Result)
      requires |answers| == |inFlight| && strategy == RoundRobin
      modifies this
      ensures (State(), r) == RouteStep(strategy, ttl, old(State()), answers, sticky, key, now)
    {
      var order := Order(strategy, inFlight, rrIdx);
      var session := if ttl.Some? then key else "";
      if session != "" {
        var stuck := TrySticky(sticky, session, now);
        if stuck.Some? {
          return stuck.value;
        }
      }
      rrIdx := (rrIdx + 1) % UINT64;
      if |answers| == 0 {
        return Panicked;
      }
      r := Try(order, answers, session, now);
    }

    method SelectLeastRequests(answers: seq<Answer>, sticky: Answer, key: string, now: Time) returns (r: Result)
      requires |answers| == |inFlight| && strategy == LeastRequests
      modifies this
      ensures (State(), r) == RouteStep(strategy, ttl, old(State()), answers, sticky, key, now)
    {
      var order := Order(strategy, inFlight, rrIdx);
      var session := if ttl.Some? then key else "";
      if session != "" {
        var stuck := TrySticky(sticky, session, now);
        if stuck.Some? {
          return stuck.value;
        }
      }
      r := Try(order, answers, session, now);
    }

    /** Any failure of the bound target, not only NoSelection, falls back to the strategy. */
    method TrySticky(sticky: Answer, key: string, now: Time) returns (r: Option<Result>)
      requires ttl.Some?
      modifies this
      ensures rrIdx == old(rrIdx) && affinity == Forget(old(affinity), key, now, ttl.value)
      ensures var bound := Bound(old(State()), ttl.value, key, now);
              if bound.Some? && sticky.Planned?
              then r == Some(Wrapped(bound.value, sticky.id))
                   && inFlight == old(inFlight)[bound.value := old(inFlight)[bound.value] + 1]
              else r == None && inFlight == old(inFlight)
    {
      if key !in affinity {
        return None;
      }
      var b := affinity[key];
      if now - b.lastSeen > ttl.value {
        affinity := affinity - {key};
        return None;
      }
      if b.id >= |inFlight| || !sticky.Planned? {
        return None;
      }
      WrapPlan(b.id);
      return Some(Wrapped(b.id, sticky.id));
    }

    method WrapPlan(t: nat)
      requires t < |inFlight|
      modifies `inFlight
      ensures inFlight == old(inFlight)[t := old(inFlight)[t] + 1]
    {
      inFlight := inFlight[t := inFlight[t] + 1];
    }

    /** The release hook's own part, run before the inner release. */
    method Unwrap(t: nat)
      requires t < |inFlight|
      modifies `inFlight
      ensures inFlight == old(inFlight)[t := old(inFlight)[t] - 1]
    {
      inFlight := inFlight[t := inFlight[t] - 1];
    }
  }

  // ----- what the strategies promise -----

  ghost predicate LoadSorted(order: seq<nat>, load: seq<int>)
    requires forall k :: 0 <= k < |order| ==> order[k] < |load|
  {
    forall j, k :: 0 <= j < k < |order| ==> load[order[j]] <= load[order[k]]
  }

  lemma {:induction false} InsertSorted(order: seq<nat>, load: seq<int>, x: nat)
    requires x < |load| && forall k :: 0 <= k < |order| ==> order[k] < |load|
    requires LoadSorted(order, load)
    ensures LoadSorted(Insert(order, load, x), load)
    ensures forall y: nat :: y in Insert(order, load, x) <==> y in order || y == x
  {
    if order != [] && load[order[|order| - 1]] > load[x] {
      var init, last := order[..|order| - 1], order[|order| - 1];
      InsertSorted(init, load, x);
      var r := Insert(init, load, x);
      forall k | 0 <= k < |r| ensures load[r[k]] <= load[last] {
        assert r[k] in r;
      }
    }
  }

  lemma {:induction false} ByLoadSorted(load: seq<int>, n: nat)
    requires n <= |load|
    ensures LoadSorted(ByLoad(load, n), load)
    ensures forall x: nat :: x in ByLoad(load, n) <==> x < n
  {
    if n > 0 {
      ByLoadSorted(load, n - 1);
      InsertSorted(ByLoad(load, n - 1), load, n - 1);
    }
  }

  /** Every strategy tries every target. */
  lemma OrderCovers(strategy: Strategy, r: Router, x: nat)
    ensures x in Order(strategy, r.inFlight, r.rrIdx) <==> x < |r.inFlight|
  {
    var n := |r.inFlight|;
    var order := Order(strategy, r.inFlight, r.rrIdx);
    match strategy
    case LeastRequests => ByLoadSorted(r.inFlight, n);
    case Fallback => assert x < n ==> order[x] == x;
    case RoundRobin =>
      if x < n {
        var base := (r.rrIdx + 1) % UINT64 % n;
        var k := if base <= x then x - base else x - base + n;
        PoolFacts.Turn(base, k, x, n);
        assert order[k] == x;
      }
  }

  lemma {:induction false} FirstAnswerIs(order: seq<nat>, answers: seq<Answer>, from: nat) returns (m: nat)
    requires from <= |order| && forall k :: 0 <= k < |order| ==> order[k] < |answers|
    ensures from <= m <= |order|
    ensures forall k :: from <= k < m ==> answers[order[k]] == NoSelection
    ensures m == |order| ==> FirstAnswer(order, answers, from) == None
    ensures m < |order| ==> FirstAnswer(order, answers, from) == Some(order[m]) && answers[order[m]] != NoSelection
    decreases |order| - from
  {
    m := from;
    if from < |order| && answers[order[from]] == NoSelection {
      m := FirstAnswerIs(order, answers, from + 1);
    }
  }

  /** A plan not found through a binding is the answer of the first target in order that has one. */
  lemma ServedInOrder(strategy: Strategy, ttl: Option<int>, r: Router, answers: seq<Answer>, sticky: Answer,
                      key: string, now: Time)
    requires |answers| == |r.inFlight| && !Stuck(strategy, ttl, r, sticky, key, now)
    ensures var result := RouteStep(strategy, ttl, r, answers, sticky, key, now).1;
            var t := FirstAnswer(Order(strategy, r.inFlight, r.rrIdx), answers, 0);
            && (result.Wrapped? ==> t == Some(result.target) && result.target < |answers|
                                    && answers[result.target] == Planned(result.id))
            && (result == Nothing ==> t == None)
            && (t.None? ==> result == if strategy == RoundRobin && |answers| == 0 then Panicked else Nothing)
  {
    var m := FirstAnswerIs(Order(strategy, r.inFlight, r.rrIdx), answers, 0);
  }

  /** The session's bound target is asked first and has a plan. */
  predicate Stuck(strategy: Strategy, ttl: Option<int>, r: Router, sticky: Answer, key: string, now: Time) {
    Keyed(strategy, ttl, key) && Bound(r, ttl.value, key, now).Some? && sticky.Planned?
  }

  /** Round robin over no targets divides by zero, and nothing else does. */
  lemma PanickedIff(strategy: Strategy, ttl: Option<int>, r: Router, answers: seq<Answer>, sticky: Answer,
                    key: string, now: Time)
    requires |answers| == |r.inFlight|
    ensures RouteStep(strategy, ttl, r, answers, sticky, key, now).1 == Panicked <==> strategy == RoundRobin && |answers| == 0
  {
  }

  /** Nothing is selected exactly when the session's target does not serve it, no target has anything to select,
      and there is a target to try or no turn to take. */
  lemma NothingIff(strategy: Strategy, ttl: Option<int>, r: Router, answers: seq<Answer>, sticky: Answer,
                   key: string, now: Time)
    requires |answers| == |r.inFlight|
    ensures RouteStep(strategy, ttl, r, answers, sticky, key, now).1 == Nothing
            <==> && !Stuck(strategy, ttl, r, sticky, key, now)
                 && (forall t :: 0 <= t < |answers| ==> answers[t] == NoSelection)
                 && !(strategy == RoundRobin && |answers| == 0)
  {
    if !Stuck(strategy, ttl, r, sticky, key, now) {
      var order := Order(strategy, r.inFlight, r.rrIdx);
      ServedInOrder(strategy, ttl, r, answers, sticky, key, now);
      var m := FirstAnswerIs(order, answers, 0);
      forall t: nat | t < |answers| && m == |order| ensures answers[t] == NoSelection {
        OrderCovers(strategy, r, t);
        var k :| 0 <= k < |order| && order[k] == t;
      }
    }
  }

  /** Fallback goes on only past targets with nothing to select, and so serves the earliest that has. */
  lemma FallbackServesEarliest(ttl: Option<int>, r: Router, answers: seq<Answer>, sticky: Answer, key: string, now: Time)
    requires |answers| == |r.inFlight|
    ensures var result := RouteStep(Fallback, ttl, r, answers, sticky, key, now).1;
            result.Wrapped? ==>
              && result.target < |answers| && answers[result.target] == Planned(result.id)
              && forall t :: 0 <= t < result.target ==> answers[t] == NoSelection
  {
    var order := Order(Fallback, r.inFlight, r.rrIdx);
    ServedInOrder(Fallback, ttl, r, answers, sticky, key, now);
    var m := FirstAnswerIs(order, answers, 0);
    forall t | 0 <= t < m ensures answers[t] == NoSelection {
      assert order[t] == t;
    }
  }

  /** Least-requests serves a target carrying the least load among those with anything to select. */
  lemma LeastRequestsServesLeast(ttl: Option<int>, r: Router, answers: seq<Answer>, sticky: Answer, key: string, now: Time)
    requires |answers| == |r.inFlight| && !Stuck(LeastRequests, ttl, r, sticky, key, now)
    ensures var result := RouteStep(LeastRequests, ttl, r, answers, sticky, key, now).1;
            result.Wrapped? ==>
              && result.target < |answers| && answers[result.target] == Planned(result.id)
              && forall t :: 0 <= t < |answers| && answers[t] != NoSelection ==>
                               r.inFlight[result.target] <= r.inFlight[t]
  {
    var order := Order(LeastRequests, r.inFlight, r.rrIdx);
    ServedInOrder(LeastRequests, ttl, r, answers, sticky, key, now);
    ByLoadSorted(r.inFlight, |r.inFlight|);
    var m := FirstAnswerIs(order, answers, 0);
    if m < |order| {
      LeastFirst(order, r.inFlight, answers, m);
    }
  }

  lemma LeastFirst(order: seq<nat>, load: seq<int>, answers: seq<Answer>, m: nat)
    requires |answers| == |load| && m < |order|
    requires forall k :: 0 <= k < |order| ==> order[k] < |load|
    requires LoadSorted(order, load) && forall x: nat :: x in order <==> x < |load|
    requires forall k :: 0 <= k < m ==> answers[order[k]] == NoSelection
    ensures forall t: nat :: t < |answers| && answers[t] != NoSelection ==> load[order[m]] <= load[t]
  {
    forall t: nat | t < |answers| && answers[t] != NoSelection ensures load[order[m]] <= load[t] {
      assert t in order;
      var k :| 0 <= k < |order| && order[k] == t;
      assert m <= k;
    }
  }

  /** Round robin starts one place after the last selection's start. */
  lemma RoundRobinRotates(ttl: Option<int>, r: Router, answers: seq<Answer>, sticky: Answer, key: string, now: Time)
    requires |answers| == |r.inFlight| > 0 && !Stuck(RoundRobin, ttl, r, sticky, key, now)
    requires forall t :: 0 <= t < |answers| ==> answers[t].Planned?
    ensures var (r2, result) := RouteStep(RoundRobin, ttl, r, answers, sticky, key, now);
            && r2.rrIdx == (r.rrIdx + 1) % UINT64
            && result == Wrapped(r2.rrIdx % |answers|, answers[r2.rrIdx % |answers|].id)
  {
    var order := Order(RoundRobin, r.inFlight, r.rrIdx);
    var base := (r.rrIdx + 1) % UINT64 % |answers|;
    PoolFacts.Turn(base, 0, base, |answers|);
    assert order[0] == base;
  }

  /** Round robin serves the first target from its place on, once round, that has anything to select. */
  lemma RoundRobinServesNext(ttl: Option<int>, r: Router, answers: seq<Answer>, sticky: Answer, key: string, now: Time)
    returns (skip: nat)
    requires |answers| == |r.inFlight| > 0 && !Stuck(RoundRobin, ttl, r, sticky, key, now)
    ensures var result := RouteStep(RoundRobin, ttl, r, answers, sticky, key, now).1;
            result.Wrapped? ==>
              && skip < |answers| && result.target == ((r.rrIdx + 1) % UINT64 % |answers| + skip) % |answers|
              && answers[result.target] == Planned(result.id)
              && forall k :: 0 <= k < skip ==> answers[Turn(r, k, |answers|)] == NoSelection
  {
    var order := Order(RoundRobin, r.inFlight, r.rrIdx);
    ServedInOrder(RoundRobin, ttl, r, answers, sticky, key, now);
    skip := FirstAnswerIs(order, answers, 0);
    forall k | 0 <= k < skip
      ensures answers[Turn(r, k, |answers|)] == NoSelection
    {
      assert order[k] == Turn(r, k, |answers|);
    }
  }

  /** The `k`-th target from round robin's place on. */
  function Turn(r: Router, k: nat, n: nat): (t: nat)
    requires n > 0
    ensures t < n
  {
    ((r.rrIdx + 1) % UINT64 % n + k) % n
  }

  /** A selection takes exactly one target's counter up by one when it yields a plan, and none otherwise. */
  lemma CountsOne(strategy: Strategy, ttl: Option<int>, r: Router, answers: seq<Answer>, sticky: Answer, key: string, now: Time)
    requires |answers| == |r.inFlight|
    ensures var (r2, result) := RouteStep(strategy, ttl, r, answers, sticky, key, now);
            && (result.Wrapped? ==> result.target < |r.inFlight|)
            && r2.inFlight == if result.Wrapped? then r.inFlight[result.target := r.inFlight[result.target] + 1]
                              else r.inFlight
  {
    if !Stuck(strategy, ttl, r, sticky, key, now) {
      ServedInOrder(strategy, ttl, r, answers, sticky, key, now);
    }
  }

  /**
   * A session served through its binding keeps the binding as it was: the TTL runs from when the
   * strategy bound it, not from its last use.
   */
  lemma StickyUseDoesNotRefresh(strategy: Strategy, ttl: Option<int>, r: Router, answers: seq<Answer>, sticky: Answer,
                                key: string, now: Time)
    requires |answers| == |r.inFlight| && sticky.Planned?
    requires Keyed(strategy, ttl, key) && Bound(r, ttl.value, key, now).Some?
    ensures var (r2, result) := RouteStep(strategy, ttl, r, answers, sticky, key, now);
            && result == Wrapped(r.affinity[key].id, sticky.id)
            && r2.affinity == r.affinity && r2.rrIdx == r.rrIdx
            && forall later :: later > r.affinity[key].lastSeen + ttl.value ==> Bound(r2, ttl.value, key, later).None?
  {
  }
}
