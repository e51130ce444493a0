/**
 * Pools and a routing selector under any interleaving: who holds what, and what the counters say.
 * A ticket is one credential taken and not yet given back.
 */
module InFlight {
  import opened Options
  import opened PoolModel
  import opened PoolRuns
  import opened PoolFacts

  /**
   * Where a ticket stands between two mutex sections: its credential is being fetched, the pool has
   * returned a plan, the router has counted it, the router's hook has counted it off again.
   */
  datatype Stage = Fetching | Planned | Wrapped | Unwrapped

  /** `target` is the routing target it was selected through; probes and direct callers have none. */
  datatype Ticket = Ticket(pool: nat, key: nat, target: Option<nat>, probe: bool, stage: Stage)

  datatype World = World(pools: seq<Pool>, counters: seq<int>, tickets: seq<Ticket>)

  /** One atomic section. `k` is the ticket that moves. */
  datatype Move =
    | Take(pool: nat, target: Option<nat>, now: Time, key: string)
    | FetchFails(k: nat, now: Time)
    | FetchSucceeds(k: nat)
    | CountOn(k: nat)
    | CountOff(k: nat)
    | GiveBack(k: nat, outcome: Outcome, now: Time)
    | ProbePool(pool: nat)
    | Tokens(pool: nat, id: string, tokens: int, now: Time)

  ghost predicate WellFormed(cs: seq<Config>, w: World) {
    && |cs| == |w.pools|
    && (forall p :: 0 <= p < |cs| ==> ValidConfig(cs[p]))
    && (forall p :: 0 <= p < |cs| ==> Distinct(w.pools[p].creds))
    && (forall k :: 0 <= k < |w.tickets| ==> TicketFits(w, w.tickets[k]))
  }

  ghost predicate TicketFits(w: World, t: Ticket) {
    && t.pool < |w.pools| && t.key < |w.pools[t.pool].creds|
    && (t.target.Some? ==> t.target.value < |w.counters|)
  }

  // ----- the moves -----

  function Remove(ts: seq<Ticket>, k: nat): seq<Ticket>
    requires k < |ts|
  {
    ts[..k] + ts[k + 1..]
  }

  function Bump(counters: seq<int>, target: Option<nat>, delta: int): seq<int> {
    if target.Some? && target.value < |counters| then counters[target.value := counters[target.value] + delta]
    else counters
  }

  /** The tickets a probe takes among the first `n` keys. */
  function ProbeTickets(pool: nat, creds: seq<Cred>, n: nat): seq<Ticket>
    requires n <= |creds|
  {
    if n == 0 then []
    else ProbeTickets(pool, creds, n - 1)
         + if creds[n - 1].health == RateLimited then [Ticket(pool, n - 1, None, true, Fetching)] else []
  }

  ghost predicate Enabled(w: World, m: Move) {
    match m
    case Take(p, target, _, _) => p < |w.pools| && (target.Some? ==> target.value < |w.counters|)
    case FetchFails(k, _) => k < |w.tickets| && w.tickets[k].stage == Fetching
    case FetchSucceeds(k) => k < |w.tickets| && w.tickets[k].stage == Fetching
    case CountOn(k) => k < |w.tickets| && w.tickets[k].stage == Planned
    case CountOff(k) => k < |w.tickets| && w.tickets[k].stage == Wrapped
    case GiveBack(k, _, _) => k < |w.tickets| && w.tickets[k].stage == Unwrapped
    case ProbePool(p) => p < |w.pools|
    case Tokens(p, _, _, _) => p < |w.pools|
  }

  function SetPool(w: World, p: nat, q: Pool): World
    requires p < |w.pools|
  {
    w.(pools := w.pools[p := q])
  }

  ghost function Next(cs: seq<Config>, w: World, m: Move): World
    requires WellFormed(cs, w) && Enabled(w, m)
  {
    match m
    case Take(p, target, now, key) =>
      var i := Chosen(cs[p], w.pools[p], Select(now, key));
      var w1 := SetPool(w, p, Step(cs[p], w.pools[p], Select(now, key)));
      if i.None? then w1 else w1.(tickets := w.tickets + [Ticket(p, i.value, target, false, Fetching)])
    case FetchFails(k, now) =>
      var t := w.tickets[k];
      var e := if t.probe then ProbeFetchFailed(t.key) else FetchFailed(t.key, now);
      SetPool(w, t.pool, Step(cs[t.pool], w.pools[t.pool], e)).(tickets := Remove(w.tickets, k))
    case FetchSucceeds(k) => w.(tickets := w.tickets[k := w.tickets[k].(stage := Planned)])
    case CountOn(k) =>
      w.(tickets := w.tickets[k := w.tickets[k].(stage := Wrapped)], counters := Bump(w.counters, w.tickets[k].target, 1))
    case CountOff(k) =>
      w.(tickets := w.tickets[k := w.tickets[k].(stage := Unwrapped)], counters := Bump(w.counters, w.tickets[k].target, -1))
    case GiveBack(k, outcome, now) =>
      var t := w.tickets[k];
      var id := w.pools[t.pool].creds[t.key].id;
      SetPool(w, t.pool, Step(cs[t.pool], w.pools[t.pool], Release(id, outcome, now))).(tickets := Remove(w.tickets, k))
    case ProbePool(p) =>
      SetPool(w, p, Step(cs[p], w.pools[p], Probe))
        .(tickets := w.tickets + ProbeTickets(p, w.pools[p].creds, |w.pools[p].creds|))
    case Tokens(p, id, tokens, now) => SetPool(w, p, Step(cs[p], w.pools[p], RecordTokens(id, tokens, now)))
  }

  // ----- counting tickets -----

  function One(b: bool): nat {
    if b then 1 else 0
  }

  /** Tickets out on key `i` of pool `p`, at whatever stage. */
  function OnKey(ts: seq<Ticket>, p: nat, i: nat): nat {
    if ts == [] then 0
    else OnKey(ts[..|ts| - 1], p, i) + One(ts[|ts| - 1].pool == p && ts[|ts| - 1].key == i)
  }

  /** Tickets the router has counted on target `t` and not off again. */
  function OnTarget(ts: seq<Ticket>, t: nat): nat {
    if ts == [] then 0
    else OnTarget(ts[..|ts| - 1], t) + One(ts[|ts| - 1].stage == Wrapped && ts[|ts| - 1].target == Some(t))
  }

  lemma {:induction false} OnKeyAppend(a: seq<Ticket>, b: seq<Ticket>, p: nat, i: nat)
    ensures OnKey(a + b, p, i) == OnKey(a, p, i) + OnKey(b, p, i)
  {
    if b == [] {
      assert a + b == a;
    } else {
      assert (a + b)[..|a + b| - 1] == a + b[..|b| - 1];
      OnKeyAppend(a, b[..|b| - 1], p, i);
    }
  }

  lemma {:induction false} OnTargetAppend(a: seq<Ticket>, b: seq<Ticket>, t: nat)
    ensures OnTarget(a + b, t) == OnTarget(a, t) + OnTarget(b, t)
  {
    if b == [] {
      assert a + b == a;
    } else {
      assert (a + b)[..|a + b| - 1] == a + b[..|b| - 1];
      OnTargetAppend(a, b[..|b| - 1], t);
    }
  }

  lemma OnKeySingle(x: Ticket, p: nat, i: nat)
    ensures OnKey([x], p, i) == One(x.pool == p && x.key == i)
  {
    assert [x][..0] == [];
  }

  lemma OnTargetSingle(x: Ticket, t: nat)
    ensures OnTarget([x], t) == One(x.stage == Wrapped && x.target == Some(t))
  {
    assert [x][..0] == [];
  }

  /** What replacing the ticket at `k` by `put` (nothing, or another ticket) does to both counts. */
  lemma CountsAfter(ts: seq<Ticket>, k: nat, put: seq<Ticket>, p: nat, i: nat, t: nat)
    requires k < |ts|
    ensures OnKey(ts[..k] + put + ts[k + 1..], p, i) + One(ts[k].pool == p && ts[k].key == i)
            == OnKey(ts, p, i) + OnKey(put, p, i)
    ensures OnTarget(ts[..k] + put + ts[k + 1..], t) + One(ts[k].stage == Wrapped && ts[k].target == Some(t))
            == OnTarget(ts, t) + OnTarget(put, t)
  {
    assert ts == ts[..k] + [ts[k]] + ts[k + 1..];
    OnKeyThree(ts[..k], put, ts[k + 1..], p, i);
    OnKeyThree(ts[..k], [ts[k]], ts[k + 1..], p, i);
    OnTargetThree(ts[..k], put, ts[k + 1..], t);
    OnTargetThree(ts[..k], [ts[k]], ts[k + 1..], t);
    OnKeySingle(ts[k], p, i);
    OnTargetSingle(ts[k], t);
  }

  lemma OnKeyThree(a: seq<Ticket>, b: seq<Ticket>, c: seq<Ticket>, p: nat, i: nat)
    ensures OnKey(a + b + c, p, i) == OnKey(a, p, i) + OnKey(b, p, i) + OnKey(c, p, i)
  {
    OnKeyAppend(a + b, c, p, i);
    OnKeyAppend(a, b, p, i);
  }

  lemma OnTargetThree(a: seq<Ticket>, b: seq<Ticket>, c: seq<Ticket>, t: nat)
    ensures OnTarget(a + b + c, t) == OnTarget(a, t) + OnTarget(b, t) + OnTarget(c, t)
  {
    OnTargetAppend(a + b, c, t);
    OnTargetAppend(a, b, t);
  }

  lemma RemoveCounts(ts: seq<Ticket>, k: nat, p: nat, i: nat, t: nat)
    requires k < |ts|
    ensures OnKey(Remove(ts, k), p, i) + One(ts[k].pool == p && ts[k].key == i) == OnKey(ts, p, i)
    ensures OnTarget(Remove(ts, k), t) + One(ts[k].stage == Wrapped && ts[k].target == Some(t)) == OnTarget(ts, t)
  {
    CountsAfter(ts, k, [], p, i, t);
    assert ts[..k] + [] + ts[k + 1..] == Remove(ts, k);
  }

  lemma UpdateCounts(ts: seq<Ticket>, k: nat, x: Ticket, p: nat, i: nat, t: nat)
    requires k < |ts| && x.pool == ts[k].pool && x.key == ts[k].key && x.target == ts[k].target
    ensures OnKey(ts[k := x], p, i) == OnKey(ts, p, i)
    ensures OnTarget(ts[k := x], t) + One(ts[k].stage == Wrapped && ts[k].target == Some(t))
            == OnTarget(ts, t) + One(x.stage == Wrapped && ts[k].target == Some(t))
  {
    CountsAfter(ts, k, [x], p, i, t);
    assert ts[..k] + [x] + ts[k + 1..] == ts[k := x];
    OnKeySingle(x, p, i);
    OnTargetSingle(x, t);
  }

  lemma AppendCounts(ts: seq<Ticket>, x: Ticket, p: nat, i: nat, t: nat)
    requires x.stage == Fetching
    ensures OnKey(ts + [x], p, i) == OnKey(ts, p, i) + One(x.pool == p && x.key == i)
    ensures OnTarget(ts + [x], t) == OnTarget(ts, t)
  {
    OnKeyAppend(ts, [x], p, i);
    OnKeySingle(x, p, i);
    OnTargetAppend(ts, [x], t);
    OnTargetSingle(x, t);
  }

  lemma {:induction false} ProbeTicketsFit(pool: nat, creds: seq<Cred>, n: nat)
    requires n <= |creds|
    ensures forall k :: 0 <= k < |ProbeTickets(pool, creds, n)| ==>
                          var x := ProbeTickets(pool, creds, n)[k];
                          x.pool == pool && x.key < n && x.target == None
  {
    if n > 0 {
      ProbeTicketsFit(pool, creds, n - 1);
    }
  }

  lemma ProbeTicketsSnoc(pool: nat, creds: seq<Cred>, n: nat, p: nat, i: nat, t: nat)
    requires n < |creds|
    ensures OnKey(ProbeTickets(pool, creds, n + 1), p, i)
            == OnKey(ProbeTickets(pool, creds, n), p, i) + One(p == pool && i == n && creds[n].health == RateLimited)
    ensures OnTarget(ProbeTickets(pool, creds, n + 1), t) == OnTarget(ProbeTickets(pool, creds, n), t)
  {
    var before := ProbeTickets(pool, creds, n);
    if creds[n].health == RateLimited {
      AppendCounts(before, Ticket(pool, n, None, true, Fetching), p, i, t);
    } else {
      assert before + [] == before;
    }
  }

  lemma {:induction false} ProbeTicketCounts(pool: nat, creds: seq<Cred>, n: nat, p: nat, i: nat, t: nat)
    requires n <= |creds|
    ensures OnKey(ProbeTickets(pool, creds, n), p, i) == One(p == pool && i < n && creds[i].health == RateLimited)
    ensures OnTarget(ProbeTickets(pool, creds, n), t) == 0
  {
    if n > 0 {
      ProbeTicketCounts(pool, creds, n - 1, p, i, t);
      ProbeTicketsSnoc(pool, creds, n - 1, p, i, t);
    }
  }

  // ----- conservation -----

  ghost predicate KeyConserved(w: World, p: nat, i: nat)
    requires p < |w.pools| && i < |w.pools[p].creds|
  {
    w.pools[p].creds[i].inFlight == OnKey(w.tickets, p, i)
  }

  ghost predicate TargetConserved(w: World, t: nat)
    requires t < |w.counters|
  {
    w.counters[t] == OnTarget(w.tickets, t)
  }

  ghost predicate Conserved(w: World) {
    && (forall p, i :: 0 <= p < |w.pools| && 0 <= i < |w.pools[p].creds| ==> KeyConserved(w, p, i))
    && (forall t :: 0 <= t < |w.counters| ==> TargetConserved(w, t))
  }

  lemma {:induction false} OnKeyAtLeastOne(ts: seq<Ticket>, k: nat)
    requires k < |ts|
    ensures OnKey(ts, ts[k].pool, ts[k].key) >= 1
  {
    RemoveCounts(ts, k, ts[k].pool, ts[k].key, 0);
  }

  lemma StepKeepsDistinct(c: Config, p: Pool, e: Event)
    requires ValidConfig(c) && Distinct(p.creds)
    ensures Distinct(Step(c, p, e).creds)
  {
    forall i | 0 <= i < |p.creds| ensures Step(c, p, e).creds[i].id == p.creds[i].id {
      StepAt(c, p, e, i);
    }
  }

  /** What one pool step does to one key's load. */
  lemma LoadStep(c: Config, p: Pool, e: Event, i: nat)
    requires ValidConfig(c) && i < |p.creds| && Distinct(p.creds)
    ensures var a := p.creds[i];
            var b := Step(c, p, e).creds[i];
            match e
            case Select(_, _) => b.inFlight == a.inFlight + One(Chosen(c, p, e) == Some(i))
            case FetchFailed(j, _) => b.inFlight == a.inFlight - One(i == j)
            case ProbeFetchFailed(j) => b.inFlight == a.inFlight - One(i == j)
            case Release(id, _, _) => b.inFlight == a.inFlight - One(id == a.id && a.inFlight > 0)
            case Probe => b.inFlight == a.inFlight + One(a.health == RateLimited)
            case RecordTokens(_, _, _) => b.inFlight == a.inFlight
  {
    StepAt(c, p, e, i);
    FindsUnique(p.creds, i);
    if e.Select? {
      RefreshKeeps(c, p.creds[i], e.now);
    }
  }

  /** A plan given back is always one its pool counts: the guard against negative loads never fires. */
  lemma HeldKeyIsLoaded(w: World, k: nat)
    requires Conserved(w) && k < |w.tickets| && TicketFits(w, w.tickets[k])
    ensures w.pools[w.tickets[k].pool].creds[w.tickets[k].key].inFlight >= 1
  {
    OnKeyAtLeastOne(w.tickets, k);
    assert KeyConserved(w, w.tickets[k].pool, w.tickets[k].key);
  }

  lemma ChosenInRange(c: Config, p: Pool, now: Time, key: string)
    requires ValidConfig(c)
    ensures var i := Chosen(c, p, Select(now, key)); i.Some? ==> i.value < |p.creds|
  {
    SelectSound(c, p, now, key);
  }

  lemma TakeKeeps(cs: seq<Config>, w: World, m: Move, p: nat, i: nat, t: nat)
    requires WellFormed(cs, w) && Conserved(w) && m.Take? && Enabled(w, m)
    ensures p < |w.pools| && i < |w.pools[p].creds| ==> KeyConserved(Next(cs, w, m), p, i)
    ensures t < |w.counters| ==> TargetConserved(Next(cs, w, m), t)
  {
    var e := Select(m.now, m.key);
    var chosen := Chosen(cs[m.pool], w.pools[m.pool], e);
    if chosen.Some? {
      AppendCounts(w.tickets, Ticket(m.pool, chosen.value, m.target, false, Fetching), p, i, t);
    }
    if p < |w.pools| && i < |w.pools[p].creds| {
      assert KeyConserved(w, p, i);
      if p == m.pool {
        LoadStep(cs[p], w.pools[p], e, i);
      }
    }
    assert t < |w.counters| ==> TargetConserved(w, t);
  }

  lemma FetchFailsKeeps(cs: seq<Config>, w: World, m: Move, p: nat, i: nat, t: nat)
    requires WellFormed(cs, w) && Conserved(w) && m.FetchFails? && Enabled(w, m)
    ensures p < |w.pools| && i < |w.pools[p].creds| ==> KeyConserved(Next(cs, w, m), p, i)
    ensures t < |w.counters| ==> TargetConserved(Next(cs, w, m), t)
  {
    var x := w.tickets[m.k];
    RemoveCounts(w.tickets, m.k, p, i, t);
    if p < |w.pools| && i < |w.pools[p].creds| {
      assert KeyConserved(w, p, i);
      if p == x.pool {
        LoadStep(cs[p], w.pools[p], if x.probe then ProbeFetchFailed(x.key) else FetchFailed(x.key, m.now), i);
      }
    }
    assert t < |w.counters| ==> TargetConserved(w, t);
  }

  lemma GiveBackKeeps(cs: seq<Config>, w: World, m: Move, p: nat, i: nat, t: nat)
    requires WellFormed(cs, w) && Conserved(w) && m.GiveBack? && Enabled(w, m)
    ensures p < |w.pools| && i < |w.pools[p].creds| ==> KeyConserved(Next(cs, w, m), p, i)
    ensures t < |w.counters| ==> TargetConserved(Next(cs, w, m), t)
  {
    var x := w.tickets[m.k];
    assert TicketFits(w, x);
    HeldKeyIsLoaded(w, m.k);
    RemoveCounts(w.tickets, m.k, p, i, t);
    if p < |w.pools| && i < |w.pools[p].creds| {
      assert KeyConserved(w, p, i);
      if p == x.pool {
        var id := w.pools[p].creds[x.key].id;
        LoadStep(cs[p], w.pools[p], Release(id, m.outcome, m.now), i);
        assert id == w.pools[p].creds[i].id <==> i == x.key;
      }
    }
    assert t < |w.counters| ==> TargetConserved(w, t);
  }

  /** The moves that only change a ticket's stage, and the router's counter with it. */
  lemma StageKeeps(cs: seq<Config>, w: World, m: Move, p: nat, i: nat, t: nat)
    requires WellFormed(cs, w) && Conserved(w) && (m.FetchSucceeds? || m.CountOn? || m.CountOff?) && Enabled(w, m)
    ensures p < |w.pools| && i < |w.pools[p].creds| ==> KeyConserved(Next(cs, w, m), p, i)
    ensures t < |w.counters| ==> TargetConserved(Next(cs, w, m), t)
  {
    var x := w.tickets[m.k];
    var stage := match m case CountOn(_) => Wrapped case CountOff(_) => Unwrapped case _ => Planned;
    UpdateCounts(w.tickets, m.k, x.(stage := stage), p, i, t);
    assert TicketFits(w, x);
    assert p < |w.pools| && i < |w.pools[p].creds| ==> KeyConserved(w, p, i);
    assert t < |w.counters| ==> TargetConserved(w, t);
  }

  lemma ProbeKeeps(cs: seq<Config>, w: World, m: Move, p: nat, i: nat, t: nat)
    requires WellFormed(cs, w) && Conserved(w) && (m.ProbePool? || m.Tokens?) && Enabled(w, m)
    ensures p < |w.pools| && i < |w.pools[p].creds| ==> KeyConserved(Next(cs, w, m), p, i)
    ensures t < |w.counters| ==> TargetConserved(Next(cs, w, m), t)
  {
    if m.ProbePool? {
      var creds := w.pools[m.pool].creds;
      ProbeTicketCounts(m.pool, creds, |creds|, p, i, t);
      OnKeyAppend(w.tickets, ProbeTickets(m.pool, creds, |creds|), p, i);
      OnTargetAppend(w.tickets, ProbeTickets(m.pool, creds, |creds|), t);
    }
    if p < |w.pools| && i < |w.pools[p].creds| {
      assert KeyConserved(w, p, i);
      if p == m.pool {
        LoadStep(cs[p], w.pools[p], if m.ProbePool? then Probe else RecordTokens(m.id, m.tokens, m.now), i);
      }
    }
    assert t < |w.counters| ==> TargetConserved(w, t);
  }

  lemma MoveKeeps(cs: seq<Config>, w: World, m: Move, p: nat, i: nat, t: nat)
    requires WellFormed(cs, w) && Conserved(w) && Enabled(w, m)
    ensures p < |w.pools| && i < |w.pools[p].creds| ==> KeyConserved(Next(cs, w, m), p, i)
    ensures t < |w.counters| ==> TargetConserved(Next(cs, w, m), t)
  {
    match m
    case Take(_, _, _, _) => TakeKeeps(cs, w, m, p, i, t);
    case FetchFails(_, _) => FetchFailsKeeps(cs, w, m, p, i, t);
    case GiveBack(_, _, _) => GiveBackKeeps(cs, w, m, p, i, t);
    case FetchSucceeds(_) => StageKeeps(cs, w, m, p, i, t);
    case CountOn(_) => StageKeeps(cs, w, m, p, i, t);
    case CountOff(_) => StageKeeps(cs, w, m, p, i, t);
    case ProbePool(_) => ProbeKeeps(cs, w, m, p, i, t);
    case Tokens(_, _, _, _) => ProbeKeeps(cs, w, m, p, i, t);
  }

  lemma MoveKeepsDistinct(cs: seq<Config>, w: World, m: Move)
    requires WellFormed(cs, w) && Enabled(w, m)
    ensures forall p :: 0 <= p < |w.pools| ==> Distinct(Next(cs, w, m).pools[p].creds)
  {
    var v := Next(cs, w, m);
    forall p | 0 <= p < |w.pools| ensures Distinct(v.pools[p].creds) {
      match m
      case Take(q, _, now, key) => StepKeepsDistinct(cs[q], w.pools[q], Select(now, key));
      case FetchFails(k, now) =>
        var x := w.tickets[k];
        StepKeepsDistinct(cs[x.pool], w.pools[x.pool],
                          if x.probe then ProbeFetchFailed(x.key) else FetchFailed(x.key, now));
      case GiveBack(k, outcome, now) =>
        var x := w.tickets[k];
        StepKeepsDistinct(cs[x.pool], w.pools[x.pool], Release(w.pools[x.pool].creds[x.key].id, outcome, now));
      case ProbePool(q) => StepKeepsDistinct(cs[q], w.pools[q], Probe);
      case Tokens(q, id, tokens, now) => StepKeepsDistinct(cs[q], w.pools[q], RecordTokens(id, tokens, now));
      case FetchSucceeds(_) =>
      case CountOn(_) =>
      case CountOff(_) =>
    }
  }

  lemma MoveKeepsShape(cs: seq<Config>, w: World, m: Move)
    requires WellFormed(cs, w) && Enabled(w, m)
    ensures var v := Next(cs, w, m);
            && WellFormed(cs, v) && |v.counters| == |w.counters|
            && forall p :: 0 <= p < |w.pools| ==> |v.pools[p].creds| == |w.pools[p].creds|
  {
    var v := Next(cs, w, m);
    MoveKeepsDistinct(cs, w, m);
    if m.Take? {
      ChosenInRange(cs[m.pool], w.pools[m.pool], m.now, m.key);
    }
    if m.ProbePool? {
      var creds := w.pools[m.pool].creds;
      ProbeTicketsFit(m.pool, creds, |creds|);
    }
  }

  lemma MoveConserves(cs: seq<Config>, w: World, m: Move)
    requires WellFormed(cs, w) && Conserved(w) && Enabled(w, m)
    ensures Conserved(Next(cs, w, m))
  {
    var v := Next(cs, w, m);
    MoveKeepsShape(cs, w, m);
    forall p, i | 0 <= p < |v.pools| && 0 <= i < |v.pools[p].creds| ensures KeyConserved(v, p, i) {
      MoveKeeps(cs, w, m, p, i, 0);
    }
    forall t | 0 <= t < |v.counters| ensures TargetConserved(v, t) {
      MoveKeeps(cs, w, m, 0, 0, t);
    }
  }

  // ----- every reachable world -----

  /** A world reached from `w0` by `moves`, each possible where it was made. */
  ghost predicate Reaches(cs: seq<Config>, w0: World, moves: seq<Move>, w: World) {
    if moves == [] then w == w0
    else
      exists v: World :: Reaches(cs, w0, moves[..|moves| - 1], v) && WellFormed(cs, v)
                         && Enabled(v, moves[|moves| - 1]) && w == Next(cs, v, moves[|moves| - 1])
  }

  ghost predicate Initial(cs: seq<Config>, w: World) {
    && WellFormed(cs, w) && w.tickets == []
    && (forall p :: 0 <= p < |w.pools| ==> Fresh(w.pools[p]))
    && (forall t :: 0 <= t < |w.counters| ==> w.counters[t] == 0)
  }

  /**
   * In every reachable world each key's load is the number of its tickets, and each target's counter
   * the number of its wrapped ones. So with no ticket out, every load and every counter is zero.
   */
  lemma {:induction false} InFlightConserved(cs: seq<Config>, w0: World, moves: seq<Move>, w: World)
    requires Initial(cs, w0) && Reaches(cs, w0, moves, w)
    ensures WellFormed(cs, w) && Conserved(w)
    ensures w.tickets == [] ==>
              && (forall p, i :: 0 <= p < |w.pools| && 0 <= i < |w.pools[p].creds| ==> w.pools[p].creds[i].inFlight == 0)
              && (forall t :: 0 <= t < |w.counters| ==> w.counters[t] == 0)
  {
    if moves == [] {
      InitiallyConserved(cs, w);
    } else {
      var v: World :| Reaches(cs, w0, moves[..|moves| - 1], v) && WellFormed(cs, v)
                      && Enabled(v, moves[|moves| - 1]) && w == Next(cs, v, moves[|moves| - 1]);
      InFlightConserved(cs, w0, moves[..|moves| - 1], v);
      MoveConserves(cs, v, moves[|moves| - 1]);
      MoveKeepsShape(cs, v, moves[|moves| - 1]);
    }
    if w.tickets == [] {
      EmptyConserved(w);
    }
  }

  lemma InitiallyConserved(cs: seq<Config>, w: World)
    requires Initial(cs, w)
    ensures Conserved(w)
  {
    forall p, i | 0 <= p < |w.pools| && 0 <= i < |w.pools[p].creds| ensures KeyConserved(w, p, i) {
      assert Fresh(w.pools[p]);
    }
  }

  lemma EmptyConserved(w: World)
    requires Conserved(w) && w.tickets == []
    ensures forall p, i :: 0 <= p < |w.pools| && 0 <= i < |w.pools[p].creds| ==> w.pools[p].creds[i].inFlight == 0
    ensures forall t :: 0 <= t < |w.counters| ==> w.counters[t] == 0
  {
    forall p, i | 0 <= p < |w.pools| && 0 <= i < |w.pools[p].creds| ensures w.pools[p].creds[i].inFlight == 0 {
      assert KeyConserved(w, p, i);
    }
    forall t | 0 <= t < |w.counters| ensures w.counters[t] == 0 {
      assert TargetConserved(w, t);
    }
  }
}
