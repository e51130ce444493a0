/** Round robin is fair: over a full turn of the ring every key is selected equally often. */
module PoolFairness {
  import opened Options
  import opened PoolModel
  import opened PoolRuns

  // ----- the arithmetic of turns -----

  lemma Grows(b: nat, d: int)
    requires d >= 1
    ensures b * d >= b
  {
  }

  lemma Apart(b: nat, q: int, q2: int)
    requires q > q2
    ensures b * q >= b * q2 + b
  {
    Grows(b, q - q2);
    assert b * (q - q2) == b * q - b * q2;
  }

  /** Quotient and remainder are unique. */
  lemma Quotients(b: nat, q: int, r: nat, q2: int, r2: nat)
    requires r < b && r2 < b && b * q + r == b * q2 + r2
    ensures q == q2 && r == r2
  {
    if q > q2 {
      Apart(b, q, q2);
      assert false;
    }
    if q < q2 {
      Apart(b, q2, q);
      assert false;
    }
  }

  lemma QuotientIs(a: nat, b: nat, q: nat)
    requires b > 0 && q * b <= a < q * b + b
    ensures a / b == q
  {
    Quotients(b, q, a - q * b, a / b, a % b);
  }

  /** A full turn of `n` batches later it is the same key's turn. */
  lemma SameTurn(t: nat, b: nat, n: nat)
    requires b > 0 && n > 0
    ensures (t + n * b) / b % n == t / b % n
  {
    var q := t / b;
    assert t == b * q + t % b;
    assert (q + n) * b == q * b + n * b;
    QuotientIs(t + n * b, b, q + n);
    AddModulus(q, n);
  }

  lemma AddModulus(x: nat, n: nat)
    requires n > 0
    ensures (x + n) % n == x % n
  {
    var k := x / n;
    assert x == n * k + x % n;
    assert n * (k + 1) == n * k + n;
    Quotients(n, k + 1, x % n, (x + n) / n, (x + n) % n);
  }

  /** Whose turn it is at the `t`-th tick of a counter that wraps. */
  function KeyAt(b: nat, n: nat, t: nat): (i: nat)
    requires b > 0 && n > 0
    ensures i < n
  {
    t % UINT64 / b % n
  }

  /** Up to `end` the wrap does not show: each tick's key is what an unbounded counter would say. */
  ghost predicate Plain(b: nat, n: nat, end: nat)
    requires b > 0 && n > 0
  {
    forall t: nat :: t < end ==> KeyAt(b, n, t) == t / b % n
  }

  /** How many ticks from `from` up to but without `end` give key `i` its turn. */
  function Hits(b: nat, n: nat, i: nat, from: nat, end: nat): nat
    requires b > 0 && n > 0 && from <= end
    decreases end
  {
    if from == end then 0 else Hits(b, n, i, from, end - 1) + if KeyAt(b, n, end - 1) == i then 1 else 0
  }

  lemma {:induction false} HitsSplit(b: nat, n: nat, i: nat, from: nat, mid: nat, end: nat)
    requires b > 0 && n > 0 && from <= mid <= end
    ensures Hits(b, n, i, from, end) == Hits(b, n, i, from, mid) + Hits(b, n, i, mid, end)
    decreases end
  {
    if mid < end {
      HitsSplit(b, n, i, from, mid, end - 1);
    }
  }

  lemma TurnInBatch(b: nat, n: nat, q: nat, t: nat)
    requires b > 0 && q < n && q * b <= t < q * b + b
    ensures t / b % n == q
  {
    QuotientIs(t, b, q);
  }

  /** Within one batch the turn is one key's. */
  lemma {:induction false} HitsInBatch(b: nat, n: nat, i: nat, q: nat, start: nat, m: nat)
    requires b > 0 && q < n && i < n && m <= b && start == q * b && Plain(b, n, start + m)
    ensures Hits(b, n, i, start, start + m) == if i == q then m else 0
  {
    if m > 0 {
      HitsInBatch(b, n, i, q, start, m - 1);
      TurnInBatch(b, n, q, start + m - 1);
    }
  }

  lemma {:induction false} HitsFromZero(b: nat, n: nat, i: nat, q: nat)
    requires b > 0 && q <= n && i < n && 0 <= q * b && Plain(b, n, q * b)
    ensures Hits(b, n, i, 0, q * b) == if i < q then b else 0
  {
    if q > 0 {
      var before := (q - 1) * b;
      assert q * b == before + b && 0 <= before;
      HitsFromZero(b, n, i, q - 1);
      HitsInBatch(b, n, i, q - 1, before, b);
      HitsSplit(b, n, i, 0, before, q * b);
    }
  }

  /** Every full turn, wherever it starts, gives each key its batch, as long as the wrap does not show. */
  lemma {:induction false} HitsPerTurn(b: nat, n: nat, i: nat, from: nat, turn: nat)
    requires b > 0 && n > 0 && i < n && turn == n * b && Plain(b, n, from + turn)
    ensures Hits(b, n, i, from, from + turn) == b
  {
    assert turn > 0;
    if from == 0 {
      HitsFromZero(b, n, i, n);
    } else {
      HitsPerTurn(b, n, i, from - 1, turn);
      Slide(b, n, i, from - 1, turn);
      SameTurn(from - 1, b, n);
    }
  }

  /** A window one tick later loses its first key and gains the next. */
  lemma Slide(b: nat, n: nat, i: nat, t: nat, turn: nat)
    requires b > 0 && n > 0 && turn > 0
    ensures Hits(b, n, i, t + 1, t + 1 + turn) + (if KeyAt(b, n, t) == i then 1 else 0)
            == Hits(b, n, i, t, t + turn) + if KeyAt(b, n, t + turn) == i then 1 else 0
  {
    HitsSplit(b, n, i, t, t + 1, t + turn);
    HitsOne(b, n, i, t);
  }

  lemma HitsOne(b: nat, n: nat, i: nat, t: nat)
    requires b > 0 && n > 0
    ensures Hits(b, n, i, t, t + 1) == if KeyAt(b, n, t) == i then 1 else 0
  {
    assert Hits(b, n, i, t, t) == 0;
  }

  // ----- when the wrap does not show -----

  /** A full turn divides the counter's range, or there is one key only. */
  predicate WrapsEvenly(b: nat, n: nat)
    requires b > 0 && n > 0
  {
    n == 1 || (0 < n * b && UINT64 % (n * b) == 0)
  }

  lemma BeforeWrap(b: nat, n: nat, end: nat)
    requires b > 0 && n > 0 && end <= UINT64
    ensures Plain(b, n, end)
  {
    forall t: nat | t < end ensures KeyAt(b, n, t) == t / b % n {
      assert t % UINT64 == t;
    }
  }

  /** Whole turns taken away do not change whose turn it is. */
  lemma {:induction false} WholeTurns(r: nat, b: nat, n: nat, m: nat)
    requires b > 0 && n > 0
    ensures 0 <= m * (n * b) && (r + m * (n * b)) / b % n == r / b % n
  {
    if m > 0 {
      WholeTurns(r, b, n, m - 1);
      assert m * (n * b) == (m - 1) * (n * b) + n * b;
      SameTurn(r + (m - 1) * (n * b), b, n);
    } else {
      assert m * (n * b) == 0;
    }
  }

  lemma EvenWrap(b: nat, n: nat, end: nat)
    requires b > 0 && n > 0 && WrapsEvenly(b, n)
    ensures Plain(b, n, end)
  {
    forall t: nat | t < end ensures KeyAt(b, n, t) == t / b % n {
      if n > 1 {
        var j, m := t / UINT64, UINT64 / (n * b);
        RangeOfTurns(n * b, j, m);
        WholeTurns(t % UINT64, b, n, j * m);
      }
    }
  }

  lemma RangeOfTurns(turn: nat, j: nat, m: nat)
    requires turn > 0 && UINT64 % turn == 0 && m == UINT64 / turn
    ensures UINT64 * j == j * m * turn
  {
    assert UINT64 == turn * m;
    Shuffle(turn, m, j);
  }

  lemma Shuffle(a: nat, b: nat, c: nat)
    ensures a * b * c == c * b * a
  {
  }

  // ----- the selections of a run -----

  /** The keys a run's selections return, in order. */
  function Picks(c: Config, p: Pool, es: seq<Event>): seq<Option<nat>>
    requires ValidConfig(c)
  {
    if es == [] then []
    else
      var before := es[..|es| - 1];
      var e := es[|es| - 1];
      Picks(c, p, before) + if e.Select? then [Chosen(c, Run(c, p, before), e)] else []
  }

  /** Every key would be admitted by the first pass of a selection at `now`. */
  ghost predicate AllEligible(c: Config, q: Pool, now: Time) {
    forall i :: 0 <= i < |q.creds| ==> Admits(c, Proactive, Refresh(c, q.creds[i], now), now)
  }

  ghost predicate AlwaysEligible(c: Config, p: Pool, es: seq<Event>)
    requires ValidConfig(c)
  {
    es != [] ==>
      var before := es[..|es| - 1];
      var e := es[|es| - 1];
      AlwaysEligible(c, p, before) && (e.Select? ==> AllEligible(c, Run(c, p, before), e.now))
  }

  /** The counter after one more selection. */
  function Tick(counter: nat): nat {
    (counter + 1) % UINT64
  }

  lemma TickAdds(start: nat, k: nat)
    ensures Tick((start + k) % UINT64) == (start + (k + 1)) % UINT64
  {
  }

  /** When every key is eligible, the counter alone decides, and moves on by one. */
  lemma CounterDecides(c: Config, q: Pool, e: Event)
    requires ValidConfig(c) && c.strategy == RoundRobin && c.stickyTTL.None? && q.creds != []
    requires e.Select? && AllEligible(c, q, e.now)
    ensures Chosen(c, q, e) == Some(Base(c, |q.creds|, q.counter))
    ensures Step(c, q, e).counter == Tick(q.counter)
  {
    var creds := RefreshAll(c, q.creds, e.now);
    var base := Base(c, |creds|, q.counter);
    var i := Place(base, 0, |creds|);
    assert i == base;
    assert Admits(c, Proactive, creds[i], e.now);
    assert Pick(c, Proactive, creds, e.now, q.counter) == Some(i);
  }

  function CountOf(picks: seq<Option<nat>>, i: nat): nat {
    if picks == [] then 0
    else CountOf(picks[..|picks| - 1], i) + if picks[|picks| - 1] == Some(i) then 1 else 0
  }

  lemma CountSnoc(picks: seq<Option<nat>>, x: Option<nat>, i: nat)
    ensures CountOf(picks + [x], i) == CountOf(picks, i) + if x == Some(i) then 1 else 0
  {
    assert (picks + [x])[..|picks|] == picks;
  }

  /** One step further along a run in which all keys stay eligible. */
  lemma CounterStep(c: Config, p: Pool, es: seq<Event>)
    requires ValidConfig(c) && c.strategy == RoundRobin && c.stickyTTL.None? && p.creds != []
    requires es != [] && AlwaysEligible(c, p, es)
    ensures var before := Run(c, p, es[..|es| - 1]).counter;
            Run(c, p, es).counter == if es[|es| - 1].Select? then Tick(before) else before
  {
    if es[|es| - 1].Select? {
      CounterDecides(c, Run(c, p, es[..|es| - 1]), es[|es| - 1]);
    }
  }

  lemma PicksStep(c: Config, p: Pool, es: seq<Event>)
    requires ValidConfig(c) && c.strategy == RoundRobin && c.stickyTTL.None? && p.creds != []
    requires es != [] && AlwaysEligible(c, p, es)
    ensures var before := es[..|es| - 1];
            Picks(c, p, es) == if es[|es| - 1].Select?
                               then Picks(c, p, before) + [Some(Base(c, |p.creds|, Run(c, p, before).counter))]
                               else Picks(c, p, before)
  {
    if es[|es| - 1].Select? {
      CounterDecides(c, Run(c, p, es[..|es| - 1]), es[|es| - 1]);
    }
  }

  lemma {:induction false} CounterOfRun(c: Config, p: Pool, es: seq<Event>)
    requires ValidConfig(c) && c.strategy == RoundRobin && c.stickyTTL.None? && p.creds != []
    requires AlwaysEligible(c, p, es) && p.counter < UINT64
    ensures Run(c, p, es).counter == (p.counter + |Picks(c, p, es)|) % UINT64
  {
    if es != [] {
      var before := es[..|es| - 1];
      PicksStep(c, p, es);
      CounterOfRun(c, p, before);
      CounterStep(c, p, es);
      TickAdds(p.counter, |Picks(c, p, before)|);
    }
  }

  lemma {:induction false} PicksFollowCounter(c: Config, p: Pool, es: seq<Event>, i: nat)
    requires ValidConfig(c) && c.strategy == RoundRobin && c.stickyTTL.None? && p.creds != []
    requires AlwaysEligible(c, p, es) && p.counter < UINT64
    ensures CountOf(Picks(c, p, es), i)
            == Hits(c.batch, |p.creds|, i, p.counter, p.counter + |Picks(c, p, es)|)
  {
    if es != [] {
      var before := es[..|es| - 1];
      PicksStep(c, p, es);
      PicksFollowCounter(c, p, before, i);
      if es[|es| - 1].Select? {
        CounterOfRun(c, p, before);
        CountSnoc(Picks(c, p, before), Some(Base(c, |p.creds|, Run(c, p, before).counter)), i);
      }
    }
  }

  /** A full turn's selections return key `i` exactly `batch` times. */
  ghost predicate Fair(c: Config, p: Pool, es: seq<Event>, i: nat)
    requires ValidConfig(c)
  {
    CountOf(Picks(c, p, es), i) == c.batch
  }

  /**
   * When all keys stay eligible, and whatever else happens in between, `n * batch` selections return
   * each of the `n` keys exactly `batch` times, unless the counter wraps meanwhile and a full turn
   * does not divide its range.
   */
  lemma RoundRobinFair(c: Config, p: Pool, es: seq<Event>, i: nat)
    requires ValidConfig(c) && c.strategy == RoundRobin && c.stickyTTL.None? && i < |p.creds|
    requires AlwaysEligible(c, p, es) && p.counter < UINT64
    requires |Picks(c, p, es)| == |p.creds| * c.batch
    requires p.counter + |p.creds| * c.batch <= UINT64 || WrapsEvenly(c.batch, |p.creds|)
    ensures Fair(c, p, es, i)
  {
    var turn := |p.creds| * c.batch;
    if p.counter + turn <= UINT64 {
      BeforeWrap(c.batch, |p.creds|, p.counter + turn);
    } else {
      EvenWrap(c.batch, |p.creds|, p.counter + turn);
    }
    PicksFollowCounter(c, p, es, i);
    HitsPerTurn(c.batch, |p.creds|, i, p.counter, turn);
  }

  // ----- an uneven wrap is unfair to someone -----

  /** What a tick shortly before the wrap shows, and the tick a full turn later. */
  lemma AcrossTheWrap(b: nat, n: nat, x: nat, turn: nat, r: nat) returns (t: nat)
    requires b > 0 && n > 0 && turn == n * b <= UINT64 && r == UINT64 % turn && x < b <= turn
    ensures t == UINT64 - turn + x
    ensures KeyAt(b, n, t) == (r + x) / b % n && KeyAt(b, n, t + turn) == x / b % n
  {
    t := UINT64 - turn + x;
    OneTurnLater(b, n, x, t, turn);
    BeforeTheWrap(b, n, x, t, turn, r, UINT64 / turn);
  }

  /** The tick before the wrap whose key differs from the one a full turn later. */
  lemma UnevenTick(b: nat, n: nat, turn: nat, r: nat) returns (t: nat)
    requires b > 0 && n > 1 && turn == n * b <= UINT64 && r == UINT64 % turn && r > 0
    ensures t + 1 < UINT64 && KeyAt(b, n, t) != KeyAt(b, n, t + turn)
  {
    MoreTurns(n, b);
    LastBatch(n, b, turn);
    if r > turn - b {
      t := AcrossTheWrap(b, n, 0, turn, r);
      LastKey(b, n, r);
    } else {
      t := AcrossTheWrap(b, n, b - 1, turn, r);
      UnevenQuotient(b, n, r);
    }
  }

  lemma LastBatch(n: nat, b: nat, turn: nat)
    requires n > 0 && turn == n * b
    ensures turn - b == (n - 1) * b
  {
  }

  lemma LastKey(b: nat, n: nat, r: nat)
    requires b > 0 && n > 1 && (n - 1) * b < r < (n - 1) * b + b
    ensures (r + 0) / b % n != 0 / b % n
  {
    QuotientIs(r, b, n - 1);
    assert 0 / b == 0;
  }

  lemma MoreTurns(n: nat, b: nat)
    requires n > 1
    ensures n * b >= 2 * b
  {
  }

  lemma OneTurnLater(b: nat, n: nat, x: nat, t: nat, turn: nat)
    requires b > 0 && n > 0 && x < b <= turn <= UINT64 && t == UINT64 - turn + x
    ensures KeyAt(b, n, t + turn) == x / b % n
  {
    assert t + turn == UINT64 + x;
  }

  lemma BeforeTheWrap(b: nat, n: nat, x: nat, t: nat, turn: nat, r: nat, m: nat)
    requires b > 0 && n > 0 && turn == n * b <= UINT64 && x < turn && t == UINT64 - turn + x
    requires UINT64 == turn * m + r && r < turn
    ensures KeyAt(b, n, t) == (r + x) / b % n
  {
    assert m > 0;
    assert t == r + x + (m - 1) * turn;
    WholeTurns(r + x, b, n, m - 1);
    assert t % UINT64 == t;
  }

  lemma UnevenQuotient(b: nat, n: nat, r: nat)
    requires b > 0 && n > 1 && 0 < r <= (n - 1) * b
    ensures (r + (b - 1)) / b % n != (b - 1) / b % n
  {
    QuotientIs(b - 1, b, 0);
    var q := (r + (b - 1)) / b;
    assert r + (b - 1) == b * q + (r + (b - 1)) % b;
    if q == 0 {
      assert false;
    }
    if q >= n {
      Apart(b, q, n - 1);
      assert false;
    }
  }

  lemma UnfairWindow(b: nat, n: nat, turn: nat) returns (start: nat, i: nat)
    requires b > 0 && n > 1 && turn == n * b <= UINT64 && UINT64 % turn != 0
    ensures start < UINT64 && i < n && Hits(b, n, i, start, start + turn) != b
  {
    var t := UnevenTick(b, n, turn, UINT64 % turn);
    i := KeyAt(b, n, t);
    Slide(b, n, i, t, turn);
    start := if Hits(b, n, i, t, t + turn) != b then t else t + 1;
  }

  // ----- a run that shows it -----

  /** A pool as the constructor leaves it. */
  ghost predicate Constructed(p: Pool) {
    Fresh(p) && p.counter == 0 && p.affinity == map[]
  }

  /** A new pool of `n` keys. */
  function NewPool(n: nat): Pool {
    Pool(seq(n, k requires 0 <= k < n => Cred(seq(k, _ => 'k'), Healthy, 0, 0, 0, 0, [], [])), 0, map[])
  }

  function Selections(m: nat): seq<Event> {
    seq(m, k requires 0 <= k < m => Select(0, ""))
  }

  /** Selections alone leave a pool without limits as healthy as it was. */
  lemma {:induction false} SelectionsKeepHealthy(c: Config, p: Pool, m: nat, i: nat)
    requires ValidConfig(c) && i < |p.creds| && p.creds[i].health == Healthy
    ensures Run(c, p, Selections(m)).creds[i].health == Healthy
  {
    if m > 0 {
      assert Selections(m)[..m - 1] == Selections(m - 1);
      SelectionsKeepHealthy(c, p, m - 1, i);
      StepAt(c, Run(c, p, Selections(m - 1)), Select(0, ""), i);
    }
  }

  lemma {:induction false} SelectionsEligible(c: Config, p: Pool, m: nat)
    requires ValidConfig(c) && c.rateLimit == 0 && c.tpmLimit == 0
    requires forall i :: 0 <= i < |p.creds| ==> p.creds[i].health == Healthy
    ensures AlwaysEligible(c, p, Selections(m)) && |Picks(c, p, Selections(m))| == m
  {
    if m > 0 {
      assert Selections(m)[..m - 1] == Selections(m - 1);
      SelectionsEligible(c, p, m - 1);
      var q := Run(c, p, Selections(m - 1));
      forall i | 0 <= i < |q.creds| ensures Admits(c, Proactive, Refresh(c, q.creds[i], 0), 0) {
        SelectionsKeepHealthy(c, p, m - 1, i);
      }
    }
  }

  /** The key-choosing counter never leaves its range. */
  lemma {:induction false} CounterInRange(c: Config, p: Pool, es: seq<Event>)
    requires ValidConfig(c) && p.counter < UINT64
    ensures Run(c, p, es).counter < UINT64
    decreases |es|
  {
    if es != [] {
      CounterInRange(c, p, es[..|es| - 1]);
    }
  }

  /** In every run of a new pool of `n` keys, whatever came before: fair whenever all keys stay eligible for the
      length of a full turn. */
  ghost predicate AlwaysFair(c: Config, n: nat)
    requires ValidConfig(c)
  {
    forall p: Pool, before, es, i: nat ::
      Constructed(p) && |p.creds| == n && i < n && FullTurn(c, Run(c, p, before), es) ==> Fair(c, Run(c, p, before), es, i)
  }

  ghost predicate FullTurn(c: Config, q: Pool, es: seq<Event>)
    requires ValidConfig(c)
  {
    AlwaysEligible(c, q, es) && |Picks(c, q, es)| == |q.creds| * c.batch
  }

  lemma NewPoolIsConstructed(n: nat)
    ensures Constructed(NewPool(n)) && |NewPool(n).creds| == n
  {
    var p := NewPool(n);
    forall i, j | 0 <= i < j < n
      ensures p.creds[i].id != p.creds[j].id
    {
      assert |p.creds[i].id| == i && |p.creds[j].id| == j;
    }
  }

  lemma Below(m: nat)
    requires m < UINT64
    ensures (0 + m) % UINT64 == m
  {
  }

  lemma {:induction false} CounterCounts(c: Config, p: Pool, es: seq<Event>, m: nat)
    requires ValidConfig(c) && c.strategy == RoundRobin && c.stickyTTL.None? && p.creds != []
    requires AlwaysEligible(c, p, es) && p.counter == 0 && |Picks(c, p, es)| == m < UINT64
    ensures Run(c, p, es).counter == m
  {
    CounterOfRun(c, p, es);
    Below(m);
  }

  lemma {:induction false} AllKeepHealthy(c: Config, p: Pool, m: nat)
    requires ValidConfig(c) && forall k :: 0 <= k < |p.creds| ==> p.creds[k].health == Healthy
    ensures forall k :: 0 <= k < |p.creds| ==> Run(c, p, Selections(m)).creds[k].health == Healthy
  {
    forall k | 0 <= k < |p.creds|
      ensures Run(c, p, Selections(m)).creds[k].health == Healthy
    {
      SelectionsKeepHealthy(c, p, m, k);
    }
  }

  /** A pool that only selects reaches any counter. */
  lemma CounterReached(c: Config, p: Pool, start: nat)
    requires ValidConfig(c) && c.strategy == RoundRobin && c.stickyTTL.None? && c.rateLimit == 0 && c.tpmLimit == 0
    requires p.counter == 0 && p.creds != [] && start < UINT64
    requires forall k :: 0 <= k < |p.creds| ==> p.creds[k].health == Healthy
    ensures Run(c, p, Selections(start)).counter == start
    ensures forall k :: 0 <= k < |p.creds| ==> Run(c, p, Selections(start)).creds[k].health == Healthy
  {
    SelectionsEligible(c, p, start);
    CounterCounts(c, p, Selections(start), start);
    AllKeepHealthy(c, p, start);
  }

  lemma UnfairOver(c: Config, q: Pool, es: seq<Event>, n: nat, start: nat, i: nat, turn: nat)
    requires ValidConfig(c) && c.strategy == RoundRobin && c.stickyTTL.None?
    requires |q.creds| == n > i && q.counter == start < UINT64 && turn == n * c.batch
    requires AlwaysEligible(c, q, es) && |Picks(c, q, es)| == turn
    requires Hits(c.batch, n, i, start, start + turn) != c.batch
    ensures FullTurn(c, q, es) && !Fair(c, q, es, i)
  {
    PicksFollowCounter(c, q, es, i);
  }

  /** A new pool that has made `before` selections is unfair over its next turn. */
  lemma UnfairRun(c: Config, n: nat, turn: nat) returns (before: nat, i: nat)
    requires ValidConfig(c) && c.strategy == RoundRobin && c.stickyTTL.None? && c.rateLimit == 0 && c.tpmLimit == 0
    requires n > 0 && turn == n * c.batch && 0 < turn <= UINT64 && !WrapsEvenly(c.batch, n)
    ensures i < n
    ensures var q := Run(c, NewPool(n), Selections(before));
            FullTurn(c, q, Selections(turn)) && !Fair(c, q, Selections(turn), i)
  {
    before, i := UnfairWindow(c.batch, n, turn);
    NewPoolIsConstructed(n);
    CounterReached(c, NewPool(n), before);
    var q := Run(c, NewPool(n), Selections(before));
    SelectionsEligible(c, q, turn);
    UnfairOver(c, q, Selections(turn), n, before, i, turn);
  }

  /**
   * Round robin without limits and sessions is fair in all runs, across the counter's wrap as well, exactly when
   * there is one key only or a full turn divides 2^64.
   */
  lemma AlwaysFairIff(c: Config, n: nat)
    requires ValidConfig(c) && c.strategy == RoundRobin && c.stickyTTL.None? && c.rateLimit == 0 && c.tpmLimit == 0
    requires n > 0 && n * c.batch <= UINT64
    ensures AlwaysFair(c, n) <==> WrapsEvenly(c.batch, n)
  {
    if WrapsEvenly(c.batch, n) {
      forall p: Pool, before, es, i: nat |
        Constructed(p) && |p.creds| == n && i < n && FullTurn(c, Run(c, p, before), es)
        ensures Fair(c, Run(c, p, before), es, i)
      {
        CounterInRange(c, p, before);
        RoundRobinFair(c, Run(c, p, before), es, i);
      }
    } else {
      assert n * c.batch > 0;
      var before, i := UnfairRun(c, n, n * c.batch);
      NewPoolIsConstructed(n);
    }
  }
}
