/** The state of a credential pool and the steps its mutex sections take. */
module PoolModel {
  import opened Options

  /** Clock readings and durations, in nanoseconds. */
  type Time = int

  const SECOND := 1_000_000_000

  const UINT64: int := 0x1_0000_0000_0000_0000

  datatype Health = Healthy | CoolingDown | RateLimited

  datatype TokenSample = TokenSample(at: Time, tokens: int)

  datatype Cred = Cred(
    id: string,
    health: Health,
    inFlight: int,
    failures: int,
    rateLimitFailures: nat,
    coolEnd: Time,
    recentRequests: seq<Time>,
    recentTokens: seq<TokenSample>)

  datatype Strategy = RoundRobin | LeastRequests | Fallback

  datatype Config = Config(
    strategy: Strategy,
    threshold: int,
    cooldown: int,
    rateLimit: int,
    rateSoftLimit: int,
    rateWindow: int,
    tpmLimit: int,
    tiers: seq<int>,
    batch: nat,
    stickyTTL: Option<int>)

  /** What the pool constructor's defaults guarantee. */
  predicate ValidConfig(c: Config) {
    && c.threshold >= 1 && c.cooldown > 0 && c.rateWindow > 0
    && |c.tiers| > 0 && 1 <= c.batch < UINT64
    && (c.rateLimit > 0 ==> c.rateSoftLimit >= 1)
    && (c.stickyTTL.Some? ==> c.stickyTTL.value > 0)
  }

  /** A session's binding: to a credential in a pool, to a target in a router. */
  datatype Binding<T> = Binding(id: T, lastSeen: Time)

  datatype Pool = Pool(creds: seq<Cred>, counter: nat, affinity: map<string, Binding<string>>)

  // ----- what a credential looks like at a given time -----

  predicate Available(e: Cred, now: Time) {
    e.health == Healthy || now > e.coolEnd
  }

  function Recover(e: Cred, now: Time): Cred {
    if e.health != Healthy && now > e.coolEnd then e.(health := Healthy, failures := 0) else e
  }

  /** Drops the leading timestamps older than the cutoff, and only those. */
  function DropOld(s: seq<Time>, cutoff: Time): seq<Time> {
    if s != [] && s[0] < cutoff then DropOld(s[1..], cutoff) else s
  }

  function DropOldTokens(s: seq<TokenSample>, cutoff: Time): seq<TokenSample> {
    if s != [] && s[0].at < cutoff then DropOldTokens(s[1..], cutoff) else s
  }

  function TokenSum(s: seq<TokenSample>): int {
    if s == [] then 0 else TokenSum(s[..|s| - 1]) + s[|s| - 1].tokens
  }

  /** A credential after Select has recovered and pruned it. */
  function Refresh(c: Config, e: Cred, now: Time): Cred {
    var e1 := Recover(e, now);
    var e2 := if c.rateLimit > 0 then e1.(recentRequests := DropOld(e1.recentRequests, now - c.rateWindow)) else e1;
    if c.tpmLimit > 0 then e2.(recentTokens := DropOldTokens(e2.recentTokens, now - c.rateWindow)) else e2
  }

  function RefreshAll(c: Config, creds: seq<Cred>, now: Time): (r: seq<Cred>)
    ensures |r| == |creds|
  {
    seq(|creds|, i requires 0 <= i < |creds| => Refresh(c, creds[i], now))
  }

  /** Under both proactive limits. */
  predicate UnderCaps(c: Config, e: Cred) {
    && (c.rateLimit == 0 || |e.recentRequests| < c.rateSoftLimit)
    && (c.tpmLimit == 0 || TokenSum(e.recentTokens) < c.tpmLimit)
  }

  /** The first pass asks for everything; the backstop pass for availability alone. */
  datatype Pass = Proactive | Backstop

  predicate Admits(c: Config, pass: Pass, e: Cred, now: Time) {
    Available(e, now) && (pass == Proactive ==> UnderCaps(c, e))
  }

  // ----- strategies -----

  /** The earliest admitted credential from offset `from` on. */
  function FirstAdmitted(c: Config, pass: Pass, creds: seq<Cred>, now: Time, from: nat): Option<nat>
    requires from <= |creds|
    decreases |creds| - from
  {
    if from == |creds| then None
    else if Admits(c, pass, creds[from], now) then Some(from)
    else FirstAdmitted(c, pass, creds, now, from + 1)
  }

  /** The index `k` places on from `base` in a ring of `n`. */
  function Place(base: nat, k: nat, n: nat): (i: nat)
    requires n > 0
    ensures i < n
  {
    (base + k) % n
  }

  /** The first admitted credential in cyclic order from `base`, after `skipped` have been passed over. */
  function CyclicAdmitted(c: Config, pass: Pass, creds: seq<Cred>, now: Time, base: nat, skipped: nat): Option<nat>
    requires base < |creds| && skipped <= |creds|
    decreases |creds| - skipped
  {
    if skipped == |creds| then None
    else if Admits(c, pass, creds[Place(base, skipped, |creds|)], now) then Some(Place(base, skipped, |creds|))
    else CyclicAdmitted(c, pass, creds, now, base, skipped + 1)
  }

  /** The earliest of the least loaded admitted credentials among the first `n`. */
  function LeastAdmitted(c: Config, pass: Pass, creds: seq<Cred>, now: Time, n: nat): (r: Option<nat>)
    requires n <= |creds|
    ensures r.Some? ==> r.value < n
  {
    if n == 0 then None
    else
      var best := LeastAdmitted(c, pass, creds, now, n - 1);
      if !Admits(c, pass, creds[n - 1], now) then best
      else if best.None? || creds[n - 1].inFlight < creds[best.value].inFlight then Some(n - 1)
      else best
  }

  function Base(c: Config, n: nat, counter: nat): nat
    requires n > 0 && c.batch > 0
  {
    counter / c.batch % n
  }

  function Pick(c: Config, pass: Pass, creds: seq<Cred>, now: Time, counter: nat): Option<nat>
    requires ValidConfig(c)
  {
    match c.strategy
    case LeastRequests => LeastAdmitted(c, pass, creds, now, |creds|)
    case Fallback => FirstAdmitted(c, pass, creds, now, 0)
    case RoundRobin =>
      if creds == [] then None else CyclicAdmitted(c, pass, creds, now, Base(c, |creds|, counter), 0)
  }

  /** Every round-robin pick over a non-empty pool moves the counter on, whatever it finds. */
  function CounterAfter(c: Config, creds: seq<Cred>, counter: nat): nat {
    if c.strategy == RoundRobin && creds != [] then (counter + 1) % UINT64 else counter
  }

  // ----- sticky bindings -----

  const PRUNE_THRESHOLD := 4096

  predicate Expired<T>(b: Binding<T>, now: Time, ttl: int) {
    now - b.lastSeen > ttl
  }

  function Forget<T>(a: map<string, Binding<T>>, key: string, now: Time, ttl: int): map<string, Binding<T>> {
    if key in a && Expired(a[key], now, ttl) then a - {key} else a
  }

  function Bind<T>(a: map<string, Binding<T>>, key: string, id: T, now: Time, ttl: int): map<string, Binding<T>> {
    var b := a[key := Binding(id, now)];
    if |b| > PRUNE_THRESHOLD then map k | k in b && !Expired(b[k], now, ttl) :: b[k] else b
  }

  /** First credential of that id. */
  function FindByID(creds: seq<Cred>, id: string): (r: Option<nat>)
    ensures r.Some? ==> r.value < |creds| && creds[r.value].id == id
    ensures r.Some? ==> forall j :: 0 <= j < r.value ==> creds[j].id != id
    ensures r.None? ==> forall j :: 0 <= j < |creds| ==> creds[j].id != id
  {
    if creds == [] then None
    else if creds[0].id == id then Some(0)
    else
      var r := FindByID(creds[1..], id);
      if r.Some? then Some(r.value + 1) else
        assert forall j :: 1 <= j < |creds| ==> creds[j] == creds[1..][j - 1];
        None
  }

  /** The bound credential, if the session has a live binding to one that is still eligible. */
  function StickyChoice(c: Config, creds: seq<Cred>, a: map<string, Binding<string>>, key: string, now: Time): Option<nat> {
    if c.stickyTTL.None? || key == "" || key !in a || Expired(a[key], now, c.stickyTTL.value) then None
    else
      var r := FindByID(creds, a[key].id);
      if r.Some? && Admits(c, Proactive, creds[r.value], now) then r else None
  }

  // ----- the steps -----

  datatype Selected = Selected(index: Option<nat>, backstop: bool, counter: nat)

  /** Sticky choice, then the proactive pass, then the backstop pass. */
  function Choose(c: Config, creds: seq<Cred>, counter: nat, a: map<string, Binding<string>>, key: string, now: Time): Selected
    requires ValidConfig(c)
  {
    var sticky := StickyChoice(c, creds, a, key, now);
    if sticky.Some? then Selected(sticky, false, counter)
    else
      var first := Pick(c, Proactive, creds, now, counter);
      var counter1 := CounterAfter(c, creds, counter);
      if first.Some? || !(c.rateLimit > 0 || c.tpmLimit > 0) then Selected(first, false, counter1)
      else Selected(Pick(c, Backstop, creds, now, counter1), true, CounterAfter(c, creds, counter1))
  }

  function Acquire(c: Config, e: Cred, now: Time): Cred {
    e.(inFlight := e.inFlight + 1,
       recentRequests := if c.rateLimit > 0 then e.recentRequests + [now] else e.recentRequests)
  }

  function SelectStep(c: Config, p: Pool, now: Time, key: string): (r: (Pool, Selected))
    requires ValidConfig(c)
  {
    var creds := RefreshAll(c, p.creds, now);
    var s := Choose(c, creds, p.counter, p.affinity, key, now);
    var looked := if c.stickyTTL.Some? && key != "" then Forget(p.affinity, key, now, c.stickyTTL.value) else p.affinity;
    if s.index.Some? && s.index.value < |creds| then
      var i := s.index.value;
      var bound := if c.stickyTTL.Some? && key != "" then Bind(looked, key, creds[i].id, now, c.stickyTTL.value) else looked;
      (Pool(creds[i := Acquire(c, creds[i], now)], s.counter, bound), s)
    else (Pool(creds, s.counter, looked), s)
  }

  function Trip(c: Config, e: Cred, now: Time): Cred {
    if e.failures >= c.threshold then e.(health := CoolingDown, coolEnd := now + c.cooldown) else e
  }

  /** The second mutex section of Select, after the credential source failed. */
  function SourceFailed(c: Config, e: Cred, now: Time): Cred {
    Trip(c, e.(inFlight := e.inFlight - 1, failures := e.failures + 1), now)
  }

  datatype Outcome =
    | Success
    | RateLimit(retryAfter: int)
    | Overload(retryAfter: int)
    | Deadline
    | Failure

  function Backoff(c: Config, failures: nat): int
    requires |c.tiers| > 0
  {
    if failures >= |c.tiers| then c.tiers[|c.tiers| - 1] else c.tiers[failures]
  }

  function Park(e: Cred, now: Time, cooldown: int): Cred {
    if e.health == Healthy then e.(health := RateLimited, coolEnd := now + cooldown) else e
  }

  function ReleaseCred(c: Config, e: Cred, outcome: Outcome, now: Time): Cred
    requires |c.tiers| > 0
  {
    var e1 := if e.inFlight > 0 then e.(inFlight := e.inFlight - 1) else e;
    match outcome
    case Deadline => e1
    case RateLimit(after) =>
      var cooldown := if after > 0 then after else Backoff(c, e1.rateLimitFailures);
      Park(e1.(rateLimitFailures := e1.rateLimitFailures + 1), now, cooldown)
    case Overload(after) => Park(e1, now, if after > 0 then after else 5 * SECOND)
    case Failure => Trip(c, e1.(failures := e1.failures + 1), now)
    case Success => e1.(failures := 0, rateLimitFailures := 0)
  }

  /** The probe lifts a rate limit and takes the credential. */
  function Lift(e: Cred): Cred {
    if e.health == RateLimited then e.(health := Healthy, inFlight := e.inFlight + 1) else e
  }

  function LiftAll(creds: seq<Cred>): (r: seq<Cred>)
    ensures |r| == |creds|
  {
    seq(|creds|, i requires 0 <= i < |creds| => Lift(creds[i]))
  }

  /** The probe's source failed: the credential is marked rate-limited again, whatever happened meanwhile. */
  function ProbeFailed(e: Cred): Cred {
    e.(health := RateLimited, inFlight := e.inFlight - 1)
  }

  function Record(c: Config, creds: seq<Cred>, id: string, tokens: int, now: Time): seq<Cred> {
    var r := FindByID(creds, id);
    if tokens <= 0 || c.tpmLimit == 0 || r.None? then creds
    else creds[r.value := creds[r.value].(recentTokens := creds[r.value].recentTokens + [TokenSample(now, tokens)])]
  }
}
