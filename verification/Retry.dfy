/** The retry loops between a selector and its upstreams. */
module Retry {
  import opened Options
  import opened PoolModel

  const MAX_RETRIES := 10

  datatype Plan = Plan(id: string, protocol: string, passthrough: bool, force: bool)

  datatype Mode = Translated | Raw

  function DispatchFor(plan: Plan, clientProtocol: string): Mode {
    if (plan.force || (clientProtocol != "" && clientProtocol == plan.protocol)) && plan.passthrough then Raw
    else Translated
  }

  /** What parsing a response body yields: the body may itself report an upstream's status. */
  datatype Parsed = Response(input: int, output: int) | Relayed(status: int, msg: string) | Unreadable(msg: string)

  /** What becomes of one attempt. `retryDelay` is what the body of a 429 asks for, or zero. */
  datatype Reply =
    | Unbuildable(msg: string)
    | Unreached(msg: string, budgetSpent: bool)
    | Answered(status: int, body: string, retryDelay: int, parsed: Parsed)

  /** What the selector offers on one turn of the loop, and the reply to it. */
  datatype Turn = NoneLeft | Offered(plan: Plan, reply: Reply)

  datatype Attempt = Attempt(id: string, status: int, msg: string, body: Option<string>)

  datatype Exit =
    | Replied(mode: Mode, reply: Reply)
    | Streaming(handle: nat)
    | Rejected(msg: string)
    | AllKeysFailed(status: int, body: Option<string>, attempts: seq<Attempt>)

  function KeysFailed(attempts: seq<Attempt>, invisible: bool): Exit {
    if invisible && attempts != []
    then AllKeysFailed(attempts[|attempts| - 1].status, attempts[|attempts| - 1].body, attempts)
    else AllKeysFailed(503, None, attempts)
  }

  /** The selector as its caller sees it: plans handed out, and plans given back with their outcome. */
  class Ledger {
    var taken: seq<Plan>
    var returned: seq<(nat, Outcome)>

    constructor ()
      ensures taken == [] && returned == []
    {
      taken, returned := [], [];
    }

    /** The handles given back are handles handed out, each at most once. */
    ghost predicate Valid()
      reads this
    {
      && (forall k :: 0 <= k < |returned| ==> returned[k].0 < |taken|)
      && (forall j, k :: 0 <= j < k < |returned| ==> returned[j].0 != returned[k].0)
    }

    ghost predicate Outstanding(h: nat)
      reads this
    {
      h < |taken| && NotReturned(returned, h)
    }

    method Take(plan: Plan) returns (h: nat)
      requires Valid()
      modifies `taken
      ensures Valid() && h == |old(taken)| && taken == old(taken) + [plan] && Outstanding(h)
    {
      h := |taken|;
      taken := taken + [plan];
    }

    method Release(h: nat, outcome: Outcome)
      requires Valid() && Outstanding(h)
      modifies `returned
      ensures Valid() && returned == old(returned) + [(h, outcome)] && !Outstanding(h)
    {
      returned := returned + [(h, outcome)];
      assert returned[|returned| - 1].0 == h;
    }
  }

  ghost predicate NotReturned(returned: seq<(nat, Outcome)>, h: nat) {
    forall k :: 0 <= k < |returned| ==> returned[k].0 != h
  }

  /** When the k-th return is the k-th plan's, the plans beyond the returns are the ones still out. */
  lemma OutBeyondReturns(returned: seq<(nat, Outcome)>, h: nat)
    requires forall k :: 0 <= k < |returned| ==> returned[k].0 == k
    ensures NotReturned(returned, h) <==> h >= |returned|
  {
    if h < |returned| {
      assert returned[h].0 == h;
    }
  }

  // ----- what one reply is worth -----

  /** How an attempt ends: the loop goes on to the next key, gives up, or leaves with an answer. */
  datatype Verdict =
    | Again(attempt: Attempt)
    | GiveUp(attempt: Attempt)
    | Leave(exit: Exit)

  datatype Judgement = Judgement(outcome: Outcome, verdict: Verdict)

  function Judge(plan: Plan, mode: Mode, reply: Reply): Judgement {
    match reply
    case Unbuildable(msg) => Judgement(Success, Leave(Rejected(msg)))
    case Unreached(msg, true) => Judgement(Deadline, GiveUp(Attempt(plan.id, 504, msg, None)))
    case Unreached(msg, false) => Judgement(Failure, Again(Attempt(plan.id, 502, msg, None)))
    case Answered(status, body, delay, parsed) =>
      if status == 429 then Judgement(RateLimit(delay), Again(Attempt(plan.id, 429, body, Some(body))))
      else if status >= 500 then Judgement(Overload(0), Again(Attempt(plan.id, status, body, Some(body))))
      else if mode == Raw then
        if 200 <= status < 300 then Judgement(Success, Leave(Replied(Raw, reply)))
        else Judgement(Success, Again(Attempt(plan.id, status, body, Some(body))))
      else match parsed
        case Response(_, _) => Judgement(Success, Leave(Replied(Translated, reply)))
        case Unreadable(msg) => Judgement(Failure, Again(Attempt(plan.id, 502, msg, None)))
        case Relayed(inner, msg) =>
          Judgement(if inner == 429 then RateLimit(0) else if inner >= 500 then Overload(0) else Success,
                    Again(Attempt(plan.id, inner, msg, None)))
  }

  /** In the streaming loop a reply below 400 is kept open and its plan not judged yet. */
  predicate Opens(reply: Reply) {
    reply.Answered? && reply.status < 400
  }

  function JudgeStream(plan: Plan, reply: Reply): Judgement
    requires !Opens(reply)
  {
    match reply
    case Unbuildable(msg) => Judgement(Success, Leave(Rejected(msg)))
    case Unreached(msg, true) => Judgement(Deadline, GiveUp(Attempt(plan.id, 504, msg, None)))
    case Unreached(msg, false) => Judgement(Failure, Again(Attempt(plan.id, 502, msg, None)))
    case Answered(status, body, delay, _) =>
      Judgement(if status == 429 then RateLimit(delay) else if status >= 500 then Overload(0) else Success,
                Again(Attempt(plan.id, status, body, Some(body))))
  }

  // ----- the loops -----

  /** The two loops differ in what they wait for. */
  datatype Kind = Whole | Stream

  function JudgeAs(kind: Kind, client: string, plan: Plan, reply: Reply): Judgement
    requires kind == Stream ==> !Opens(reply)
  {
    if kind == Stream then JudgeStream(plan, reply) else Judge(plan, DispatchFor(plan, client), reply)
  }

  /** What a loop has to show: plans taken, plans given back, attempts listed. */
  datatype Books = Books(taken: seq<Plan>, returned: seq<(nat, Outcome)>, attempts: seq<Attempt>)

  /** Turn `k` offered a plan, and it came back as the k-th with the outcome its reply deserves. */
  predicate Settled(turn: Turn, kind: Kind, client: string, b: Books, k: nat) {
    && k < |b.taken| && k < |b.returned|
    && turn.Offered? && b.taken[k] == turn.plan
    && (kind == Stream ==> !Opens(turn.reply))
    && b.returned[k] == (k, JudgeAs(kind, client, turn.plan, turn.reply).outcome)
  }

  function VerdictOf(turn: Turn, kind: Kind, client: string): Verdict
    requires turn.Offered? && (kind == Stream ==> !Opens(turn.reply))
  {
    JudgeAs(kind, client, turn.plan, turn.reply).verdict
  }

  /** Turn `k` is settled, listed under its plan's id, and sent the loop on to another key. */
  predicate WentOn(turn: Turn, kind: Kind, client: string, b: Books, k: nat) {
    && Settled(turn, kind, client, b, k) && k < |b.attempts|
    && VerdictOf(turn, kind, client) == Again(b.attempts[k]) && b.attempts[k].id == b.taken[k].id
  }

  /** The loop went on after each of its first `n` turns. */
  predicate AllWentOn(turns: seq<Turn>, kind: Kind, client: string, b: Books, n: nat) {
    n <= |turns| && forall k :: 0 <= k < n ==> WentOn(turns[k], kind, client, b, k)
  }

  predicate Even(b: Books, taken: nat, returned: nat, attempts: nat) {
    |b.taken| == taken && |b.returned| == returned && |b.attempts| == attempts
  }

  /**
   * All keys failed after `n` plans, each given back, each listed: the turns or the keys ran out, or
   * the last attempt made the loop give up.
   */
  predicate FailedAfter(turns: seq<Turn>, kind: Kind, client: string, b: Books, n: nat) {
    && n <= |turns| && Even(b, n, n, n)
    && ((AllWentOn(turns, kind, client, b, n) && (n == |turns| || turns[n].NoneLeft?)) || GaveUpAfter(turns, kind, client, b, n))
  }

  predicate GaveUpAfter(turns: seq<Turn>, kind: Kind, client: string, b: Books, n: nat) {
    && 0 < n <= |turns| && Even(b, n, n, n)
    && AllWentOn(turns, kind, client, b, n - 1) && Settled(turns[n - 1], kind, client, b, n - 1)
    && VerdictOf(turns[n - 1], kind, client) == GiveUp(b.attempts[n - 1])
    && b.attempts[n - 1].id == b.taken[n - 1].id
  }

  /** The n-th plan brought the answer, and was given back as a success. */
  predicate LeftAfter(turns: seq<Turn>, kind: Kind, client: string, b: Books, n: nat, exit: Exit) {
    && 0 < n <= |turns| && Even(b, n, n, n - 1)
    && AllWentOn(turns, kind, client, b, n - 1) && Settled(turns[n - 1], kind, client, b, n - 1)
    && VerdictOf(turns[n - 1], kind, client) == Leave(exit)
  }

  /** The n-th plan opened the stream, and is still out. */
  predicate OpenedAfter(turns: seq<Turn>, client: string, b: Books, n: nat, exit: Exit) {
    && 0 < n <= |turns| && Even(b, n, n - 1, n - 1)
    && AllWentOn(turns, Stream, client, b, n - 1)
    && turns[n - 1].Offered? && b.taken[n - 1] == turns[n - 1].plan && Opens(turns[n - 1].reply)
    && exit == Streaming(n - 1)
  }

  /** Books only grow: what was settled stays so. */
  lemma BooksGrow(turns: seq<Turn>, kind: Kind, client: string, b: Books, n: nat,
                  plans: seq<Plan>, given: seq<(nat, Outcome)>, attempts: seq<Attempt>)
    requires AllWentOn(turns, kind, client, b, n)
    ensures AllWentOn(turns, kind, client,
                      Books(b.taken + plans, b.returned + given, b.attempts + attempts), n)
  {
    var c := Books(b.taken + plans, b.returned + given, b.attempts + attempts);
    forall k | 0 <= k < n ensures WentOn(turns[k], kind, client, c, k) {
      assert WentOn(turns[k], kind, client, b, k);
    }
  }

  /** One more turn, judged: the books after it. */
  lemma TurnJudged(turns: seq<Turn>, kind: Kind, client: string, b: Books, n: nat, outcome: Outcome, verdict: Verdict)
    requires n < |turns| && Even(b, n, n, n) && AllWentOn(turns, kind, client, b, n)
    requires turns[n].Offered? && (kind == Stream ==> !Opens(turns[n].reply))
    requires JudgeAs(kind, client, turns[n].plan, turns[n].reply) == Judgement(outcome, verdict)
    ensures var taken, returned := b.taken + [turns[n].plan], b.returned + [(n, outcome)];
            match verdict
            case Again(a) => AllWentOn(turns, kind, client, Books(taken, returned, b.attempts + [a]), n + 1)
            case GiveUp(a) => FailedAfter(turns, kind, client, Books(taken, returned, b.attempts + [a]), n + 1)
            case Leave(exit) => LeftAfter(turns, kind, client, Books(taken, returned, b.attempts), n + 1, exit)
  {
    var a := if verdict.Leave? then [] else [verdict.attempt];
    BooksGrow(turns, kind, client, b, n, [turns[n].plan], [(n, outcome)], a);
    assert b.attempts + [] == b.attempts;
    var c := Books(b.taken + [turns[n].plan], b.returned + [(n, outcome)], b.attempts + a);
    assert Settled(turns[n], kind, client, c, n);
    assert verdict.Again? ==> WentOn(turns[n], kind, client, c, n);
  }

  /** After either loop the plans still out are the open stream's alone. */
  lemma AllBack(turns: seq<Turn>, kind: Kind, client: string, b: Books, n: nat, exit: Exit)
    requires || (exit.AllKeysFailed? && FailedAfter(turns, kind, client, b, n))
             || (!exit.AllKeysFailed? && !exit.Streaming? && LeftAfter(turns, kind, client, b, n, exit))
             || (kind == Stream && OpenedAfter(turns, client, b, n, exit))
    ensures |b.taken| == n <= |turns|
    ensures forall h: nat :: h < |b.taken| && NotReturned(b.returned, h) <==> exit == Streaming(h)
  {
    forall k | 0 <= k < |b.returned| ensures b.returned[k].0 == k {
      assert k < n - 1 ==> AllWentOn(turns, kind, client, b, n - 1) || AllWentOn(turns, kind, client, b, n);
      assert WentOn(turns[k], kind, client, b, k) || Settled(turns[k], kind, client, b, k);
    }
    forall h: nat ensures h < |b.taken| && NotReturned(b.returned, h) <==> exit == Streaming(h) {
      OutBeyondReturns(b.returned, h);
    }
  }

  // ----- how a loop ends, by the replies alone -----

  /** Bytes go through untouched. */
  predicate PassesThrough(client: string, plan: Plan) {
    plan.passthrough && (plan.force || (client != "" && client == plan.protocol))
  }

  /** The turn brings what the loop is after: an open stream; a 2xx answer passed through; or a readable response. */
  predicate Good(kind: Kind, client: string, turn: Turn) {
    && turn.Offered? && turn.reply.Answered?
    && if kind == Stream then turn.reply.status < 400
       else if PassesThrough(client, turn.plan) then 200 <= turn.reply.status < 300
       else turn.reply.status < 500 && turn.reply.status != 429 && turn.reply.parsed.Response?
  }

  /** The turn ends the loop without one: no key left, a request that cannot be built, or the budget spent. */
  predicate Hopeless(turn: Turn) {
    turn.NoneLeft? || turn.reply.Unbuildable? || (turn.reply.Unreached? && turn.reply.budgetSpent)
  }

  /** The loop goes on after each of the first `n` turns. */
  predicate GoesOnUntil(kind: Kind, client: string, turns: seq<Turn>, n: nat) {
    n <= |turns| && forall k :: 0 <= k < n ==> !Good(kind, client, turns[k]) && !Hopeless(turns[k])
  }

  /** What is listed of a failed attempt: the status and body of the answer, or those its body reports. */
  function Listed(kind: Kind, client: string, turn: Turn): Attempt
    requires turn.Offered?
  {
    var id := turn.plan.id;
    match turn.reply
    case Unbuildable(msg) => Attempt(id, 400, msg, None)
    case Unreached(msg, budgetSpent) => Attempt(id, if budgetSpent then 504 else 502, msg, None)
    case Answered(status, body, _, parsed) =>
      if kind == Stream || PassesThrough(client, turn.plan) || status == 429 || status >= 500
      then Attempt(id, status, body, Some(body))
      else match parsed
        case Relayed(inner, msg) => Attempt(id, inner, msg, None)
        case Unreadable(msg) => Attempt(id, 502, msg, None)
        case Response(_, _) => Attempt(id, status, body, None)
  }

  /** What the key is blamed for: a 429 or 5xx, answered or reported in a translated body; no answer, or none that
      can be read; else nothing. */
  function Blame(kind: Kind, client: string, turn: Turn): Outcome
    requires turn.Offered?
  {
    match turn.reply
    case Unbuildable(_) => Success
    case Unreached(_, budgetSpent) => if budgetSpent then Deadline else Failure
    case Answered(status, _, delay, parsed) =>
      if status == 429 then RateLimit(delay)
      else if status >= 500 then Overload(0)
      else if kind == Stream || PassesThrough(client, turn.plan) || parsed.Response? then Success
      else if parsed.Unreadable? then Failure
      else if parsed.status == 429 then RateLimit(0)
      else if parsed.status >= 500 then Overload(0)
      else Success
  }

  /** The first `n` plans were taken, those of the first `back` turns given back with their blame, and the first
      `listed` attempts listed. */
  ghost predicate Booked(kind: Kind, client: string, turns: seq<Turn>, b: Books, n: nat, back: nat, listed: nat) {
    && n <= |turns| && Even(b, n, back, listed) && back <= n && listed <= n
    && (forall k :: 0 <= k < n ==> turns[k].Offered? && b.taken[k] == turns[k].plan)
    && (forall k :: 0 <= k < back ==> b.returned[k] == (k, Blame(kind, client, turns[k])))
    && (forall k :: 0 <= k < listed ==> b.attempts[k] == Listed(kind, client, turns[k]))
  }

  /** All keys failed, with the last attempt's status and body if the client is to see through, else with 503. */
  ghost predicate FailsWith(invisible: bool, exit: Exit, attempts: seq<Attempt>) {
    && exit.AllKeysFailed? && exit.attempts == attempts
    && if invisible && attempts != []
       then exit.status == attempts[|attempts| - 1].status && exit.body == attempts[|attempts| - 1].body
       else exit.status == 503 && exit.body == None
  }

  /** The loop stopped at turn `m`, the first that is good or hopeless, or ran out of turns. */
  ghost predicate StoppedAt(kind: Kind, client: string, invisible: bool, turns: seq<Turn>, b: Books, n: nat, exit: Exit, m: nat) {
    && GoesOnUntil(kind, client, turns, m)
    && if m < |turns| && Good(kind, client, turns[m]) then
         && n == m + 1
         && Booked(kind, client, turns, b, n, if kind == Stream then m else n, m)
         && exit == (if kind == Stream then Streaming(m)
                     else Replied(if PassesThrough(client, turns[m].plan) then Raw else Translated, turns[m].reply))
       else if m < |turns| && turns[m].Offered? && turns[m].reply.Unbuildable? then
         n == m + 1 && Booked(kind, client, turns, b, n, n, m) && exit == Rejected(turns[m].reply.msg)
       else
         && n == (if m < |turns| && turns[m].Offered? then m + 1 else m)
         && (m < |turns| ==> Hopeless(turns[m]))
         && Booked(kind, client, turns, b, n, n, n) && FailsWith(invisible, exit, b.attempts)
  }

  /** How the loop must end, given the turns. */
  ghost predicate EndsAsTold(kind: Kind, client: string, invisible: bool, turns: seq<Turn>, b: Books, n: nat, exit: Exit) {
    exists m :: StoppedAt(kind, client, invisible, turns, b, n, exit, m)
  }

  /** An answer is returned exactly when some turn brings one before any ends the loop. */
  ghost predicate AnswersWhenTold(kind: Kind, client: string, turns: seq<Turn>, exit: Exit) {
    exit.Replied? || exit.Streaming? <==>
      exists m :: 0 <= m < |turns| && GoesOnUntil(kind, client, turns, m) && Good(kind, client, turns[m])
  }

  /** What a judgement says, told by the reply. */
  lemma JudgeTold(kind: Kind, client: string, turn: Turn)
    requires turn.Offered? && (kind == Stream ==> !Opens(turn.reply))
    ensures var j := JudgeAs(kind, client, turn.plan, turn.reply);
            && j.outcome == Blame(kind, client, turn)
            && (j.verdict.Again? <==> !Good(kind, client, turn) && !Hopeless(turn))
            && (j.verdict.Again? || j.verdict.GiveUp? ==> j.verdict.attempt == Listed(kind, client, turn))
            && (j.verdict.GiveUp? <==> turn.reply.Unreached? && turn.reply.budgetSpent)
            && (j.verdict.Leave? ==>
                  j.verdict.exit == if turn.reply.Unbuildable? then Rejected(turn.reply.msg)
                                    else Replied(if PassesThrough(client, turn.plan) then Raw else Translated, turn.reply))
  {
  }

  lemma OpensTold(client: string, turn: Turn)
    requires turn.Offered?
    ensures Opens(turn.reply) <==> Good(Stream, client, turn)
  {
  }

  ghost predicate ToldAt(kind: Kind, client: string, turn: Turn, b: Books, k: nat) {
    && k < |b.taken| && k < |b.returned| && k < |b.attempts|
    && turn.Offered? && b.taken[k] == turn.plan
    && b.returned[k] == (k, Blame(kind, client, turn)) && b.attempts[k] == Listed(kind, client, turn)
  }

  lemma WentOnTold(turns: seq<Turn>, kind: Kind, client: string, b: Books, n: nat)
    requires AllWentOn(turns, kind, client, b, n)
    ensures GoesOnUntil(kind, client, turns, n)
    ensures forall k :: 0 <= k < n ==> ToldAt(kind, client, turns[k], b, k)
  {
    forall k | 0 <= k < n
      ensures !Good(kind, client, turns[k]) && !Hopeless(turns[k]) && ToldAt(kind, client, turns[k], b, k)
    {
      assert WentOn(turns[k], kind, client, b, k);
      JudgeTold(kind, client, turns[k]);
    }
  }

  lemma FailedTold(turns: seq<Turn>, kind: Kind, client: string, invisible: bool, b: Books, n: nat, exit: Exit)
    requires FailedAfter(turns, kind, client, b, n) && exit == KeysFailed(b.attempts, invisible)
    ensures EndsAsTold(kind, client, invisible, turns, b, n, exit)
  {
    if AllWentOn(turns, kind, client, b, n) && (n == |turns| || turns[n].NoneLeft?) {
      WentOnTold(turns, kind, client, b, n);
      assert StoppedAt(kind, client, invisible, turns, b, n, exit, n);
    } else {
      WentOnTold(turns, kind, client, b, n - 1);
      JudgeTold(kind, client, turns[n - 1]);
      assert StoppedAt(kind, client, invisible, turns, b, n, exit, n - 1);
    }
  }

  lemma LeftTold(turns: seq<Turn>, kind: Kind, client: string, invisible: bool, b: Books, n: nat, exit: Exit)
    requires LeftAfter(turns, kind, client, b, n, exit)
    ensures EndsAsTold(kind, client, invisible, turns, b, n, exit) && !exit.AllKeysFailed? && !exit.Streaming?
  {
    WentOnTold(turns, kind, client, b, n - 1);
    JudgeTold(kind, client, turns[n - 1]);
    assert StoppedAt(kind, client, invisible, turns, b, n, exit, n - 1);
  }

  lemma OpenedTold(turns: seq<Turn>, client: string, invisible: bool, b: Books, n: nat, exit: Exit)
    requires OpenedAfter(turns, client, b, n, exit)
    ensures EndsAsTold(Stream, client, invisible, turns, b, n, exit)
  {
    WentOnTold(turns, Stream, client, b, n - 1);
    OpensTold(client, turns[n - 1]);
    assert StoppedAt(Stream, client, invisible, turns, b, n, exit, n - 1);
  }

  lemma ToldAnswers(kind: Kind, client: string, invisible: bool, turns: seq<Turn>, b: Books, n: nat, exit: Exit)
    requires EndsAsTold(kind, client, invisible, turns, b, n, exit)
    ensures AnswersWhenTold(kind, client, turns, exit)
  {
    var m :| StoppedAt(kind, client, invisible, turns, b, n, exit, m);
    forall k | 0 <= k < |turns| && GoesOnUntil(kind, client, turns, k) && Good(kind, client, turns[k])
      ensures k == m
    {
    }
  }

  class UpstreamExecutor {
    const clientProtocol: string
    const invisible: bool

    constructor (clientProtocol: string, invisible: bool) {
      this.clientProtocol := clientProtocol;
      this.invisible := invisible;
    }

    /**
     * However the turns come out, the loop returns with nothing outstanding: each of its at most ten
     * plans was given back exactly once, in order, with the outcome its reply deserves. When all keys
     * failed there is one attempt to show for each plan, in order.
     */
    method ExecuteNonStream(sel: Ledger, turns: seq<Turn>) returns (exit: Exit, n: nat)
      requires sel.Valid() && sel.taken == [] && sel.returned == [] && |turns| == MAX_RETRIES
      modifies sel
      ensures sel.Valid() && n <= 10 && |sel.taken| == n
      ensures forall h: nat :: !sel.Outstanding(h)
      ensures exists listed ::
                EndsAsTold(Whole, clientProtocol, invisible, turns, Books(sel.taken, sel.returned, listed), n, exit)
      ensures AnswersWhenTold(Whole, clientProtocol, turns, exit)
    {
      ghost var attempts;
      exit, n, attempts := RetryLoop(sel, turns);
      ghost var b := Books(sel.taken, sel.returned, attempts);
      if exit.AllKeysFailed? {
        FailedTold(turns, Whole, clientProtocol, invisible, b, n, exit);
      } else {
        LeftTold(turns, Whole, clientProtocol, invisible, b, n, exit);
      }
      ToldAnswers(Whole, clientProtocol, invisible, turns, b, n, exit);
      AllBack(turns, Whole, clientProtocol, Books(sel.taken, sel.returned, attempts), n, exit);
    }

    method RetryLoop(sel: Ledger, turns: seq<Turn>) returns (exit: Exit, n: nat, ghost listed: seq<Attempt>)
      requires sel.Valid() && sel.taken == [] && sel.returned == [] && |turns| == MAX_RETRIES
      modifies sel
      ensures sel.Valid()
      ensures var b := Books(sel.taken, sel.returned, listed);
              if exit.AllKeysFailed? then FailedAfter(turns, Whole, clientProtocol, b, n) && exit == KeysFailed(listed, invisible)
              else LeftAfter(turns, Whole, clientProtocol, b, n, exit)
    {
      var attempts: seq<Attempt> := [];
      n := 0;
      while n < MAX_RETRIES
        invariant 0 <= n <= MAX_RETRIES && sel.Valid()
        invariant Even(Books(sel.taken, sel.returned, attempts), n, n, n)
        invariant AllWentOn(turns, Whole, clientProtocol, Books(sel.taken, sel.returned, attempts), n)
      {
        if turns[n].NoneLeft? {
          return KeysFailed(attempts, invisible), n, attempts;
        }
        ghost var b := Books(sel.taken, sel.returned, attempts);
        var plan := turns[n].plan;
        var h := sel.Take(plan);
        var verdict, outcome := TryKey(sel, h, plan, turns[n].reply);
        TurnJudged(turns, Whole, clientProtocol, b, n, outcome, verdict);
        n := n + 1;
        match verdict {
          case Again(attempt) => attempts := attempts + [attempt];
          case GiveUp(attempt) =>
            attempts := attempts + [attempt];
            return KeysFailed(attempts, invisible), n, attempts;
          case Leave(reached) => return reached, n, attempts;
        }
      }
      return KeysFailed(attempts, invisible), n, attempts;
    }

    /** One attempt with one key: the plan is given back before anything else happens. */
    method TryKey(sel: Ledger, h: nat, plan: Plan, reply: Reply) returns (verdict: Verdict, ghost outcome: Outcome)
      requires sel.Valid() && sel.Outstanding(h)
      modifies sel`returned
      ensures sel.Valid() && sel.returned == old(sel.returned) + [(h, outcome)]
      ensures JudgeAs(Whole, clientProtocol, plan, reply) == Judgement(outcome, verdict)
    {
      outcome := JudgeAs(Whole, clientProtocol, plan, reply).outcome;
      var mode := DispatchFor(plan, clientProtocol);
      match reply {
        case Unbuildable(msg) =>
          sel.Release(h, Success);
          verdict := Leave(Rejected(msg));
          return;
        case Unreached(msg, budgetSpent) =>
          if budgetSpent {
            sel.Release(h, Deadline);
            verdict := GiveUp(Attempt(plan.id, 504, msg, None));
            return;
          }
          sel.Release(h, Failure);
          verdict := Again(Attempt(plan.id, 502, msg, None));
          return;
        case Answered(status, body, retryDelay, parsed) =>
          if status == 429 || status >= 500 {
            sel.Release(h, if status == 429 then RateLimit(retryDelay) else Overload(0));
            verdict := Again(Attempt(plan.id, status, body, Some(body)));
            return;
          }
          if mode == Raw {
            sel.Release(h, Success);
            if 200 <= status < 300 {
              verdict := Leave(Replied(Raw, reply));
              return;
            }
            verdict := Again(Attempt(plan.id, status, body, Some(body)));
            return;
          }
          verdict := Digest(sel, h, plan, reply);
      }
    }

    /** The translated response's part of an attempt; a body that reports a failure is treated as one. */
    method Digest(sel: Ledger, h: nat, plan: Plan, reply: Reply) returns (verdict: Verdict)
      requires sel.Valid() && sel.Outstanding(h)
      requires reply.Answered? && reply.status != 429 && reply.status < 500
      modifies sel`returned
      ensures sel.Valid()
      ensures var j := Judge(plan, Translated, reply);
              sel.returned == old(sel.returned) + [(h, j.outcome)] && verdict == j.verdict
    {
      match reply.parsed {
        case Response(_, _) =>
          sel.Release(h, Success);
          return Leave(Replied(Translated, reply));
        case Unreadable(msg) =>
          sel.Release(h, Failure);
          return Again(Attempt(plan.id, 502, msg, None));
        case Relayed(status, msg) =>
          if status == 429 {
            sel.Release(h, RateLimit(0));
          } else if status >= 500 {
            sel.Release(h, Overload(0));
          } else {
            sel.Release(h, Success);
          }
          return Again(Attempt(plan.id, status, msg, None));
      }
    }

    /**
     * The streaming loop returns a stream with exactly one plan outstanding, the stream's own, or
     * fails with none; every other plan was given back exactly once.
     */
    method ExecuteStream(sel: Ledger, turns: seq<Turn>) returns (exit: Exit, n: nat)
      requires sel.Valid() && sel.taken == [] && sel.returned == [] && |turns| == MAX_RETRIES
      modifies sel
      ensures sel.Valid() && n <= 10 && |sel.taken| == n
      ensures forall h: nat :: sel.Outstanding(h) <==> exit == Streaming(h)
      ensures exists listed ::
                EndsAsTold(Stream, clientProtocol, invisible, turns, Books(sel.taken, sel.returned, listed), n, exit)
      ensures AnswersWhenTold(Stream, clientProtocol, turns, exit)
    {
      ghost var attempts;
      exit, n, attempts := StreamRetryLoop(sel, turns);
      ghost var b := Books(sel.taken, sel.returned, attempts);
      if exit.AllKeysFailed? {
        FailedTold(turns, Stream, clientProtocol, invisible, b, n, exit);
      } else if exit.Streaming? {
        OpenedTold(turns, clientProtocol, invisible, b, n, exit);
      } else {
        LeftTold(turns, Stream, clientProtocol, invisible, b, n, exit);
      }
      ToldAnswers(Stream, clientProtocol, invisible, turns, b, n, exit);
      AllBack(turns, Stream, clientProtocol, Books(sel.taken, sel.returned, attempts), n, exit);
    }

    method StreamRetryLoop(sel: Ledger, turns: seq<Turn>) returns (exit: Exit, n: nat, ghost listed: seq<Attempt>)
      requires sel.Valid() && sel.taken == [] && sel.returned == [] && |turns| == MAX_RETRIES
      modifies sel
      ensures sel.Valid()
      ensures var b := Books(sel.taken, sel.returned, listed);
              if exit.AllKeysFailed? then FailedAfter(turns, Stream, clientProtocol, b, n) && exit == KeysFailed(listed, invisible)
              else if exit.Streaming? then OpenedAfter(turns, clientProtocol, b, n, exit)
              else LeftAfter(turns, Stream, clientProtocol, b, n, exit)
    {
      var attempts: seq<Attempt> := [];
      n := 0;
      while n < MAX_RETRIES
        invariant 0 <= n <= MAX_RETRIES && sel.Valid()
        invariant Even(Books(sel.taken, sel.returned, attempts), n, n, n)
        invariant AllWentOn(turns, Stream, clientProtocol, Books(sel.taken, sel.returned, attempts), n)
      {
        if turns[n].NoneLeft? {
          return KeysFailed(attempts, invisible), n, attempts;
        }
        ghost var b := Books(sel.taken, sel.returned, attempts);
        var plan, reply := turns[n].plan, turns[n].reply;
        var h := sel.Take(plan);
        if Opens(reply) {
          BooksGrow(turns, Stream, clientProtocol, b, n, [plan], [], []);
          assert b.returned + [] == b.returned && b.attempts + [] == b.attempts;
          return Streaming(h), n + 1, attempts;
        }
        var verdict, outcome := TryKeyStream(sel, h, plan, reply);
        TurnJudged(turns, Stream, clientProtocol, b, n, outcome, verdict);
        n := n + 1;
        match verdict {
          case Again(attempt) => attempts := attempts + [attempt];
          case GiveUp(attempt) =>
            attempts := attempts + [attempt];
            return KeysFailed(attempts, invisible), n, attempts;
          case Leave(reached) => return reached, n, attempts;
        }
      }
      return KeysFailed(attempts, invisible), n, attempts;
    }

    method TryKeyStream(sel: Ledger, h: nat, plan: Plan, reply: Reply) returns (verdict: Verdict, ghost outcome: Outcome)
      requires sel.Valid() && sel.Outstanding(h) && !Opens(reply)
      modifies sel`returned
      ensures sel.Valid() && sel.returned == old(sel.returned) + [(h, outcome)]
      ensures JudgeAs(Stream, clientProtocol, plan, reply) == Judgement(outcome, verdict)
    {
      outcome := JudgeAs(Stream, clientProtocol, plan, reply).outcome;
      match reply {
        case Unbuildable(msg) =>
          sel.Release(h, Success);
          verdict := Leave(Rejected(msg));
          return;
        case Unreached(msg, budgetSpent) =>
          if budgetSpent {
            sel.Release(h, Deadline);
            verdict := GiveUp(Attempt(plan.id, 504, msg, None));
            return;
          }
          sel.Release(h, Failure);
          verdict := Again(Attempt(plan.id, 502, msg, None));
          return;
        case Answered(status, body, retryDelay, _) =>
          if status == 429 {
            sel.Release(h, RateLimit(retryDelay));
          } else if status >= 500 {
            sel.Release(h, Overload(0));
          } else {
            sel.Release(h, Success);
          }
          verdict := Again(Attempt(plan.id, status, body, Some(body)));
          return;
      }
    }

    /** The stream's release callback: afterwards nothing is outstanding. */
    method FinishStream(sel: Ledger, h: nat, outcome: Outcome)
      requires sel.Valid() && sel.Outstanding(h) && forall g: nat :: sel.Outstanding(g) ==> g == h
      modifies sel`returned
      ensures sel.Valid() && sel.returned == old(sel.returned) + [(h, outcome)]
      ensures forall g: nat :: !sel.Outstanding(g)
    {
      sel.Release(h, outcome);
      assert forall g: nat :: sel.Outstanding(g) ==> old(sel.Outstanding(g)) by {
        assert forall k :: 0 <= k < |old(sel.returned)| ==> sel.returned[k] == old(sel.returned)[k];
      }
    }
  }

  // ----- what the outcomes do to a key -----

  /** A 429 reaches the key's escalation, wherever it was reported, and nothing else does. */
  lemma RateLimitedIff429(plan: Plan, client: string, reply: Reply)
    ensures Judge(plan, DispatchFor(plan, client), reply).outcome.RateLimit?
            <==> && reply.Answered?
                 && (|| reply.status == 429
                     || (reply.status < 500 && DispatchFor(plan, client) == Translated
                         && reply.parsed.Relayed? && reply.parsed.status == 429))
  {
  }

  predicate Cleared(e: Cred) {
    e.failures == 0 && e.rateLimitFailures == 0
  }

  /** Only a success clears a key that has anything against it. */
  lemma ClearedBySuccess(c: Config, e: Cred, outcome: Outcome, now: Time)
    requires ValidConfig(c) && e.failures >= 0 && !Cleared(e)
    ensures Cleared(ReleaseCred(c, e, outcome, now)) <==> outcome == Success
  {
  }

  /** A body in which no overload and no 429 is relayed, and which can be read. */
  predicate Harmless(parsed: Parsed) {
    || parsed.Response?
    || (parsed.Relayed? && parsed.status < 500 && parsed.status != 429)
  }

  /** The replies for which a key is not blamed: the request could not be built, or the upstream answered below
      500 other than 429, and its body, where it is read, relays nothing worse. */
  predicate Blameless(kind: Kind, client: string, plan: Plan, reply: Reply) {
    || reply.Unbuildable?
    || (reply.Answered? && reply.status < 500 && reply.status != 429
        && (kind == Stream || DispatchFor(plan, client) == Raw || Harmless(reply.parsed)))
  }

  /**
   * In either loop a reply clears a key that has anything against it exactly when the key is not blamed
   * for it. So a request the upstream refuses for its own sake wipes the key's failures and strikes.
   */
  lemma KeyClearedIff(c: Config, kind: Kind, client: string, plan: Plan, reply: Reply, e: Cred, now: Time)
    requires ValidConfig(c) && e.failures >= 0 && !Cleared(e) && (kind == Stream ==> !Opens(reply))
    ensures Cleared(ReleaseCred(c, e, JudgeAs(kind, client, plan, reply).outcome, now))
            <==> Blameless(kind, client, plan, reply)
  {
    ClearedBySuccess(c, e, JudgeAs(kind, client, plan, reply).outcome, now);
  }

  /** A 4xx other than 429 is refused: the next key is tried, and this one comes out cleared and as healthy as before. */
  lemma RefusalClearsKey(c: Config, kind: Kind, client: string, plan: Plan, reply: Reply, e: Cred, now: Time)
    requires ValidConfig(c) && reply.Answered? && 400 <= reply.status < 500 && Blameless(kind, client, plan, reply)
    requires kind == Whole && DispatchFor(plan, client) == Translated ==> reply.parsed.Relayed?
    ensures var j := JudgeAs(kind, client, plan, reply);
            j.verdict.Again? && Cleared(ReleaseCred(c, e, j.outcome, now)) && ReleaseCred(c, e, j.outcome, now).health == e.health
  {
  }
}
