/** The neutral stream of response events: its grammar and its meaning. */
module StreamIR {
  import opened Options

  datatype StopReason = Stop | ToolUse | MaxTokens | ContentFilter | Errored

  datatype Event =
    | StreamStart(id: string, model: string)
    | BlockStart(index: int, blockType: string)
    | TextDelta(index: int, text: string)
    | ToolStart(index: int, id: string, name: string)
    | ToolDelta(index: int, json: string)
    | ReasoningDelta(index: int, text: string, signature: string)
    | BlockEnd(index: int)
    | Finish(reason: StopReason)
    | Usage(input: int, output: int, cacheCreation: int, cacheRead: int)
    | StreamEnd

  // ----- the grammar -----

  datatype Phase = Before | Body | Finished | Counted | Ended

  /** How many blocks have been opened, and which of them are open, by kind. */
  datatype Context = Context(phase: Phase, blocks: nat, open: map<int, string>)

  const START := Context(Before, 0, map[])

  predicate Open(c: Context, index: int, kind: string) {
    c.phase == Body && index in c.open && c.open[index] == kind
  }

  /** Opening block `index`: blocks are numbered 0, 1, 2, ... in the order they open. */
  function Opening(c: Context, index: int, kind: string): Option<Context> {
    if c.phase == Body && index == c.blocks
    then Some(c.(blocks := c.blocks + 1, open := c.open[index := kind])) else None
  }

  function Advance(c: Context, ev: Event): Option<Context> {
    match ev
    case StreamStart(_, _) => if c.phase == Before then Some(c.(phase := Body)) else None
    case BlockStart(i, kind) => if kind == "text" || kind == "reasoning" then Opening(c, i, kind) else None
    case ToolStart(i, _, _) => Opening(c, i, "tool_use")
    case TextDelta(i, _) => if Open(c, i, "text") then Some(c) else None
    case ToolDelta(i, _) => if Open(c, i, "tool_use") then Some(c) else None
    case ReasoningDelta(i, _, _) => if Open(c, i, "reasoning") then Some(c) else None
    case BlockEnd(i) => if c.phase == Body && i in c.open then Some(c.(open := c.open - {i})) else None
    case Finish(_) => if c.phase == Body && c.open == map[] && c.blocks > 0 then Some(c.(phase := Finished)) else None
    case Usage(_, _, _, _) => if c.phase == Finished then Some(c.(phase := Counted)) else None
    case StreamEnd => if c.phase == Counted then Some(c.(phase := Ended)) else None
  }

  function Scan(evs: seq<Event>): Option<Context> {
    if evs == [] then Some(START)
    else
      var c := Scan(evs[..|evs| - 1]);
      if c.None? then None else Advance(c.value, evs[|evs| - 1])
  }

  /**
   * A well-formed stream: it starts once; blocks open as 0, 1, 2, ...; every delta names an open
   * block of its own kind; every block closes once, before the end; there is at least one; then
   * come one finish, one usage and the end, and nothing after.
   */
  predicate WellFormed(evs: seq<Event>) {
    Scan(evs).Some? && Scan(evs).value.phase == Ended
  }

  /** The same scan, refusing a second open block. */
  function ScanOne(evs: seq<Event>): Option<Context> {
    if evs == [] then Some(START)
    else
      var c := ScanOne(evs[..|evs| - 1]);
      if c.None? then None
      else
        var d := Advance(c.value, evs[|evs| - 1]);
        if d.Some? && |d.value.open| <= 1 then d else None
  }

  /** At most one block is open at any time. */
  predicate Sequential(evs: seq<Event>) {
    ScanOne(evs).Some?
  }

  lemma {:induction false} SequentialScans(evs: seq<Event>)
    requires Sequential(evs)
    ensures Scan(evs) == ScanOne(evs)
  {
    if evs != [] {
      SequentialScans(evs[..|evs| - 1]);
    }
  }

  lemma ScanSnoc(evs: seq<Event>, ev: Event)
    ensures Scan(evs + [ev]) == if Scan(evs).None? then None else Advance(Scan(evs).value, ev)
  {
    assert (evs + [ev])[..|evs|] == evs;
  }

  lemma ScanOneSnoc(evs: seq<Event>, ev: Event, c: Context, d: Context)
    requires ScanOne(evs) == Some(c) && Advance(c, ev) == Some(d) && |d.open| <= 1
    ensures ScanOne(evs + [ev]) == Some(d)
  {
    assert (evs + [ev])[..|evs|] == evs;
  }

  // ----- the meaning -----

  /** A tool call: the block that carries it, and its arguments joined. */
  datatype Call = Call(block: int, id: string, name: string, args: string)

  /** Equal up to the block that carries it. */
  predicate SameCall(a: Call, b: Call) {
    a.id == b.id && a.name == b.name && a.args == b.args
  }

  function TextOf(evs: seq<Event>): string {
    if evs == [] then ""
    else
      var ev := evs[|evs| - 1];
      TextOf(evs[..|evs| - 1]) + if ev.TextDelta? then ev.text else ""
  }

  /** Arguments reach the call whose block they name. */
  function Extend(calls: seq<Call>, block: int, json: string): (r: seq<Call>)
    ensures |r| == |calls|
  {
    seq(|calls|, k requires 0 <= k < |calls| =>
      if calls[k].block == block then calls[k].(args := calls[k].args + json) else calls[k])
  }

  function CallsAfter(calls: seq<Call>, ev: Event): seq<Call> {
    match ev
    case ToolStart(i, id, name) => calls + [Call(i, id, name, "")]
    case ToolDelta(i, json) => Extend(calls, i, json)
    case _ => calls
  }

  function CallsOf(evs: seq<Event>): seq<Call> {
    if evs == [] then [] else CallsAfter(CallsOf(evs[..|evs| - 1]), evs[|evs| - 1])
  }

  /** The last finish reason, or Stop. */
  function StopOf(evs: seq<Event>): StopReason {
    if evs == [] then Stop
    else match evs[|evs| - 1]
      case Finish(reason) => reason
      case _ => StopOf(evs[..|evs| - 1])
  }

  /** Input and output tokens, as last reported. */
  function TokensOf(evs: seq<Event>): (int, int) {
    if evs == [] then (0, 0)
    else match evs[|evs| - 1]
      case Usage(input, output, _, _) => (input, output)
      case _ => TokensOf(evs[..|evs| - 1])
  }

  lemma MeaningSnoc(evs: seq<Event>, ev: Event)
    ensures TextOf(evs + [ev]) == TextOf(evs) + if ev.TextDelta? then ev.text else ""
    ensures CallsOf(evs + [ev]) == CallsAfter(CallsOf(evs), ev)
    ensures StopOf(evs + [ev]) == if ev.Finish? then ev.reason else StopOf(evs)
    ensures TokensOf(evs + [ev]) == if ev.Usage? then (ev.input, ev.output) else TokensOf(evs)
  {
    assert (evs + [ev])[..|evs|] == evs;
  }

  // ----- what holds along any stream the grammar accepts -----

  ghost predicate Carried(calls: seq<Call>, block: int) {
    exists k :: 0 <= k < |calls| && calls[k].block == block
  }

  ghost predicate ContextSound(evs: seq<Event>, c: Context) {
    && (forall i :: i in c.open ==> 0 <= i < c.blocks)
    && (forall k :: 0 <= k < |CallsOf(evs)| ==> 0 <= CallsOf(evs)[k].block < c.blocks)
    && (forall j, k :: 0 <= j < k < |CallsOf(evs)| ==> CallsOf(evs)[j].block != CallsOf(evs)[k].block)
    && (forall i :: i in c.open && c.open[i] == "tool_use" ==> Carried(CallsOf(evs), i))
  }

  lemma AdvanceSound(evs: seq<Event>, ev: Event, c: Context, d: Context)
    requires ContextSound(evs, c) && Advance(c, ev) == Some(d)
    ensures ContextSound(evs + [ev], d)
  {
    MeaningSnoc(evs, ev);
    var before, after := CallsOf(evs), CallsOf(evs + [ev]);
    forall i | i in d.open && d.open[i] == "tool_use" ensures Carried(after, i) {
      if ev.ToolStart? && i == ev.index {
        assert after[|before|].block == i;
      } else {
        assert Carried(before, i);
        var k :| 0 <= k < |before| && before[k].block == i;
        assert after[k].block == i;
      }
    }
  }

  /** No two calls share a block, and every open tool block carries a call. */
  lemma {:induction false} ScanSound(evs: seq<Event>)
    requires Scan(evs).Some?
    ensures ContextSound(evs, Scan(evs).value)
  {
    if evs != [] {
      var init := evs[..|evs| - 1];
      ScanSound(init);
      AdvanceSound(init, evs[|evs| - 1], Scan(init).value, Scan(evs).value);
      assert init + [evs[|evs| - 1]] == evs;
    }
  }
}
