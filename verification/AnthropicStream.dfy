/** The neutral stream written as Anthropic events, and those read back. */
module AnthropicStream {
  import opened Options
  import opened StreamIR

  datatype WireDelta = WireDelta(deltaType: string, text: string, partialJson: string, thinking: string, signature: string)

  datatype Counts = Counts(input: int, output: int, cacheCreation: int, cacheRead: int)

  /** One server-sent event with its data decoded. `Other` is one the reader has no use for. */
  datatype Wire =
    | MessageStart(id: string, model: string, usage: Counts)
    | Ping
    | ContentBlockStart(index: int, blockType: string, id: string, name: string)
    | ContentBlockDelta(index: int, delta: WireDelta)
    | ContentBlockStop(index: int)
    | MessageDelta(stopReason: string, usage: Counts)
    | MessageStop
    | Other

  // ----- stop reasons -----

  function ToWireReason(reason: StopReason): string {
    match reason
    case ToolUse => "tool_use"
    case MaxTokens => "max_tokens"
    case Stop => "end_turn"
    case ContentFilter => "end_turn"
    case Errored => "end_turn"
  }

  function FromWireReason(reason: string): StopReason {
    if reason == "tool_use" then ToolUse
    else if reason == "max_tokens" then MaxTokens
    else Stop
  }

  // ----- writing -----

  const NO_COUNTS := Counts(0, 0, 0, 0)

  /** The buffered stop reason and usage, and the events sent. */
  datatype Writer = Writer(stopReason: string, usage: Counts, sent: seq<Wire>)

  function DeltaOf(text: string, signature: string): WireDelta {
    if signature != "" then WireDelta("signature_delta", "", "", "", signature)
    else WireDelta("thinking_delta", "", "", text, "")
  }

  /** The wire event a block event becomes. */
  function BlockWire(ev: Event): Wire
    requires InBlocks(ev)
  {
    match ev
    case BlockStart(i, kind) => ContentBlockStart(i, if kind == "reasoning" then "thinking" else kind, "", "")
    case TextDelta(i, text) => ContentBlockDelta(i, WireDelta("text_delta", text, "", "", ""))
    case ToolStart(i, id, name) => ContentBlockStart(i, "tool_use", id, name)
    case ToolDelta(i, json) => ContentBlockDelta(i, WireDelta("input_json_delta", "", json, "", ""))
    case ReasoningDelta(i, text, signature) => ContentBlockDelta(i, DeltaOf(text, signature))
    case BlockEnd(i) => ContentBlockStop(i)
  }

  predicate InBlocks(ev: Event) {
    !ev.StreamStart? && !ev.Finish? && !ev.Usage? && !ev.StreamEnd?
  }

  function Write(w: Writer, ev: Event, msgID: string, model: string): Writer {
    match ev
    case StreamStart(_, _) => w.(sent := w.sent + [MessageStart(msgID, model, Counts(0, 1, 0, 0))] + [Ping])
    case Finish(reason) => w.(stopReason := ToWireReason(reason))
    case Usage(input, output, creation, read) => w.(usage := Counts(input, output, creation, read))
    case StreamEnd => w.(sent := w.sent + [MessageDelta(w.stopReason, w.usage)] + [MessageStop])
    case _ => w.(sent := w.sent + [BlockWire(ev)])
  }

  function WriteAll(evs: seq<Event>, msgID: string, model: string): Writer {
    if evs == [] then Writer("", NO_COUNTS, [])
    else Write(WriteAll(evs[..|evs| - 1], msgID, model), evs[|evs| - 1], msgID, model)
  }

  /** Up to and including the first end event, which is as far as the writer reads. */
  function UpToEnd(evs: seq<Event>): seq<Event> {
    if evs == [] then []
    else if evs[0] == StreamEnd then [StreamEnd]
    else [evs[0]] + UpToEnd(evs[1..])
  }

  lemma NextEvent(read: seq<Event>, evs: seq<Event>, i: nat)
    requires i < |evs|
    ensures evs[i] == StreamEnd ==> read + UpToEnd(evs[i..]) == read + [StreamEnd]
    ensures evs[i] != StreamEnd ==> read + UpToEnd(evs[i..]) == (read + [evs[i]]) + UpToEnd(evs[i + 1..])
  {
    assert evs[i..][1..] == evs[i + 1..];
  }

  method StreamFromIR(evs: seq<Event>, msgID: string, model: string) returns (sent: seq<Wire>)
    ensures sent == WriteAll(UpToEnd(evs), msgID, model).sent
  {
    sent := [];
    var stopReason, usage := "", NO_COUNTS;
    var i := 0;
    ghost var read: seq<Event> := [];
    while i < |evs|
      invariant 0 <= i <= |evs|
      invariant Writer(stopReason, usage, sent) == WriteAll(read, msgID, model)
      invariant UpToEnd(evs) == read + UpToEnd(evs[i..])
    {
      var ev := evs[i];
      NextEvent(read, evs, i);
      WriteSnoc(read, ev, msgID, model);
      match ev {
        case StreamStart(_, _) => sent := sent + [MessageStart(msgID, model, Counts(0, 1, 0, 0))] + [Ping];
        case Finish(reason) => stopReason := ToWireReason(reason);
        case Usage(input, output, creation, cacheRead) => usage := Counts(input, output, creation, cacheRead);
        case StreamEnd =>
          sent := sent + [MessageDelta(stopReason, usage)] + [MessageStop];
          return;
        case _ =>
          var w := WireFor(ev);
          sent := sent + [w];
      }
      read := read + [ev];
      i := i + 1;
    }
    assert read + [] == read;
  }

  method WireFor(ev: Event) returns (w: Wire)
    requires InBlocks(ev)
    ensures w == BlockWire(ev)
  {
    match ev {
      case BlockStart(k, kind) =>
        var blockType := kind;
        if blockType == "reasoning" {
          blockType := "thinking";
        }
        w := ContentBlockStart(k, blockType, "", "");
      case TextDelta(k, text) => w := ContentBlockDelta(k, WireDelta("text_delta", text, "", "", ""));
      case ToolStart(k, id, name) => w := ContentBlockStart(k, "tool_use", id, name);
      case ToolDelta(k, json) =>
        w := ContentBlockDelta(k, WireDelta("input_json_delta", "", json, "", ""));
      case ReasoningDelta(k, text, signature) =>
        var delta := WireDelta("thinking_delta", "", "", text, "");
        if signature != "" {
          delta := WireDelta("signature_delta", "", "", "", signature);
        }
        w := ContentBlockDelta(k, delta);
      case BlockEnd(k) => w := ContentBlockStop(k);
    }
  }

  lemma WriteSnoc(evs: seq<Event>, ev: Event, msgID: string, model: string)
    ensures WriteAll(evs + [ev], msgID, model) == Write(WriteAll(evs, msgID, model), ev, msgID, model)
  {
    assert (evs + [ev])[..|evs|] == evs;
  }

  // ----- reading -----

  /** The input tokens the message started with, and the events emitted. */
  datatype Reader = Reader(inputTokens: int, out: seq<Event>)

  function StartedBlock(i: int, blockType: string, id: string, name: string): Event {
    if blockType == "tool_use" then ToolStart(i, id, name)
    else if blockType == "thinking" then BlockStart(i, "reasoning")
    else BlockStart(i, blockType)
  }

  function HeardDelta(i: int, d: WireDelta): Event {
    if d.deltaType == "input_json_delta" then ToolDelta(i, d.partialJson)
    else if d.deltaType == "thinking_delta" || d.deltaType == "signature_delta"
    then ReasoningDelta(i, d.thinking, d.signature)
    else TextDelta(i, d.text)
  }

  function EventsOf(inputTokens: int, w: Wire): seq<Event> {
    match w
    case MessageStart(id, model, usage) => [StreamStart(id, model)]
    case ContentBlockStart(i, blockType, id, name) => [StartedBlock(i, blockType, id, name)]
    case ContentBlockDelta(i, delta) => [HeardDelta(i, delta)]
    case ContentBlockStop(i) => [BlockEnd(i)]
    case MessageDelta(reason, usage) =>
      [Finish(FromWireReason(reason)), Usage(inputTokens, usage.output, usage.cacheCreation, usage.cacheRead)]
    case MessageStop => [StreamEnd]
    case Ping => []
    case Other => []
  }

  function Read(r: Reader, w: Wire): Reader {
    Reader(if w.MessageStart? then w.usage.input else r.inputTokens, r.out + EventsOf(r.inputTokens, w))
  }

  function ReadAll(ws: seq<Wire>): Reader {
    if ws == [] then Reader(0, []) else Read(ReadAll(ws[..|ws| - 1]), ws[|ws| - 1])
  }

  function UpToStop(ws: seq<Wire>): seq<Wire> {
    if ws == [] then []
    else if ws[0] == MessageStop then [MessageStop]
    else [ws[0]] + UpToStop(ws[1..])
  }

  lemma ReadSnoc(ws: seq<Wire>, w: Wire)
    ensures ReadAll(ws + [w]) == Read(ReadAll(ws), w)
  {
    assert (ws + [w])[..|ws|] == ws;
  }

  method EventsFor(inputTokens: int, w: Wire) returns (evs: seq<Event>)
    ensures evs == EventsOf(inputTokens, w)
  {
    match w {
      case MessageStart(id, model, _) => evs := [StreamStart(id, model)];
      case ContentBlockStart(k, blockType, id, name) =>
        if blockType == "tool_use" {
          evs := [ToolStart(k, id, name)];
        } else if blockType == "thinking" {
          evs := [BlockStart(k, "reasoning")];
        } else {
          evs := [BlockStart(k, blockType)];
        }
      case ContentBlockDelta(k, d) =>
        if d.deltaType == "input_json_delta" {
          evs := [ToolDelta(k, d.partialJson)];
        } else if d.deltaType == "thinking_delta" || d.deltaType == "signature_delta" {
          evs := [ReasoningDelta(k, d.thinking, d.signature)];
        } else {
          evs := [TextDelta(k, d.text)];
        }
      case ContentBlockStop(k) => evs := [BlockEnd(k)];
      case MessageDelta(reason, usage) =>
        evs := [Finish(FromWireReason(reason)),
                Usage(inputTokens, usage.output, usage.cacheCreation, usage.cacheRead)];
      case MessageStop => evs := [StreamEnd];
      case Ping => evs := [];
      case Other => evs := [];
    }
  }

  lemma NextWire(read: seq<Wire>, ws: seq<Wire>, i: nat)
    requires i < |ws|
    ensures ws[i] == MessageStop ==> read + UpToStop(ws[i..]) == read + [MessageStop]
    ensures ws[i] != MessageStop ==> read + UpToStop(ws[i..]) == (read + [ws[i]]) + UpToStop(ws[i + 1..])
  {
    assert ws[i..][1..] == ws[i + 1..];
  }

  method AnthropicSSEToIR(ws: seq<Wire>) returns (out: seq<Event>)
    ensures out == ReadAll(UpToStop(ws)).out
  {
    out := [];
    var inputTokens := 0;
    var i := 0;
    ghost var read: seq<Wire> := [];
    while i < |ws|
      invariant 0 <= i <= |ws|
      invariant Reader(inputTokens, out) == ReadAll(read)
      invariant UpToStop(ws) == read + UpToStop(ws[i..])
    {
      var w := ws[i];
      NextWire(read, ws, i);
      ReadSnoc(read, w);
      var evs := EventsFor(inputTokens, w);
      out := out + evs;
      if w.MessageStart? {
        inputTokens := w.usage.input;
      }
      if w == MessageStop {
        return;
      }
      read := read + [w];
      i := i + 1;
    }
    assert read + [] == read;
  }

  // ----- there and back -----

  /** What an event comes back as: starts are renamed, the finish and the usage are held back to the end. */
  function Back(ev: Event, msgID: string, model: string): seq<Event> {
    match ev
    case StreamStart(_, _) => [StreamStart(msgID, model)]
    case BlockStart(i, kind) =>
      [if kind == "tool_use" then ToolStart(i, "", "") else if kind == "thinking" then BlockStart(i, "reasoning") else ev]
    case ReasoningDelta(i, text, signature) => [if signature != "" then ReasoningDelta(i, "", signature) else ev]
    case Finish(_) => []
    case Usage(_, _, _, _) => []
    case StreamEnd => []
    case _ => [ev]
  }

  function BackAll(evs: seq<Event>, msgID: string, model: string): seq<Event> {
    if evs == [] then []
    else BackAll(evs[..|evs| - 1], msgID, model) + Back(evs[|evs| - 1], msgID, model)
  }

  function LastReason(evs: seq<Event>): string {
    if evs == [] then ""
    else if evs[|evs| - 1].Finish? then ToWireReason(evs[|evs| - 1].reason)
    else LastReason(evs[..|evs| - 1])
  }

  function LastCounts(evs: seq<Event>): Counts {
    if evs == [] then NO_COUNTS
    else match evs[|evs| - 1]
      case Usage(input, output, creation, read) => Counts(input, output, creation, read)
      case _ => LastCounts(evs[..|evs| - 1])
  }

  lemma BlockWireBack(ev: Event, msgID: string, model: string)
    requires InBlocks(ev)
    ensures EventsOf(0, BlockWire(ev)) == Back(ev, msgID, model)
    ensures !BlockWire(ev).MessageStart? && BlockWire(ev) != MessageStop
  {
  }

  lemma StartBack(sent: seq<Wire>, start: Wire, msgID: string, model: string)
    requires start == MessageStart(msgID, model, Counts(0, 1, 0, 0))
    ensures ReadAll(sent + [start] + [Ping]) == Reader(0, ReadAll(sent).out + [StreamStart(msgID, model)])
  {
    ReadSnoc(sent, start);
    ReadSnoc(sent + [start], Ping);
    var out := ReadAll(sent).out + [StreamStart(msgID, model)];
    assert out + [] == out;
  }

  lemma WrittenEventBack(w: Writer, ev: Event, msgID: string, model: string)
    requires ReadAll(w.sent).inputTokens == 0 && ev != StreamEnd && MessageStop !in w.sent
    ensures var v := Write(w, ev, msgID, model);
            && ReadAll(v.sent) == Reader(0, ReadAll(w.sent).out + Back(ev, msgID, model))
            && MessageStop !in v.sent
  {
    if ev.StreamStart? {
      StartBack(w.sent, MessageStart(msgID, model, Counts(0, 1, 0, 0)), msgID, model);
    } else if InBlocks(ev) {
      ReadSnoc(w.sent, BlockWire(ev));
      BlockWireBack(ev, msgID, model);
    } else {
      assert ReadAll(w.sent).out + [] == ReadAll(w.sent).out;
    }
  }

  lemma {:induction false} BodyBack(evs: seq<Event>, msgID: string, model: string)
    requires StreamEnd !in evs
    ensures var w := WriteAll(evs, msgID, model);
            && ReadAll(w.sent) == Reader(0, BackAll(evs, msgID, model)) && MessageStop !in w.sent
  {
    if evs != [] {
      BodyBack(evs[..|evs| - 1], msgID, model);
      WrittenEventBack(WriteAll(evs[..|evs| - 1], msgID, model), evs[|evs| - 1], msgID, model);
    }
  }

  lemma {:induction false} Buffered(evs: seq<Event>, msgID: string, model: string)
    ensures WriteAll(evs, msgID, model).stopReason == LastReason(evs)
    ensures WriteAll(evs, msgID, model).usage == LastCounts(evs)
  {
    if evs != [] {
      Buffered(evs[..|evs| - 1], msgID, model);
    }
  }

  lemma {:induction false} UpToFirstStop(ws: seq<Wire>)
    requires MessageStop !in ws
    ensures UpToStop(ws + [MessageStop]) == ws + [MessageStop]
  {
    if ws == [] {
      assert ws + [MessageStop] == [MessageStop];
    } else {
      assert (ws + [MessageStop])[1..] == ws[1..] + [MessageStop];
      UpToFirstStop(ws[1..]);
    }
  }

  lemma {:induction false} UpToFirstEnd(evs: seq<Event>)
    requires StreamEnd !in evs
    ensures UpToEnd(evs + [StreamEnd]) == evs + [StreamEnd]
  {
    if evs == [] {
      assert evs + [StreamEnd] == [StreamEnd];
    } else {
      assert (evs + [StreamEnd])[1..] == evs[1..] + [StreamEnd];
      UpToFirstEnd(evs[1..]);
    }
  }

  /** Written and read back, for every stream that ends. */
  function Returned(evs: seq<Event>, msgID: string, model: string): seq<Event> {
    ReadAll(UpToStop(WriteAll(UpToEnd(evs), msgID, model).sent)).out
  }

  function Closing(reason: string, counts: Counts): seq<Event> {
    [Finish(FromWireReason(reason))] + [Usage(0, counts.output, counts.cacheCreation, counts.cacheRead)] + [StreamEnd]
  }

  function Tail(evs: seq<Event>): seq<Event> {
    Closing(LastReason(evs), LastCounts(evs))
  }

  /**
   * Every stream that ends, written for an Anthropic client and read back, is itself event for event
   * and in order, up to what `Back` says of each; one finish and one usage, the last of each, follow
   * at the end. The input tokens are those of the message start, where the writer always puts zero.
   */
  lemma RoundTrip(evs: seq<Event>, msgID: string, model: string)
    requires StreamEnd !in evs
    ensures Returned(evs + [StreamEnd], msgID, model) == BackAll(evs, msgID, model) + Tail(evs)
  {
    UpToFirstEnd(evs);
    BodyBack(evs, msgID, model);
    Buffered(evs, msgID, model);
    WriteSnoc(evs, StreamEnd, msgID, model);
    TailBack(WriteAll(evs, msgID, model).sent, LastReason(evs), LastCounts(evs));
  }

  lemma TailBack(sent: seq<Wire>, reason: string, counts: Counts)
    requires MessageStop !in sent && ReadAll(sent).inputTokens == 0
    ensures ReadAll(UpToStop(sent + [MessageDelta(reason, counts)] + [MessageStop])).out == ReadAll(sent).out + Closing(reason, counts)
  {
    var last := MessageDelta(reason, counts);
    UpToFirstStop(sent + [last]);
    ReadSnoc(sent, last);
    ReadSnoc(sent + [last], MessageStop);
    Joined(ReadAll(sent).out, Finish(FromWireReason(reason)),
           Usage(0, counts.output, counts.cacheCreation, counts.cacheRead));
  }

  lemma Joined(out: seq<Event>, finish: Event, usage: Event)
    ensures out + [finish, usage] + [StreamEnd] == out + ([finish] + [usage] + [StreamEnd])
  {
  }

  /** Which events come back as they were. */
  predicate Faithful(ev: Event) {
    match ev
    case BlockStart(_, kind) => kind != "tool_use" && kind != "thinking"
    case ReasoningDelta(_, text, signature) => text == "" || signature == ""
    case _ => true
  }

  /** A block event survives exactly when it is faithful: a reasoning delta must not carry text and signature at once. */
  lemma SurvivesIff(ev: Event, msgID: string, model: string)
    requires InBlocks(ev)
    ensures Back(ev, msgID, model) == [ev] <==> Faithful(ev)
  {
  }

  /** The block events of a stream. */
  function BlockEvents(evs: seq<Event>): seq<Event> {
    if evs == [] then []
    else BlockEvents(evs[..|evs| - 1]) + if InBlocks(evs[|evs| - 1]) then [evs[|evs| - 1]] else []
  }

  lemma {:induction false} OneStart(evs: seq<Event>)
    requires Scan(evs).Some?
    ensures Scan(evs).value.phase == Before <==> evs == []
    ensures forall k :: 0 <= k < |evs| ==> (evs[k].StreamStart? <==> k == 0)
    ensures StreamEnd in evs <==> Scan(evs).value.phase == Ended
  {
    if evs != [] {
      OneStart(evs[..|evs| - 1]);
    }
  }

  lemma {:induction false} BackAllBlocks(evs: seq<Event>, msgID: string, model: string)
    requires Scan(evs).Some? && StreamEnd !in evs && evs != []
    requires forall k :: 0 <= k < |evs| ==> Faithful(evs[k])
    ensures BackAll(evs, msgID, model) == [StreamStart(msgID, model)] + BlockEvents(evs)
  {
    OneStart(evs);
    var init, ev := evs[..|evs| - 1], evs[|evs| - 1];
    if init == [] {
      assert BackAll(init, msgID, model) == [] && BlockEvents(init) == [];
    } else {
      BackAllBlocks(init, msgID, model);
      assert InBlocks(ev) ==> Back(ev, msgID, model) == [ev];
    }
  }

  /**
   * A well-formed stream whose reasoning deltas carry one field each comes back with the same block
   * events in the same order, between a renamed start and a finish, usage and end of its own.
   */
  lemma WellFormedRoundTrip(evs: seq<Event>, msgID: string, model: string)
    requires WellFormed(evs)
    requires forall k :: 0 <= k < |evs| && evs[k].ReasoningDelta? ==> Faithful(evs[k])
    ensures Returned(evs, msgID, model) == [StreamStart(msgID, model)] + BlockEvents(evs) + Tail(evs)
  {
    EndsOnce(evs);
    WellFormedBack(evs[..|evs| - 1], msgID, model);
  }

  lemma WellFormedBack(init: seq<Event>, msgID: string, model: string)
    requires Scan(init).Some? && StreamEnd !in init && init != []
    requires forall k :: 0 <= k < |init| && init[k].ReasoningDelta? ==> Faithful(init[k])
    ensures Returned(init + [StreamEnd], msgID, model)
            == [StreamStart(msgID, model)] + BlockEvents(init + [StreamEnd]) + Tail(init + [StreamEnd])
  {
    KindsFaithful(init);
    RoundTrip(init, msgID, model);
    BackAllBlocks(init, msgID, model);
    TailKept(init);
  }

  lemma EndsOnce(evs: seq<Event>)
    requires WellFormed(evs)
    ensures evs != [] && evs == evs[..|evs| - 1] + [StreamEnd]
    ensures Scan(evs[..|evs| - 1]).Some? && StreamEnd !in evs[..|evs| - 1] && evs[..|evs| - 1] != []
  {
    OneStart(evs[..|evs| - 1]);
  }

  lemma TailKept(init: seq<Event>)
    ensures Tail(init + [StreamEnd]) == Tail(init) && BlockEvents(init + [StreamEnd]) == BlockEvents(init)
  {
    assert (init + [StreamEnd])[..|init|] == init;
    assert BlockEvents(init) + [] == BlockEvents(init);
  }

  /** The grammar's block kinds are those that survive. */
  lemma {:induction false} KindsFaithful(evs: seq<Event>)
    requires Scan(evs).Some?
    ensures forall k :: 0 <= k < |evs| && !evs[k].ReasoningDelta? ==> Faithful(evs[k])
  {
    if evs != [] {
      KindsFaithful(evs[..|evs| - 1]);
    }
  }

  /** The context of the blocks alone. */
  function InBody(c: Context): Context {
    Context(Body, c.blocks, c.open)
  }

  lemma BlocksStep(out: seq<Event>, ev: Event, c: Context, d: Context)
    requires Scan(out) == Some(InBody(c)) && c.phase != Before && Advance(c, ev) == Some(d)
    ensures InBlocks(ev) ==> Scan(out + [ev]) == Some(InBody(d))
    ensures !InBlocks(ev) ==> InBody(d) == InBody(c)
  {
    ScanSnoc(out, ev);
  }

  lemma StartScan(msgID: string, model: string)
    ensures Scan([StreamStart(msgID, model)]) == Some(Context(Body, 0, map[]))
  {
    assert [StreamStart(msgID, model)][..0] == [];
  }

  lemma BlockEventsSnoc(start: Event, blocks: seq<Event>, ev: Event)
    ensures [start] + (blocks + [ev]) == [start] + blocks + [ev]
    ensures [start] + (blocks + []) == [start] + blocks
  {
  }

  /** Dropping the closing events leaves the blocks as they were. */
  lemma {:induction false} BlocksScan(evs: seq<Event>, msgID: string, model: string)
    requires Scan(evs).Some? && evs != []
    ensures Scan([StreamStart(msgID, model)] + BlockEvents(evs)) == Some(InBody(Scan(evs).value))
  {
    var init, ev := evs[..|evs| - 1], evs[|evs| - 1];
    var start := StreamStart(msgID, model);
    OneStart(evs);
    StartScan(msgID, model);
    BlockEventsSnoc(start, BlockEvents(init), ev);
    if init != [] {
      BlocksScan(init, msgID, model);
      OneStart(init);
      BlocksStep([start] + BlockEvents(init), ev, Scan(init).value, Scan(evs).value);
    } else {
      FirstOnly(evs, start);
    }
  }

  lemma FirstOnly(evs: seq<Event>, start: Event)
    requires |evs| == 1 && evs[0].StreamStart?
    ensures [start] + BlockEvents(evs) == [start] && Scan(evs) == Some(Context(Body, 0, map[]))
  {
    assert evs == [evs[0]] && evs[..0] == [];
  }

  lemma {:induction false} FinishedEmpty(evs: seq<Event>)
    requires Scan(evs).Some?
    ensures var c := Scan(evs).value;
            c.phase != Before && c.phase != Body ==> c.open == map[] && c.blocks > 0
  {
    if evs != [] {
      FinishedEmpty(evs[..|evs| - 1]);
    }
  }

  /** What comes back is well-formed again. */
  lemma ReturnsWellFormed(evs: seq<Event>, msgID: string, model: string)
    requires WellFormed(evs)
    requires forall k :: 0 <= k < |evs| && evs[k].ReasoningDelta? ==> Faithful(evs[k])
    ensures WellFormed(Returned(evs, msgID, model))
  {
    WellFormedRoundTrip(evs, msgID, model);
    BlocksScan(evs, msgID, model);
    FinishedEmpty(evs);
    ClosingScan([StreamStart(msgID, model)] + BlockEvents(evs), LastReason(evs), LastCounts(evs), Scan(evs).value.blocks);
  }

  lemma ClosingScan(out: seq<Event>, reason: string, counts: Counts, blocks: nat)
    requires Scan(out) == Some(Context(Body, blocks, map[])) && blocks > 0
    ensures WellFormed(out + Closing(reason, counts))
  {
    var finish, usage := Finish(FromWireReason(reason)), Usage(0, counts.output, counts.cacheCreation, counts.cacheRead);
    ScanSnoc(out, finish);
    ScanSnoc(out + [finish], usage);
    ScanSnoc(out + [finish] + [usage], StreamEnd);
    assert out + Closing(reason, counts) == out + [finish] + [usage] + [StreamEnd];
  }
}
