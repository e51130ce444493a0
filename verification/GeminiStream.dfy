/** Gemini chunk streams read into the neutral stream. */
module GeminiStream {
  import opened Options
  import opened StreamIR

  // ----- decoded chunks -----

  /** `args` is the call's argument object, rectified and rendered. */
  datatype FunctionCall = FunctionCall(name: string, args: string)

  datatype Part = Part(thought: bool, text: string, call: Option<FunctionCall>, signature: string)

  datatype Candidate = Candidate(parts: seq<Part>, finish: string)

  datatype Tokens = Tokens(prompt: int, candidates: int)

  datatype Chunk = Chunk(candidates: seq<Candidate>, usage: Tokens)

  datatype Line = Skipped | Data(chunk: Chunk)

  // ----- what the chunks say, in the order they say it -----

  datatype Item = Visible(part: Part) | Reason(reason: string) | Spent(tokens: Tokens)

  /** Thought parts are not shown to the client. */
  function VisibleOf(part: Part): Option<Item> {
    if part.thought then None else Some(Visible(part))
  }

  function ReasonOf(c: Candidate): Option<Item> {
    if c.finish != "" then Some(Reason(c.finish)) else None
  }

  function SpentOf(usage: Tokens): Option<Item> {
    if usage.candidates > 0 || usage.prompt > 0 then Some(Spent(usage)) else None
  }

  function Maybe(item: Option<Item>): seq<Item> {
    if item.Some? then [item.value] else []
  }

  function ItemsOfParts(parts: seq<Part>): seq<Item> {
    if parts == [] then [] else ItemsOfParts(parts[..|parts| - 1]) + Maybe(VisibleOf(parts[|parts| - 1]))
  }

  function ItemsOfCandidates(cs: seq<Candidate>): seq<Item> {
    if cs == [] then []
    else
      var c := cs[|cs| - 1];
      ItemsOfCandidates(cs[..|cs| - 1]) + ItemsOfParts(c.parts) + Maybe(ReasonOf(c))
  }

  function ItemsOfLine(line: Line): seq<Item> {
    if line.Skipped? then [] else ItemsOfCandidates(line.chunk.candidates) + Maybe(SpentOf(line.chunk.usage))
  }

  function ItemsOf(lines: seq<Line>): seq<Item> {
    if lines == [] then [] else ItemsOf(lines[..|lines| - 1]) + ItemsOfLine(lines[|lines| - 1])
  }

  function MapFinish(reason: string): StopReason {
    if reason == "MAX_TOKENS" then MaxTokens
    else if reason == "TOOL_CODE" || reason == "FUNCTION_CALL" then ToolUse
    else if reason in {"SAFETY", "RECITATION", "BLOCKLIST", "PROHIBITED_CONTENT", "SPII"} then ContentFilter
    else Stop
  }

  // ----- the parser -----

  /** `calls` counts the calls emitted, `signatures` logs what was cached for which call's id. */
  datatype Parser = Parser(
    blockIndex: int,
    textOpen: bool,
    calls: nat,
    stop: Option<StopReason>,
    usage: Tokens,
    signatures: seq<(string, string)>,
    out: seq<Event>)

  const FIRST := Parser(-1, false, 0, None, Tokens(0, 0), [], [StreamStart("", "")])

  function PutText(p: Parser, text: string): Parser {
    if text == "" then p
    else if p.textOpen then p.(out := p.out + [TextDelta(p.blockIndex, text)])
    else p.(blockIndex := p.blockIndex + 1, textOpen := true,
            out := p.out + [BlockStart(p.blockIndex + 1, "text")] + [TextDelta(p.blockIndex + 1, text)])
  }

  function CloseText(p: Parser): Parser {
    if p.textOpen then p.(textOpen := false, out := p.out + [BlockEnd(p.blockIndex)]) else p
  }

  /** A call opens, carries its arguments in one piece, and closes at once. */
  function PutCall(p: Parser, call: FunctionCall, id: string): Parser {
    var q := CloseText(p);
    var b := q.blockIndex + 1;
    q.(blockIndex := b, calls := q.calls + 1,
       out := WithCall(q.out, b, id, call))
  }

  /** A signature belongs to the call it comes with, or to the latest one before it. */
  function PutSignature(p: Parser, signature: string, ids: nat -> string): Parser {
    if signature == "" || p.calls == 0 then p
    else p.(signatures := p.signatures + [(ids(p.calls - 1), signature)])
  }

  /** The state a part leaves, before its signature. */
  function PutContentOf(p: Parser, part: Part, ids: nat -> string): Parser {
    var q := PutText(p, part.text);
    if part.call.Some? then PutCall(q, part.call.value, ids(q.calls)) else q
  }

  function PutPart(p: Parser, part: Part, ids: nat -> string): Parser {
    PutSignature(PutContentOf(p, part, ids), part.signature, ids)
  }

  function Put(p: Parser, item: Item, ids: nat -> string): Parser {
    match item
    case Visible(part) => PutPart(p, part, ids)
    case Reason(reason) => p.(stop := Some(MapFinish(reason)))
    case Spent(tokens) => p.(usage := tokens)
  }

  function PutAll(p: Parser, items: seq<Item>, ids: nat -> string): Parser {
    if items == [] then p else Put(PutAll(p, items[..|items| - 1], ids), items[|items| - 1], ids)
  }

  lemma {:induction false} PutAllAppend(p: Parser, a: seq<Item>, b: seq<Item>, ids: nat -> string)
    ensures PutAll(p, a + b, ids) == PutAll(PutAll(p, a, ids), b, ids)
  {
    if b == [] {
      assert a + b == a;
    } else {
      assert (a + b)[..|a + b| - 1] == a + b[..|b| - 1];
      PutAllAppend(p, a, b[..|b| - 1], ids);
    }
  }

  function PutMaybe(p: Parser, item: Option<Item>, ids: nat -> string): Parser {
    if item.Some? then Put(p, item.value, ids) else p
  }

  lemma PutAllThen(p: Parser, a: seq<Item>, item: Option<Item>, ids: nat -> string)
    ensures PutAll(p, a + Maybe(item), ids) == PutMaybe(PutAll(p, a, ids), item, ids)
  {
    if item.Some? {
      assert (a + [item.value])[..|a|] == a;
    } else {
      assert a + [] == a;
    }
  }

  lemma LinesSnoc(p: Parser, lines: seq<Line>, i: nat, ids: nat -> string)
    requires i < |lines|
    ensures PutAll(p, ItemsOf(lines[..i + 1]), ids) == PutAll(PutAll(p, ItemsOf(lines[..i]), ids), ItemsOfLine(lines[i]), ids)
    ensures lines[i].Skipped? ==> PutAll(p, ItemsOf(lines[..i + 1]), ids) == PutAll(p, ItemsOf(lines[..i]), ids)
  {
    PutAllAppend(p, ItemsOf(lines[..i]), ItemsOfLine(lines[i]), ids);
    assert lines[..i + 1][..i] == lines[..i];
  }

  lemma PartsSnoc(p: Parser, parts: seq<Part>, i: nat, ids: nat -> string)
    requires i < |parts|
    ensures PutAll(p, ItemsOfParts(parts[..i + 1]), ids)
            == PutMaybe(PutAll(p, ItemsOfParts(parts[..i]), ids), VisibleOf(parts[i]), ids)
  {
    PutAllThen(p, ItemsOfParts(parts[..i]), VisibleOf(parts[i]), ids);
    assert parts[..i + 1][..i] == parts[..i];
  }

  lemma CandidatesSnoc(p: Parser, cs: seq<Candidate>, i: nat, ids: nat -> string)
    requires i < |cs|
    ensures PutAll(p, ItemsOfCandidates(cs[..i + 1]), ids)
            == PutMaybe(PutAll(PutAll(p, ItemsOfCandidates(cs[..i]), ids), ItemsOfParts(cs[i].parts), ids), ReasonOf(cs[i]), ids)
  {
    var before, parts := ItemsOfCandidates(cs[..i]), ItemsOfParts(cs[i].parts);
    PutAllAppend(p, before, parts, ids);
    PutAllThen(p, before + parts, ReasonOf(cs[i]), ids);
    assert cs[..i + 1][..i] == cs[..i];
  }

  function WithEmptyBlock(out: seq<Event>): seq<Event> {
    out + [BlockStart(0, "text")] + [BlockEnd(0)]
  }

  function SettledFrom(out: seq<Event>, blockIndex: int): seq<Event> {
    if blockIndex < 0 then WithEmptyBlock(out) else out
  }

  function Settled(p: Parser): seq<Event> {
    SettledFrom(CloseText(p).out, p.blockIndex)
  }

  function StopFor(p: Parser): StopReason {
    if p.calls > 0 then ToolUse else if p.stop.Some? then p.stop.value else Stop
  }

  function StreamOf(items: seq<Item>, ids: nat -> string): seq<Event> {
    var p := PutAll(FIRST, items, ids);
    Settled(p) + [Finish(StopFor(p))] + [Usage(p.usage.prompt, p.usage.candidates, 0, 0)] + [StreamEnd]
  }

  // ----- the loop -----

  class StreamParser {
    const ids: nat -> string
    var blockIndex: int
    var textBlockOpen: bool
    var hasToolUse: bool
    var lastToolID: Option<string>
    var stopReason: Option<StopReason>
    var usage: Tokens
    var signatures: seq<(string, string)>
    var out: seq<Event>
    var issued: nat

    ghost predicate Valid()
      reads this
    {
      && hasToolUse == (issued > 0)
      && lastToolID == if issued == 0 then None else Some(ids(issued - 1))
    }

    ghost function State(): Parser
      reads this
    {
      Parser(blockIndex, textBlockOpen, issued, stopReason, usage, signatures, out)
    }

    constructor (ids: nat -> string)
      ensures Valid() && State() == FIRST && this.ids == ids
    {
      this.ids := ids;
      blockIndex, textBlockOpen, hasToolUse, lastToolID := -1, false, false, None;
      stopReason, usage, signatures, issued := None, Tokens(0, 0), [], 0;
      out := [StreamStart("", "")];
    }

    method StreamToIR(lines: seq<Line>) returns (events: seq<Event>)
      requires Valid() && State() == FIRST
      modifies this
      ensures events == StreamOf(ItemsOf(lines), ids)
    {
      ReadLines(lines);
      ghost var p := State();
      if textBlockOpen {
        out := out + [BlockEnd(blockIndex)];
      }
      if blockIndex < 0 {
        out := out + [BlockStart(0, "text")];
        out := out + [BlockEnd(0)];
      }
      assert out == Settled(p);
      var stop := Stop;
      if hasToolUse {
        stop := ToolUse;
      } else if stopReason.Some? {
        stop := stopReason.value;
      }
      events := out + [Finish(stop)] + [Usage(usage.prompt, usage.candidates, 0, 0)] + [StreamEnd];
    }

    method ReadLines(lines: seq<Line>)
      requires Valid()
      modifies this
      ensures Valid() && State() == PutAll(old(State()), ItemsOf(lines), ids)
    {
      var i := 0;
      while i < |lines|
        invariant 0 <= i <= |lines| && Valid()
        invariant State() == PutAll(old(State()), ItemsOf(lines[..i]), ids)
      {
        LinesSnoc(old(State()), lines, i, ids);
        if lines[i].Data? {
          ReadChunk(lines[i].chunk);
        }
        i := i + 1;
      }
      assert lines[..i] == lines;
    }

    method ReadChunk(chunk: Chunk)
      requires Valid()
      modifies this
      ensures Valid() && State() == PutAll(old(State()), ItemsOfLine(Data(chunk)), ids)
    {
      PutAllThen(State(), ItemsOfCandidates(chunk.candidates), SpentOf(chunk.usage), ids);
      ReadCandidates(chunk.candidates);
      if chunk.usage.candidates > 0 || chunk.usage.prompt > 0 {
        usage := chunk.usage;
      }
    }

    method ReadCandidates(cs: seq<Candidate>)
      requires Valid()
      modifies this
      ensures Valid() && State() == PutAll(old(State()), ItemsOfCandidates(cs), ids)
    {
      var i := 0;
      while i < |cs|
        invariant 0 <= i <= |cs| && Valid()
        invariant State() == PutAll(old(State()), ItemsOfCandidates(cs[..i]), ids)
      {
        CandidatesSnoc(old(State()), cs, i, ids);
        ReadCandidate(cs[i]);
        i := i + 1;
      }
      assert cs[..i] == cs;
    }

    method ReadCandidate(c: Candidate)
      requires Valid()
      modifies this
      ensures Valid() && State() == PutMaybe(PutAll(old(State()), ItemsOfParts(c.parts), ids), ReasonOf(c), ids)
    {
      ReadParts(c.parts);
      if c.finish != "" {
        stopReason := Some(MapFinish(c.finish));
      }
    }

    method ReadParts(parts: seq<Part>)
      requires Valid()
      modifies this
      ensures Valid() && State() == PutAll(old(State()), ItemsOfParts(parts), ids)
    {
      var i := 0;
      while i < |parts|
        invariant 0 <= i <= |parts| && Valid()
        invariant State() == PutAll(old(State()), ItemsOfParts(parts[..i]), ids)
      {
        PartsSnoc(old(State()), parts, i, ids);
        if !parts[i].thought {
          ReadPart(parts[i]);
        }
        i := i + 1;
      }
      assert parts[..i] == parts;
    }

    method ReadPart(part: Part)
      requires Valid()
      modifies this
      ensures Valid() && State() == PutPart(old(State()), part, ids)
    {
      ReadText(part.text);
      if part.call.Some? {
        ReadCall(part.call.value);
        if part.signature != "" {
          signatures := signatures + [(lastToolID.value, part.signature)];
        }
      } else if part.signature != "" && lastToolID.Some? {
        signatures := signatures + [(lastToolID.value, part.signature)];
      }
    }

    method ReadText(text: string)
      requires Valid()
      modifies `out, `blockIndex, `textBlockOpen
      ensures Valid() && State() == PutText(old(State()), text)
    {
      if text != "" {
        if !textBlockOpen {
          blockIndex := blockIndex + 1;
          out := out + [BlockStart(blockIndex, "text")];
          textBlockOpen := true;
        }
        out := out + [TextDelta(blockIndex, text)];
      }
    }

    method ReadCall(call: FunctionCall)
      requires Valid()
      modifies this
      ensures Valid() && State() == PutCall(old(State()), call, ids(old(issued)))
    {
      if textBlockOpen {
        out := out + [BlockEnd(blockIndex)];
        textBlockOpen := false;
      }
      blockIndex := blockIndex + 1;
      var toolID := ids(issued);
      issued := issued + 1;
      lastToolID := Some(toolID);
      out := out + [ToolStart(blockIndex, toolID, call.name)];
      out := out + [ToolDelta(blockIndex, call.args)];
      out := out + [BlockEnd(blockIndex)];
      hasToolUse := true;
    }
  }

  // ----- every stream is well-formed and sequential -----

  /** At most the latest text block is open. */
  function Open(blocks: nat, text: bool): Context {
    Context(Body, blocks, if text then map[blocks - 1 := "text"] else map[])
  }

  ghost predicate Sound(p: Parser) {
    && p.blockIndex >= -1 && (p.textOpen ==> p.blockIndex >= 0)
    && ScanOne(p.out) == Some(Open(p.blockIndex + 1, p.textOpen))
  }

  function InCall(b: nat): Context {
    Context(Body, b + 1, map[b := "tool_use"])
  }

  lemma TextAdvances(b: nat, text: string)
    ensures Advance(Open(b, false), BlockStart(b, "text")) == Some(Open(b + 1, true))
    ensures Advance(Open(b + 1, true), TextDelta(b, text)) == Some(Open(b + 1, true))
    ensures Advance(Open(b + 1, true), BlockEnd(b)) == Some(Open(b + 1, false))
    ensures |Open(b + 1, true).open| == 1 && |Open(b, false).open| == 0
  {
    assert map[b := "text"] - {b} == map[];
  }

  lemma CallAdvances(b: nat, id: string, call: FunctionCall)
    ensures Advance(Open(b, false), ToolStart(b, id, call.name)) == Some(InCall(b))
    ensures Advance(InCall(b), ToolDelta(b, call.args)) == Some(InCall(b))
    ensures Advance(InCall(b), BlockEnd(b)) == Some(Open(b + 1, false))
    ensures |InCall(b).open| == 1 && |Open(b + 1, false).open| == 0
  {
    assert map[b := "tool_use"] - {b} == map[];
  }

  lemma PutTextSound(p: Parser, text: string)
    requires Sound(p)
    ensures Sound(PutText(p, text))
  {
    if text != "" {
      if p.textOpen {
        TextAdvances(p.blockIndex, text);
        ScanOneSnoc(p.out, TextDelta(p.blockIndex, text), Open(p.blockIndex + 1, true), Open(p.blockIndex + 1, true));
      } else {
        var b := p.blockIndex + 1;
        TextAdvances(b, text);
        ScanOneSnoc(p.out, BlockStart(b, "text"), Open(b, false), Open(b + 1, true));
        ScanOneSnoc(p.out + [BlockStart(b, "text")], TextDelta(b, text), Open(b + 1, true), Open(b + 1, true));
      }
    }
  }

  lemma TextCloses(out: seq<Event>, b: nat)
    requires ScanOne(out) == Some(Open(b + 1, true))
    ensures ScanOne(out + [BlockEnd(b)]) == Some(Open(b + 1, false))
  {
    TextAdvances(b, "");
    ScanOneSnoc(out, BlockEnd(b), Open(b + 1, true), Open(b + 1, false));
  }

  lemma ClosedScan(p: Parser)
    requires Sound(p)
    ensures ScanOne(CloseText(p).out) == Some(Open(p.blockIndex + 1, false))
  {
    if p.textOpen {
      TextCloses(p.out, p.blockIndex);
    }
  }

  /** A whole call, in one place. */
  function WithCall(out: seq<Event>, b: int, id: string, call: FunctionCall): seq<Event> {
    out + [ToolStart(b, id, call.name)] + [ToolDelta(b, call.args)] + [BlockEnd(b)]
  }

  lemma CallSound(out: seq<Event>, b: nat, id: string, call: FunctionCall)
    requires ScanOne(out) == Some(Open(b, false))
    ensures ScanOne(WithCall(out, b, id, call)) == Some(Open(b + 1, false))
  {
    CallAdvances(b, id, call);
    ThreeMore(out, ToolStart(b, id, call.name), ToolDelta(b, call.args), BlockEnd(b),
              Open(b, false), InCall(b), InCall(b), Open(b + 1, false));
  }

  lemma TwoMore(out: seq<Event>, x: Event, y: Event, c: Context, d: Context, e: Context)
    requires ScanOne(out) == Some(c)
    requires Advance(c, x) == Some(d) && |d.open| <= 1
    requires Advance(d, y) == Some(e) && |e.open| <= 1
    ensures ScanOne(out + [x] + [y]) == Some(e)
  {
    ScanOneSnoc(out, x, c, d);
    ScanOneSnoc(out + [x], y, d, e);
  }

  lemma ThreeMore(out: seq<Event>, x: Event, y: Event, z: Event, c: Context, d: Context, e: Context, f: Context)
    requires ScanOne(out) == Some(c)
    requires Advance(c, x) == Some(d) && |d.open| <= 1
    requires Advance(d, y) == Some(e) && |e.open| <= 1
    requires Advance(e, z) == Some(f) && |f.open| <= 1
    ensures ScanOne(out + [x] + [y] + [z]) == Some(f)
  {
    ScanOneSnoc(out, x, c, d);
    ScanOneSnoc(out + [x], y, d, e);
    ScanOneSnoc(out + [x] + [y], z, e, f);
  }

  lemma PutCallSound(p: Parser, call: FunctionCall, id: string)
    requires Sound(p)
    ensures Sound(PutCall(p, call, id))
  {
    ClosedScan(p);
    CallSound(CloseText(p).out, p.blockIndex + 1, id, call);
  }

  lemma PutPartSound(p: Parser, part: Part, ids: nat -> string)
    requires Sound(p)
    ensures Sound(PutPart(p, part, ids))
  {
    PutTextSound(p, part.text);
    var q := PutText(p, part.text);
    if part.call.Some? {
      PutCallSound(q, part.call.value, ids(q.calls));
    }
    SignatureSound(PutContentOf(p, part, ids), part.signature, ids);
  }

  lemma SignatureSound(p: Parser, signature: string, ids: nat -> string)
    requires Sound(p)
    ensures Sound(PutSignature(p, signature, ids))
  {
    SameOut(p, PutSignature(p, signature, ids));
  }

  lemma SameOut(p: Parser, q: Parser)
    requires Sound(p) && q.blockIndex == p.blockIndex && q.textOpen == p.textOpen && q.out == p.out
    ensures Sound(q)
  {
  }

  lemma PutSound(p: Parser, item: Item, ids: nat -> string)
    requires Sound(p)
    ensures Sound(Put(p, item, ids))
  {
    if item.Visible? {
      PutPartSound(p, item.part, ids);
    } else {
      SameOut(p, Put(p, item, ids));
    }
  }

  lemma FirstSound()
    ensures Sound(FIRST)
  {
    assert [StreamStart("", "")][..0] == [];
  }

  lemma {:induction false} PutAllSound(items: seq<Item>, ids: nat -> string)
    ensures Sound(PutAll(FIRST, items, ids))
  {
    if items == [] {
      FirstSound();
    } else {
      PutAllSound(items[..|items| - 1], ids);
      PutSound(PutAll(FIRST, items[..|items| - 1], ids), items[|items| - 1], ids);
    }
  }

  lemma EmptyBlockSound(out: seq<Event>)
    requires ScanOne(out) == Some(Open(0, false))
    ensures ScanOne(WithEmptyBlock(out)) == Some(Open(1, false))
  {
    TextAdvances(0, "");
    TwoMore(out, BlockStart(0, "text"), BlockEnd(0), Open(0, false), Open(1, true), Open(1, false));
  }

  /** Settled, some block has been opened and none is open. */
  ghost predicate AllClosed(out: seq<Event>, blocks: nat) {
    blocks > 0 && ScanOne(out) == Some(Open(blocks, false))
  }

  lemma SettledFromSound(out: seq<Event>, blockIndex: int) returns (blocks: nat)
    requires blockIndex >= -1 && ScanOne(out) == Some(Open(blockIndex + 1, false))
    ensures AllClosed(SettledFrom(out, blockIndex), blocks)
  {
    if blockIndex < 0 {
      blocks := 1;
      EmptyBlockSound(out);
    } else {
      blocks := blockIndex + 1;
    }
  }

  lemma SettledSound(p: Parser) returns (blocks: nat)
    requires Sound(p)
    ensures AllClosed(Settled(p), blocks)
  {
    ClosedScan(p);
    blocks := SettledFromSound(CloseText(p).out, p.blockIndex);
  }

  lemma ClosedSound(out: seq<Event>, blocks: nat, reason: StopReason, usage: Event)
    requires AllClosed(out, blocks) && usage.Usage?
    ensures ScanOne(out + [Finish(reason)] + [usage] + [StreamEnd]) == Some(Context(Ended, blocks, map[]))
  {
    ThreeMore(out, Finish(reason), usage, StreamEnd, Open(blocks, false), Context(Finished, blocks, map[]),
              Context(Counted, blocks, map[]), Context(Ended, blocks, map[]));
  }

  /** Whatever the chunks, the stream is well-formed, and no two of its blocks are open at once. */
  lemma StreamSequential(items: seq<Item>, ids: nat -> string)
    ensures WellFormed(StreamOf(items, ids)) && Sequential(StreamOf(items, ids))
  {
    var p := PutAll(FIRST, items, ids);
    PutAllSound(items, ids);
    var blocks := SettledSound(p);
    ClosedSound(Settled(p), blocks, StopFor(p), Usage(p.usage.prompt, p.usage.candidates, 0, 0));
    SequentialScans(StreamOf(items, ids));
  }

  // ----- the content arrives -----

  function JoinedText(items: seq<Item>): string {
    if items == [] then ""
    else JoinedText(items[..|items| - 1]) + if items[|items| - 1].Visible? then items[|items| - 1].part.text else ""
  }

  predicate IsCall(item: Item) {
    item.Visible? && item.part.call.Some?
  }

  function SaidCalls(items: seq<Item>): seq<FunctionCall> {
    if items == [] then []
    else SaidCalls(items[..|items| - 1]) + if IsCall(items[|items| - 1]) then [items[|items| - 1].part.call.value] else []
  }

  /** Each signature with the number of the call it belongs to; those before any call belong to none. */
  function SaidSignatures(items: seq<Item>): seq<(nat, string)> {
    if items == [] then []
    else
      var last := items[|items| - 1];
      var calls := |SaidCalls(items)|;
      SaidSignatures(items[..|items| - 1])
      + if last.Visible? && last.part.signature != "" && calls > 0 then [(calls - 1, last.part.signature)] else []
  }

  function SaidReason(items: seq<Item>): Option<string> {
    if items == [] then None
    else if items[|items| - 1].Reason? then Some(items[|items| - 1].reason)
    else SaidReason(items[..|items| - 1])
  }

  function SaidTokens(items: seq<Item>): Tokens {
    if items == [] then Tokens(0, 0)
    else if items[|items| - 1].Spent? then items[|items| - 1].tokens
    else SaidTokens(items[..|items| - 1])
  }

  /** The calls emitted are those said, in order, each under the next id and with its arguments whole. */
  ghost predicate CallsMatch(out: seq<Event>, said: seq<FunctionCall>, ids: nat -> string) {
    && |CallsOf(out)| == |said|
    && forall k :: 0 <= k < |said| ==> SameCall(CallsOf(out)[k], Call(0, ids(k), said[k].name, said[k].args))
  }

  lemma PutTextMeaning(p: Parser, text: string)
    ensures var q := PutText(p, text);
            TextOf(q.out) == TextOf(p.out) + text && CallsOf(q.out) == CallsOf(p.out)
  {
    var b := p.blockIndex + 1;
    if text == "" {
      assert TextOf(p.out) + "" == TextOf(p.out);
    } else if p.textOpen {
      MeaningSnoc(p.out, TextDelta(p.blockIndex, text));
    } else {
      MeaningSnoc(p.out, BlockStart(b, "text"));
      MeaningSnoc(p.out + [BlockStart(b, "text")], TextDelta(b, text));
    }
  }

  lemma CloseTextMeaning(p: Parser)
    ensures TextOf(CloseText(p).out) == TextOf(p.out) && CallsOf(CloseText(p).out) == CallsOf(p.out)
  {
    if p.textOpen {
      MeaningSnoc(p.out, BlockEnd(p.blockIndex));
    }
  }

  lemma NewCall(calls: seq<Call>, b: int, id: string, name: string, args: string)
    requires forall k :: 0 <= k < |calls| ==> calls[k].block < b
    ensures Extend(calls + [Call(b, id, name, "")], b, args) == calls + [Call(b, id, name, args)]
  {
    assert "" + args == args;
  }

  lemma CallMeaning(out: seq<Event>, b: nat, id: string, call: FunctionCall)
    requires ScanOne(out) == Some(Open(b, false))
    ensures TextOf(WithCall(out, b, id, call)) == TextOf(out)
    ensures CallsOf(WithCall(out, b, id, call)) == CallsOf(out) + [Call(b, id, call.name, call.args)]
  {
    SequentialScans(out);
    ScanSound(out);
    var start, delta := ToolStart(b, id, call.name), ToolDelta(b, call.args);
    MeaningSnoc(out, start);
    MeaningSnoc(out + [start], delta);
    MeaningSnoc(out + [start] + [delta], BlockEnd(b));
    NewCall(CallsOf(out), b, id, call.name, call.args);
  }

  lemma PutCallAdds(p: Parser, call: FunctionCall, id: string)
    requires var out := CloseText(p).out;
             var b := p.blockIndex + 1;
             && TextOf(WithCall(out, b, id, call)) == TextOf(out)
             && CallsOf(WithCall(out, b, id, call)) == CallsOf(out) + [Call(b, id, call.name, call.args)]
    ensures var q := PutCall(p, call, id);
            && TextOf(q.out) == TextOf(p.out)
            && CallsOf(q.out) == CallsOf(p.out) + [Call(q.blockIndex, id, call.name, call.args)]
  {
    CloseTextMeaning(p);
  }

  lemma PutCallMeaning(p: Parser, call: FunctionCall, id: string)
    requires Sound(p)
    ensures var q := PutCall(p, call, id);
            && TextOf(q.out) == TextOf(p.out)
            && CallsOf(q.out) == CallsOf(p.out) + [Call(q.blockIndex, id, call.name, call.args)]
  {
    ClosedScan(p);
    CallMeaning(CloseText(p).out, p.blockIndex + 1, id, call);
    PutCallAdds(p, call, id);
  }

  ghost predicate Content(p: Parser, items: seq<Item>, ids: nat -> string) {
    && TextOf(p.out) == JoinedText(items)
    && p.calls == |SaidCalls(items)| && CallsMatch(p.out, SaidCalls(items), ids)
    && p.stop == (if SaidReason(items).Some? then Some(MapFinish(SaidReason(items).value)) else None)
    && p.usage == SaidTokens(items)
    && |p.signatures| == |SaidSignatures(items)|
    && forall k :: 0 <= k < |p.signatures| ==>
                     p.signatures[k] == (ids(SaidSignatures(items)[k].0), SaidSignatures(items)[k].1)
  }

  lemma ItemSnoc(items: seq<Item>, item: Item)
    ensures var all := items + [item];
            && JoinedText(all) == JoinedText(items) + (if item.Visible? then item.part.text else "")
            && SaidCalls(all) == SaidCalls(items) + (if IsCall(item) then [item.part.call.value] else [])
            && SaidSignatures(all) == SaidSignatures(items)
                                      + (if item.Visible? && item.part.signature != "" && |SaidCalls(all)| > 0
                                         then [(|SaidCalls(all)| - 1, item.part.signature)] else [])
            && SaidReason(all) == (if item.Reason? then Some(item.reason) else SaidReason(items))
            && SaidTokens(all) == (if item.Spent? then item.tokens else SaidTokens(items))
  {
    assert (items + [item])[..|items|] == items;
  }

  /** What one visible part adds: its text, then its call, then its signature. */
  ghost predicate PartAdds(p: Parser, r: Parser, part: Part, ids: nat -> string) {
    && TextOf(r.out) == TextOf(p.out) + part.text
    && CallsOf(r.out) == CallsOf(p.out) + (if part.call.Some?
                                           then [Call(r.blockIndex, ids(p.calls), part.call.value.name, part.call.value.args)]
                                           else [])
    && r.calls == p.calls + (if part.call.Some? then 1 else 0)
    && r.stop == p.stop && r.usage == p.usage
    && r.signatures == p.signatures + (if part.signature != "" && r.calls > 0 then [(ids(r.calls - 1), part.signature)] else [])
  }

  lemma PartMeaning(p: Parser, part: Part, ids: nat -> string)
    requires Sound(p)
    ensures var r := PutContentOf(p, part, ids);
            && TextOf(r.out) == TextOf(p.out) + part.text
            && CallsOf(r.out) == CallsOf(p.out) + (if part.call.Some?
                                                   then [Call(r.blockIndex, ids(p.calls), part.call.value.name, part.call.value.args)]
                                                   else [])
  {
    var q := PutText(p, part.text);
    PutTextMeaning(p, part.text);
    if part.call.Some? {
      PutTextSound(p, part.text);
      PutCallMeaning(q, part.call.value, ids(q.calls));
    } else {
      assert CallsOf(p.out) + [] == CallsOf(p.out);
    }
  }

  lemma PartPut(p: Parser, part: Part, ids: nat -> string)
    requires Sound(p)
    ensures PartAdds(p, PutPart(p, part, ids), part, ids)
  {
    PartMeaning(p, part, ids);
    SignatureAdds(p, PutContentOf(p, part, ids), part, ids);
  }

  lemma SignatureAdds(p: Parser, q: Parser, part: Part, ids: nat -> string)
    requires q == PutContentOf(p, part, ids)
    ensures var r := PutSignature(q, part.signature, ids);
            && r == q.(signatures := r.signatures)
            && r.calls == p.calls + (if part.call.Some? then 1 else 0)
            && r.stop == p.stop && r.usage == p.usage
            && r.signatures == p.signatures + (if part.signature != "" && r.calls > 0 then [(ids(r.calls - 1), part.signature)] else [])
  {
    assert p.signatures + [] == p.signatures;
  }

  lemma PartContent(p: Parser, r: Parser, items: seq<Item>, part: Part, ids: nat -> string)
    requires Content(p, items, ids) && PartAdds(p, r, part, ids)
    ensures Content(r, items + [Visible(part)], ids)
  {
    ItemSnoc(items, Visible(part));
  }

  lemma OtherContent(p: Parser, items: seq<Item>, item: Item, ids: nat -> string)
    requires Content(p, items, ids) && !item.Visible?
    ensures Content(Put(p, item, ids), items + [item], ids)
  {
    ItemSnoc(items, item);
    assert JoinedText(items) + "" == JoinedText(items);
    assert SaidCalls(items) + [] == SaidCalls(items) && SaidSignatures(items) + [] == SaidSignatures(items);
  }

  lemma PutContent(p: Parser, items: seq<Item>, item: Item, ids: nat -> string)
    requires Sound(p) && Content(p, items, ids)
    ensures Content(Put(p, item, ids), items + [item], ids)
  {
    if item.Visible? {
      PartPut(p, item.part, ids);
      PartContent(p, PutPart(p, item.part, ids), items, item.part, ids);
    } else {
      OtherContent(p, items, item, ids);
    }
  }

  lemma {:induction false} PutAllContent(items: seq<Item>, ids: nat -> string)
    ensures Content(PutAll(FIRST, items, ids), items, ids)
  {
    if items == [] {
      assert [StreamStart("", "")][..0] == [];
    } else {
      var init := items[..|items| - 1];
      PutAllContent(init, ids);
      PutAllSound(init, ids);
      PutContent(PutAll(FIRST, init, ids), init, items[|items| - 1], ids);
      assert init + [items[|items| - 1]] == items;
    }
  }

  lemma SettledMeaning(p: Parser)
    ensures TextOf(Settled(p)) == TextOf(p.out) && CallsOf(Settled(p)) == CallsOf(p.out)
  {
    CloseTextMeaning(p);
    var out := CloseText(p).out;
    MeaningSnoc(out, BlockStart(0, "text"));
    MeaningSnoc(out + [BlockStart(0, "text")], BlockEnd(0));
  }

  lemma TailMeaning(out: seq<Event>, reason: StopReason, usage: Event)
    requires usage.Usage?
    ensures var all := out + [Finish(reason)] + [usage] + [StreamEnd];
            && TextOf(all) == TextOf(out) && CallsOf(all) == CallsOf(out)
            && StopOf(all) == reason && TokensOf(all) == (usage.input, usage.output)
  {
    MeaningSnoc(out, Finish(reason));
    MeaningSnoc(out + [Finish(reason)], usage);
    MeaningSnoc(out + [Finish(reason)] + [usage], StreamEnd);
  }

  /**
   * For every sequence of chunks the visible text arrives joined and every call in order under an id
   * of its own, its arguments whole; a call decides the stop reason; and each signature is cached for
   * the call it came with or, coming alone, for the latest call before it.
   */
  lemma StreamKeepsContent(items: seq<Item>, ids: nat -> string)
    ensures var out := StreamOf(items, ids);
            && TextOf(out) == JoinedText(items) && CallsMatch(out, SaidCalls(items), ids)
            && StopOf(out) == (if SaidCalls(items) != [] then ToolUse
                               else if SaidReason(items).Some? then MapFinish(SaidReason(items).value) else Stop)
            && TokensOf(out) == (SaidTokens(items).prompt, SaidTokens(items).candidates)
    ensures var cached := PutAll(FIRST, items, ids).signatures;
            && |cached| == |SaidSignatures(items)|
            && forall k :: 0 <= k < |cached| ==> cached[k] == (ids(SaidSignatures(items)[k].0), SaidSignatures(items)[k].1)
  {
    var p := PutAll(FIRST, items, ids);
    PutAllContent(items, ids);
    SettledMeaning(p);
    TailMeaning(Settled(p), StopFor(p), Usage(p.usage.prompt, p.usage.candidates, 0, 0));
  }
}
