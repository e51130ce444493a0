/** OpenAI chunk streams read into the neutral stream. */
module OpenAIStream {
  import opened Options
  import opened StreamIR

  // ----- decoded chunks -----

  datatype Tokens = Tokens(prompt: int, completion: int)

  datatype ToolPiece = ToolPiece(index: int, id: string, name: string, args: string)

  datatype Choice = Choice(finish: Option<string>, content: Option<string>, tools: seq<ToolPiece>)

  datatype Chunk = Chunk(choices: seq<Choice>, usage: Option<Tokens>)

  /** A line of the stream: one that carries no chunk, a chunk, or the end marker. */
  datatype Line = Skipped | Data(chunk: Chunk) | Done

  // ----- what the chunks say, in the order they say it -----

  datatype Item = Reason(reason: string) | Spent(tokens: Tokens) | Text(text: string) | Piece(piece: ToolPiece)

  function Pieces(tools: seq<ToolPiece>): seq<Item> {
    seq(|tools|, k requires 0 <= k < |tools| => Piece(tools[k]))
  }

  function ReasonOf(choice: Choice): Option<Item> {
    if choice.finish.Some? && choice.finish.value != "" then Some(Reason(choice.finish.value)) else None
  }

  function SpentOf(usage: Option<Tokens>): Option<Item> {
    if usage.Some? then Some(Spent(usage.value)) else None
  }

  function ContentOf(choice: Choice): Option<Item> {
    if choice.content.Some? && choice.content.value != "" then Some(Text(choice.content.value)) else None
  }

  function ItemsOfChoice(choice: Choice, usage: Option<Tokens>): seq<Item> {
    Maybe(ReasonOf(choice)) + Maybe(SpentOf(usage)) + Maybe(ContentOf(choice)) + Pieces(choice.tools)
  }

  function ItemsOfChoices(choices: seq<Choice>, usage: Option<Tokens>): seq<Item> {
    if choices == [] then []
    else ItemsOfChoices(choices[..|choices| - 1], usage) + ItemsOfChoice(choices[|choices| - 1], usage)
  }

  function ItemsOfChunk(chunk: Chunk): seq<Item> {
    if chunk.usage.Some? && chunk.choices == [] then [Spent(chunk.usage.value)]
    else ItemsOfChoices(chunk.choices, chunk.usage)
  }

  /** Lines after the end marker are not read. */
  function UpToDone(lines: seq<Line>): seq<Line> {
    if lines == [] || lines[0] == Done then [] else [lines[0]] + UpToDone(lines[1..])
  }

  function ItemsOfLine(line: Line): seq<Item> {
    if line.Data? then ItemsOfChunk(line.chunk) else []
  }

  function ItemsOfLines(lines: seq<Line>): seq<Item> {
    if lines == [] then [] else ItemsOfLines(lines[..|lines| - 1]) + ItemsOfLine(lines[|lines| - 1])
  }

  lemma NextLine(read: seq<Line>, lines: seq<Line>, i: nat)
    requires i < |lines| && lines[i] != Done
    ensures read + UpToDone(lines[i..]) == (read + [lines[i]]) + UpToDone(lines[i + 1..])
    ensures ItemsOfLines(read + [lines[i]]) == ItemsOfLines(read) + ItemsOfLine(lines[i])
  {
    assert lines[i..][1..] == lines[i + 1..];
    assert (read + [lines[i]])[..|read|] == read;
  }

  function ItemsOf(lines: seq<Line>): seq<Item> {
    ItemsOfLines(UpToDone(lines))
  }

  // ----- the parser -----

  datatype Parser = Parser(
    blockIndex: int,
    textOpen: bool,
    order: seq<int>,
    blocks: map<int, int>,
    hasTool: bool,
    finish: string,
    usage: Tokens,
    out: seq<Event>)

  const FIRST := Parser(-1, false, [], map[], false, "", Tokens(0, 0), [StreamStart("", "")])

  function PutText(p: Parser, text: string): Parser {
    if p.textOpen then p.(out := p.out + [TextDelta(p.blockIndex, text)])
    else p.(blockIndex := p.blockIndex + 1, textOpen := true,
            out := p.out + [BlockStart(p.blockIndex + 1, "text")] + [TextDelta(p.blockIndex + 1, text)])
  }

  function CloseText(p: Parser): Parser {
    if p.textOpen then p.(textOpen := false, out := p.out + [BlockEnd(p.blockIndex)]) else p
  }

  /** The first piece for a tool index closes an open text block and opens the call's own. */
  function OpenTool(p: Parser, t: ToolPiece): Parser {
    if t.index in p.blocks then p
    else
      var q := CloseText(p);
      var b := q.blockIndex + 1;
      q.(blockIndex := b, order := q.order + [b], blocks := q.blocks[t.index := b], hasTool := true,
         out := q.out + [ToolStart(b, t.id, t.name)])
  }

  function PutArgs(p: Parser, t: ToolPiece): Parser {
    if t.args != "" && t.index in p.blocks then p.(out := p.out + [ToolDelta(p.blocks[t.index], t.args)]) else p
  }

  function Put(p: Parser, item: Item): Parser {
    match item
    case Reason(reason) => p.(finish := reason)
    case Spent(tokens) => p.(usage := tokens)
    case Text(text) => PutText(p, text)
    case Piece(t) => PutArgs(OpenTool(p, t), t)
  }

  function PutAll(p: Parser, items: seq<Item>): Parser {
    if items == [] then p else Put(PutAll(p, items[..|items| - 1]), items[|items| - 1])
  }

  lemma {:induction false} PutAllAppend(p: Parser, a: seq<Item>, b: seq<Item>)
    ensures PutAll(p, a + b) == PutAll(PutAll(p, a), b)
  {
    if b == [] {
      assert a + b == a;
    } else {
      assert (a + b)[..|a + b| - 1] == a + b[..|b| - 1];
      PutAllAppend(p, a, b[..|b| - 1]);
    }
  }

  lemma PutAllSnoc(p: Parser, items: seq<Item>, item: Item)
    ensures PutAll(p, items + [item]) == Put(PutAll(p, items), item)
  {
    assert (items + [item])[..|items|] == items;
  }

  /** At most one item. */
  function PutMaybe(p: Parser, item: Option<Item>): Parser {
    if item.Some? then Put(p, item.value) else p
  }

  function Maybe(item: Option<Item>): seq<Item> {
    if item.Some? then [item.value] else []
  }

  lemma PutAllMaybe(p: Parser, item: Option<Item>)
    ensures PutAll(p, Maybe(item)) == PutMaybe(p, item)
  {
    if item.Some? {
      assert Maybe(item)[..0] == [];
    }
  }

  lemma PutChoice(p: Parser, a: Option<Item>, b: Option<Item>, c: Option<Item>, rest: seq<Item>)
    ensures PutAll(p, Maybe(a) + Maybe(b) + Maybe(c) + rest) == PutAll(PutMaybe(PutMaybe(PutMaybe(p, a), b), c), rest)
  {
    PutAllAppend(p, Maybe(a) + Maybe(b) + Maybe(c), rest);
    PutAllAppend(p, Maybe(a) + Maybe(b), Maybe(c));
    PutAllAppend(p, Maybe(a), Maybe(b));
    PutAllMaybe(p, a);
    PutAllMaybe(PutMaybe(p, a), b);
    PutAllMaybe(PutMaybe(PutMaybe(p, a), b), c);
  }

  function MapFinish(reason: string, hasTool: bool): StopReason {
    if hasTool then ToolUse
    else if reason == "tool_calls" || reason == "function_call" then ToolUse
    else if reason == "length" then MaxTokens
    else if reason == "content_filter" then ContentFilter
    else Stop
  }

  function Ends(order: seq<int>): (r: seq<Event>)
    ensures |r| == |order|
  {
    if order == [] then [] else Ends(order[..|order| - 1]) + [BlockEnd(order[|order| - 1])]
  }

  function Closing(p: Parser, normalize: string -> string): seq<Event> {
    [Finish(MapFinish(normalize(p.finish), p.hasTool))] + [Usage(p.usage.prompt, p.usage.completion, 0, 0)] + [StreamEnd]
  }

  /** Everything closed: the text block, the calls in order, and an empty block if there was none. */
  function Settled(p: Parser): seq<Event> {
    var out := CloseText(p).out + Ends(p.order);
    if p.blockIndex < 0 then out + [BlockStart(0, "text")] + [BlockEnd(0)] else out
  }

  function StreamOf(items: seq<Item>, normalize: string -> string): seq<Event> {
    var p := PutAll(FIRST, items);
    Settled(p) + Closing(p, normalize)
  }

  // ----- the loop -----

  class StreamParser {
    var blockIndex: int
    var textBlockOpen: bool
    var toolBlockList: seq<int>
    var toolBlocks: map<int, int>
    var hasToolUse: bool
    var finishReason: string
    var usage: Tokens
    var out: seq<Event>

    ghost function State(): Parser
      reads this
    {
      Parser(blockIndex, textBlockOpen, toolBlockList, toolBlocks, hasToolUse, finishReason, usage, out)
    }

    constructor ()
      ensures State() == FIRST
    {
      blockIndex, textBlockOpen, toolBlockList, toolBlocks := -1, false, [], map[];
      hasToolUse, finishReason, usage := false, "", Tokens(0, 0);
      out := [StreamStart("", "")];
    }

    method StreamToIR(lines: seq<Line>, normalize: string -> string) returns (events: seq<Event>)
      requires State() == FIRST
      modifies this
      ensures events == StreamOf(ItemsOf(lines), normalize)
    {
      ReadLines(lines);
      CloseBlocks();
      var stopReason := MapFinish(normalize(finishReason), hasToolUse);
      events := out + ([Finish(stopReason)] + [Usage(usage.prompt, usage.completion, 0, 0)] + [StreamEnd]);
    }

    method ReadLines(lines: seq<Line>)
      modifies this
      ensures State() == PutAll(old(State()), ItemsOf(lines))
    {
      var i := 0;
      ghost var read: seq<Line> := [];
      while i < |lines| && lines[i] != Done
        invariant 0 <= i <= |lines|
        invariant State() == PutAll(old(State()), ItemsOfLines(read)) && read + UpToDone(lines[i..]) == UpToDone(lines)
      {
        NextLine(read, lines, i);
        PutAllAppend(old(State()), ItemsOfLines(read), ItemsOfLine(lines[i]));
        if lines[i].Data? {
          ReadChunk(lines[i].chunk);
        }
        read := read + [lines[i]];
        i := i + 1;
      }
      assert read == UpToDone(lines);
    }

    method CloseBlocks()
      modifies `out, `textBlockOpen
      ensures out == Settled(old(State()))
    {
      if textBlockOpen {
        out := out + [BlockEnd(blockIndex)];
      }
      ghost var closed := out;
      var k := 0;
      while k < |toolBlockList|
        invariant 0 <= k <= |toolBlockList|
        invariant out == closed + Ends(toolBlockList[..k])
      {
        assert toolBlockList[..k + 1][..k] == toolBlockList[..k];
        out := out + [BlockEnd(toolBlockList[k])];
        k := k + 1;
      }
      assert toolBlockList[..k] == toolBlockList;
      if blockIndex < 0 {
        out := out + [BlockStart(0, "text")];
        out := out + [BlockEnd(0)];
      }
    }

    method ReadChunk(chunk: Chunk)
      modifies this
      ensures State() == PutAll(old(State()), ItemsOfChunk(chunk))
    {
      if chunk.usage.Some? && chunk.choices == [] {
        PutAllSnoc(State(), [], Spent(chunk.usage.value));
        usage := chunk.usage.value;
        return;
      }
      var i := 0;
      assert chunk.choices[..0] == [];
      while i < |chunk.choices|
        invariant 0 <= i <= |chunk.choices|
        invariant State() == PutAll(old(State()), ItemsOfChoices(chunk.choices[..i], chunk.usage))
      {
        PutAllAppend(old(State()), ItemsOfChoices(chunk.choices[..i], chunk.usage), ItemsOfChoice(chunk.choices[i], chunk.usage));
        ReadChoice(chunk.choices[i], chunk.usage);
        assert chunk.choices[..i + 1][..i] == chunk.choices[..i];
        i := i + 1;
      }
      assert chunk.choices[..i] == chunk.choices;
    }

    method ReadChoice(choice: Choice, chunkUsage: Option<Tokens>)
      modifies this
      ensures State() == PutAll(old(State()), ItemsOfChoice(choice, chunkUsage))
    {
      PutChoice(State(), ReasonOf(choice), SpentOf(chunkUsage), ContentOf(choice), Pieces(choice.tools));
      if choice.finish.Some? && choice.finish.value != "" {
        finishReason := choice.finish.value;
      }
      if chunkUsage.Some? {
        usage := chunkUsage.value;
      }
      if choice.content.Some? && choice.content.value != "" {
        ReadText(choice.content.value);
      }
      ReadTools(choice.tools);
    }

    method ReadTools(tools: seq<ToolPiece>)
      modifies this
      ensures State() == PutAll(old(State()), Pieces(tools))
    {
      var k := 0;
      while k < |tools|
        invariant 0 <= k <= |tools|
        invariant State() == PutAll(old(State()), Pieces(tools[..k]))
      {
        assert Pieces(tools[..k + 1]) == Pieces(tools[..k]) + [Piece(tools[k])];
        PutAllSnoc(old(State()), Pieces(tools[..k]), Piece(tools[k]));
        ReadTool(tools[k]);
        k := k + 1;
      }
      assert tools[..k] == tools;
    }

    method ReadText(text: string)
      modifies this
      ensures State() == Put(old(State()), Text(text))
    {
      if !textBlockOpen {
        blockIndex := blockIndex + 1;
        out := out + [BlockStart(blockIndex, "text")];
        textBlockOpen := true;
      }
      out := out + [TextDelta(blockIndex, text)];
    }

    method ReadTool(t: ToolPiece)
      modifies this
      ensures State() == Put(old(State()), Piece(t))
    {
      if t.index !in toolBlocks {
        if textBlockOpen {
          out := out + [BlockEnd(blockIndex)];
          textBlockOpen := false;
        }
        blockIndex := blockIndex + 1;
        toolBlocks := toolBlocks[t.index := blockIndex];
        toolBlockList := toolBlockList + [blockIndex];
        hasToolUse := true;
        out := out + [ToolStart(blockIndex, t.id, t.name)];
      }
      if t.args != "" {
        out := out + [ToolDelta(toolBlocks[t.index], t.args)];
      }
    }
  }
}
