/** What an OpenAI stream carries, said of the chunks themselves: of those read, and of those written. */
module OpenAIContent {
  import opened Options
  import opened StreamIR
  import opened OpenAIStream
  import OpenAIFacts
  import OpenAIPrinter

  // ----- what the chunks hold -----

  /** The chunks before the end marker. */
  function ChunksOf(lines: seq<Line>): seq<Chunk> {
    if lines == [] || lines[0] == Done then []
    else (if lines[0].Data? then [lines[0].chunk] else []) + ChunksOf(lines[1..])
  }

  function ChoicesOf(chunks: seq<Chunk>): seq<Choice> {
    if chunks == [] then [] else ChoicesOf(chunks[..|chunks| - 1]) + chunks[|chunks| - 1].choices
  }

  function TextIn(choices: seq<Choice>): string {
    if choices == [] then ""
    else
      var last := choices[|choices| - 1];
      TextIn(choices[..|choices| - 1]) + if last.content.Some? then last.content.value else ""
  }

  function PiecesIn(choices: seq<Choice>): seq<ToolPiece> {
    if choices == [] then [] else PiecesIn(choices[..|choices| - 1]) + choices[|choices| - 1].tools
  }

  /** The last reason some choice gives, or none. */
  function ReasonIn(choices: seq<Choice>): string {
    if choices == [] then ""
    else
      var last := choices[|choices| - 1];
      if last.finish.Some? && last.finish.value != "" then last.finish.value else ReasonIn(choices[..|choices| - 1])
  }

  /** The usage of the last chunk that has one, with choices or without. */
  function UsageIn(chunks: seq<Chunk>): Tokens {
    if chunks == [] then Tokens(0, 0)
    else if chunks[|chunks| - 1].usage.Some? then chunks[|chunks| - 1].usage.value
    else UsageIn(chunks[..|chunks| - 1])
  }

  /** The tool indices in the order they first appear. */
  function Indices(pieces: seq<ToolPiece>): seq<int> {
    if pieces == [] then []
    else
      var before, last := Indices(pieces[..|pieces| - 1]), pieces[|pieces| - 1];
      if last.index in before then before else before + [last.index]
  }

  /** The earliest piece of a tool index. */
  function Earliest(pieces: seq<ToolPiece>, index: int): Option<ToolPiece> {
    if pieces == [] then None
    else if pieces[0].index == index then Some(pieces[0])
    else Earliest(pieces[1..], index)
  }

  function ArgsIn(pieces: seq<ToolPiece>, index: int): string {
    if pieces == [] then ""
    else
      var last := pieces[|pieces| - 1];
      ArgsIn(pieces[..|pieces| - 1], index) + if last.index == index then last.args else ""
  }

  /** The call is the one the pieces of that index spell. */
  ghost predicate Spells(call: Call, pieces: seq<ToolPiece>, index: int) {
    && Earliest(pieces, index).Some?
    && call.id == Earliest(pieces, index).value.id && call.name == Earliest(pieces, index).value.name
    && call.args == ArgsIn(pieces, index)
  }

  /** OpenAI's word for an ended answer without calls. */
  predicate Means(word: string, stop: StopReason) {
    match stop
    case ToolUse => word == "tool_calls" || word == "function_call"
    case MaxTokens => word == "length"
    case ContentFilter => word == "content_filter"
    case Stop => word !in {"tool_calls", "function_call", "length", "content_filter"}
    case Errored => false
  }

  // ----- the items say the same -----

  /** What a sequence of items says, apart from its calls. */
  datatype Said = Said(text: string, pieces: seq<ToolPiece>, reason: Option<string>, usage: Option<Tokens>)

  const NOTHING := Said("", [], None, None)

  function Hear(s: Said, item: Item): Said {
    match item
    case Text(text) => s.(text := s.text + text)
    case Piece(t) => s.(pieces := s.pieces + [t])
    case Reason(reason) => s.(reason := Some(reason))
    case Spent(tokens) => s.(usage := Some(tokens))
  }

  function HearAll(items: seq<Item>): Said {
    if items == [] then NOTHING else Hear(HearAll(items[..|items| - 1]), items[|items| - 1])
  }

  function Then<T>(a: Option<T>, b: Option<T>): Option<T> {
    if b.Some? then b else a
  }

  function Followed(a: Said, b: Said): Said {
    Said(a.text + b.text, a.pieces + b.pieces, Then(a.reason, b.reason), Then(a.usage, b.usage))
  }

  lemma FollowedByNothing(a: Said)
    ensures Followed(a, NOTHING) == a && Followed(NOTHING, a) == a
  {
    assert a.text + "" == a.text && "" + a.text == a.text && a.pieces + [] == a.pieces && [] + a.pieces == a.pieces;
  }

  lemma FollowedHears(a: Said, b: Said, item: Item)
    ensures Followed(a, Hear(b, item)) == Hear(Followed(a, b), item)
  {
    if item.Text? {
      assert a.text + (b.text + item.text) == a.text + b.text + item.text;
    } else if item.Piece? {
      assert a.pieces + (b.pieces + [item.piece]) == a.pieces + b.pieces + [item.piece];
    }
  }

  lemma {:induction false} HearAppend(a: seq<Item>, b: seq<Item>)
    ensures HearAll(a + b) == Followed(HearAll(a), HearAll(b))
  {
    if b == [] {
      assert a + b == a;
      FollowedByNothing(HearAll(a));
    } else {
      var init, last := b[..|b| - 1], b[|b| - 1];
      assert (a + b)[..|a + b| - 1] == a + init;
      HearAppend(a, init);
      FollowedHears(HearAll(a), HearAll(init), last);
    }
  }

  lemma HearMaybe(item: Option<Item>)
    ensures HearAll(Maybe(item)) == if item.Some? then Hear(NOTHING, item.value) else NOTHING
  {
    if item.Some? {
      assert [item.value][..0] == [];
    }
  }

  lemma {:induction false} HearPieces(tools: seq<ToolPiece>)
    ensures HearAll(Pieces(tools)) == NOTHING.(pieces := tools)
  {
    if tools == [] {
      assert Pieces(tools) == [];
    } else {
      var init := tools[..|tools| - 1];
      HearPieces(init);
      assert Pieces(tools)[..|tools| - 1] == Pieces(init);
    }
  }

  /** What one choice says, with its chunk's usage. */
  function SaidBy(choice: Choice, usage: Option<Tokens>): Said {
    Said(if choice.content.Some? then choice.content.value else "", choice.tools,
         if choice.finish.Some? && choice.finish.value != "" then choice.finish else None, usage)
  }

  lemma HearChoice(choice: Choice, usage: Option<Tokens>)
    ensures HearAll(ItemsOfChoice(choice, usage)) == SaidBy(choice, usage)
  {
    var a, b, c := Maybe(ReasonOf(choice)), Maybe(SpentOf(usage)), Maybe(ContentOf(choice));
    HearAppend(a + b + c, Pieces(choice.tools));
    HearAppend(a + b, c);
    HearAppend(a, b);
    HearMaybe(ReasonOf(choice));
    HearMaybe(SpentOf(usage));
    HearMaybe(ContentOf(choice));
    HearPieces(choice.tools);
    assert "" + SaidBy(choice, usage).text == SaidBy(choice, usage).text && [] + choice.tools == choice.tools;
  }

  function ReasonSome(choices: seq<Choice>): Option<string> {
    if ReasonIn(choices) == "" then None else Some(ReasonIn(choices))
  }

  lemma {:induction false} HearChoices(choices: seq<Choice>, usage: Option<Tokens>)
    ensures HearAll(ItemsOfChoices(choices, usage))
         == Said(TextIn(choices), PiecesIn(choices), ReasonSome(choices), if choices == [] then None else usage)
  {
    if choices != [] {
      var init, last := choices[..|choices| - 1], choices[|choices| - 1];
      HearChoices(init, usage);
      HearChoice(last, usage);
      HearAppend(ItemsOfChoices(init, usage), ItemsOfChoice(last, usage));
    }
  }

  lemma HearChunk(chunk: Chunk)
    ensures HearAll(ItemsOfChunk(chunk))
         == Said(TextIn(chunk.choices), PiecesIn(chunk.choices), ReasonSome(chunk.choices), chunk.usage)
  {
    if chunk.usage.Some? && chunk.choices == [] {
      assert [Spent(chunk.usage.value)][..0] == [];
    } else {
      HearChoices(chunk.choices, chunk.usage);
    }
  }

  lemma {:induction false} ChoicesAppend(a: seq<Choice>, b: seq<Choice>)
    ensures TextIn(a + b) == TextIn(a) + TextIn(b) && PiecesIn(a + b) == PiecesIn(a) + PiecesIn(b)
    ensures ReasonSome(a + b) == Then(ReasonSome(a), ReasonSome(b))
  {
    if b == [] {
      assert a + b == a && TextIn(a) + "" == TextIn(a) && PiecesIn(a) + [] == PiecesIn(a);
    } else {
      var init, last := b[..|b| - 1], b[|b| - 1];
      assert (a + b)[..|a + b| - 1] == a + init;
      ChoicesAppend(a, init);
      Rejoin(TextIn(a), TextIn(init), if last.content.Some? then last.content.value else "");
      Rejoin(PiecesIn(a), PiecesIn(init), last.tools);
    }
  }

  lemma Rejoin<T>(a: seq<T>, b: seq<T>, c: seq<T>)
    ensures a + b + c == a + (b + c)
  {
  }

  function UsageSome(chunks: seq<Chunk>): Option<Tokens> {
    if chunks == [] then None else Then(UsageSome(chunks[..|chunks| - 1]), chunks[|chunks| - 1].usage)
  }

  lemma {:induction false} UsageIs(chunks: seq<Chunk>)
    ensures UsageIn(chunks) == if UsageSome(chunks).Some? then UsageSome(chunks).value else Tokens(0, 0)
  {
    if chunks != [] {
      UsageIs(chunks[..|chunks| - 1]);
    }
  }

  function SaidIn(chunks: seq<Chunk>): Said {
    var choices := ChoicesOf(chunks);
    Said(TextIn(choices), PiecesIn(choices), ReasonSome(choices), UsageSome(chunks))
  }

  lemma SaidSnoc(chunks: seq<Chunk>, chunk: Chunk)
    ensures SaidIn(chunks + [chunk])
         == Followed(SaidIn(chunks), Said(TextIn(chunk.choices), PiecesIn(chunk.choices), ReasonSome(chunk.choices), chunk.usage))
  {
    assert (chunks + [chunk])[..|chunks|] == chunks;
    ChoicesAppend(ChoicesOf(chunks), chunk.choices);
  }

  /** The chunks of lines without an end marker. */
  function DataOf(lines: seq<Line>): seq<Chunk> {
    if lines == [] then []
    else DataOf(lines[..|lines| - 1]) + if lines[|lines| - 1].Data? then [lines[|lines| - 1].chunk] else []
  }

  lemma {:induction false} HearLines(lines: seq<Line>)
    ensures HearAll(ItemsOfLines(lines)) == SaidIn(DataOf(lines))
  {
    if lines != [] {
      var init, last := lines[..|lines| - 1], lines[|lines| - 1];
      HearLines(init);
      HearAppend(ItemsOfLines(init), ItemsOfLine(last));
      if last.Data? {
        HearChunk(last.chunk);
        SaidSnoc(DataOf(init), last.chunk);
      } else {
        FollowedByNothing(HearAll(ItemsOfLines(init)));
        assert DataOf(init) + [] == DataOf(init);
      }
    }
  }

  lemma DataAppend(a: seq<Line>, b: seq<Line>)
    ensures DataOf(a + b) == DataOf(a) + DataOf(b)
  {
    if b == [] {
      assert a + b == a;
    } else {
      assert (a + b)[..|a + b| - 1] == a + b[..|b| - 1];
      DataAppend(a, b[..|b| - 1]);
    }
  }

  lemma {:induction false} ChunksAreData(lines: seq<Line>)
    ensures DataOf(UpToDone(lines)) == ChunksOf(lines)
  {
    if lines != [] && lines[0] != Done {
      ChunksAreData(lines[1..]);
      DataAppend([lines[0]], UpToDone(lines[1..]));
      assert [lines[0]][..0] == [];
    }
  }

  // ----- the reference functions over items -----

  lemma {:induction false} EarliestSnoc(pieces: seq<ToolPiece>, t: ToolPiece, index: int)
    ensures Earliest(pieces + [t], index)
         == if Earliest(pieces, index).Some? then Earliest(pieces, index) else if t.index == index then Some(t) else None
  {
    if pieces == [] {
      assert pieces + [t] == [t];
      assert [t][1..] == [];
    } else {
      assert (pieces + [t])[1..] == pieces[1..] + [t];
      EarliestSnoc(pieces[1..], t, index);
    }
  }

  ghost predicate SaySo(items: seq<Item>, s: Said, index: int) {
    && OpenAIFacts.JoinedText(items) == s.text
    && OpenAIFacts.Seen(items) == Indices(s.pieces)
    && OpenAIFacts.FirstPiece(items, index) == Earliest(s.pieces, index)
    && OpenAIFacts.JoinedArgs(items, index) == ArgsIn(s.pieces, index)
    && OpenAIFacts.LastReason(items) == (if s.reason.Some? then s.reason.value else "")
    && OpenAIFacts.LastSpent(items) == (if s.usage.Some? then s.usage.value else Tokens(0, 0))
  }

  lemma PieceSaysSo(init: seq<Item>, s: Said, t: ToolPiece, index: int)
    requires SaySo(init, s, index)
    ensures SaySo(init + [Piece(t)], Hear(s, Piece(t)), index)
  {
    assert (init + [Piece(t)])[..|init|] == init && (s.pieces + [t])[..|s.pieces|] == s.pieces;
    EarliestSnoc(s.pieces, t, index);
    assert s.text + "" == s.text && ArgsIn(s.pieces, index) + "" == ArgsIn(s.pieces, index);
  }

  lemma OtherSaysSo(init: seq<Item>, s: Said, item: Item, index: int)
    requires SaySo(init, s, index) && !item.Piece?
    ensures SaySo(init + [item], Hear(s, item), index)
  {
    assert (init + [item])[..|init|] == init;
    assert s.text + "" == s.text && ArgsIn(s.pieces, index) + "" == ArgsIn(s.pieces, index);
  }

  lemma {:induction false} ItemsSaySo(items: seq<Item>, index: int)
    ensures SaySo(items, HearAll(items), index)
  {
    if items != [] {
      var init, item := items[..|items| - 1], items[|items| - 1];
      ItemsSaySo(init, index);
      assert items == init + [item];
      if item.Piece? {
        PieceSaysSo(init, HearAll(init), item.piece, index);
      } else {
        OtherSaysSo(init, HearAll(init), item, index);
      }
    }
  }

  lemma LinesSaySo(lines: seq<Line>, index: int)
    ensures var items, chunks := ItemsOf(lines), ChunksOf(lines);
            var choices := ChoicesOf(chunks);
            && OpenAIFacts.JoinedText(items) == TextIn(choices)
            && OpenAIFacts.Seen(items) == Indices(PiecesIn(choices))
            && OpenAIFacts.FirstPiece(items, index) == Earliest(PiecesIn(choices), index)
            && OpenAIFacts.JoinedArgs(items, index) == ArgsIn(PiecesIn(choices), index)
            && OpenAIFacts.LastReason(items) == ReasonIn(choices)
            && OpenAIFacts.LastSpent(items) == UsageIn(chunks)
  {
    HearLines(UpToDone(lines));
    ChunksAreData(lines);
    ItemsSaySo(ItemsOf(lines), index);
    UsageIs(ChunksOf(lines));
  }

  // ----- the stream read -----

  /**
   * Of every sequence of chunks before the end marker the text of all choices arrives joined; one call for each tool
   * index, in order of first appearance, as its pieces spell it; the usage of the last chunk that has one; and tool
   * use with a call, else what the last reason given means.
   */
  lemma ChunksArrive(lines: seq<Line>, normalize: string -> string)
    ensures var out, chunks := StreamOf(ItemsOf(lines), normalize), ChunksOf(lines);
            var pieces := PiecesIn(ChoicesOf(chunks));
            && TextOf(out) == TextIn(ChoicesOf(chunks))
            && |CallsOf(out)| == |Indices(pieces)|
            && (forall k :: 0 <= k < |Indices(pieces)| ==> Spells(CallsOf(out)[k], pieces, Indices(pieces)[k]))
            && TokensOf(out) == (UsageIn(chunks).prompt, UsageIn(chunks).completion)
            && (if pieces != [] then StopOf(out) == ToolUse else Means(normalize(ReasonIn(ChoicesOf(chunks))), StopOf(out)))
  {
    var items, out := ItemsOf(lines), StreamOf(ItemsOf(lines), normalize);
    var pieces := PiecesIn(ChoicesOf(ChunksOf(lines)));
    OpenAIFacts.StreamKeepsContent(items, normalize);
    LinesSaySo(lines, 0);
    forall k | 0 <= k < |Indices(pieces)|
      ensures Spells(CallsOf(out)[k], pieces, Indices(pieces)[k])
    {
      LinesSaySo(lines, Indices(pieces)[k]);
      assert OpenAIFacts.Carries(CallsOf(out)[k], items, OpenAIFacts.Seen(items)[k]);
    }
    SomeIndex(pieces);
  }

  lemma {:induction false} SomeIndex(pieces: seq<ToolPiece>)
    ensures Indices(pieces) == [] <==> pieces == []
  {
    if pieces != [] {
      assert pieces[|pieces| - 1].index in Indices(pieces);
    }
  }

  // ----- the stream written -----

  /** OpenAI's word for each stop reason. */
  predicate Says(word: string, stop: StopReason) {
    match stop
    case MaxTokens => word == "length"
    case ToolUse => word == "tool_calls"
    case _ => word == "stop"
  }

  /** The last reason printed is in OpenAI's words. */
  lemma ReasonPrinted(evs: seq<Event>)
    requires WellFormed(evs)
    ensures Says(OpenAIFacts.LastReason(ItemsOf(OpenAIPrinter.LinesOf(evs))), StopOf(evs))
  {
    OpenAIPrinter.LastIsEnd(evs);
    var init := evs[..|evs| - 1];
    assert evs == init + [StreamEnd];
    OpenAIPrinter.EndMeansNothing(init);
    OpenAIPrinter.PrintAllHeard(init);
    OpenAIPrinter.OnlyData(init);
    OpenAIPrinter.UpToMarker(OpenAIPrinter.PrintAll(init).out);
    OpenAIPrinter.SaidIsMeant(init);
  }

  /**
   * For every well-formed stream an OpenAI client is sent chunks with the stream's text, one tool index for each call
   * whose pieces spell it, the usage if anything was counted, and the stop reason in OpenAI's words.
   */
  lemma ClientIsSent(evs: seq<Event>)
    requires WellFormed(evs)
    ensures var chunks := ChunksOf(OpenAIPrinter.LinesOf(evs));
            var pieces := PiecesIn(ChoicesOf(chunks));
            && TextIn(ChoicesOf(chunks)) == TextOf(evs)
            && |Indices(pieces)| == |CallsOf(evs)|
            && (forall k :: 0 <= k < |CallsOf(evs)| ==> Spells(CallsOf(evs)[k], pieces, Indices(pieces)[k]))
            && (UsageIn(chunks).prompt, UsageIn(chunks).completion)
               == (if TokensOf(evs).0 > 0 || TokensOf(evs).1 > 0 then TokensOf(evs) else (0, 0))
            && Says(ReasonIn(ChoicesOf(chunks)), StopOf(evs))
  {
    var lines := OpenAIPrinter.LinesOf(evs);
    var back, pieces := StreamOf(ItemsOf(lines), OpenAIPrinter.SameReason), PiecesIn(ChoicesOf(ChunksOf(lines)));
    OpenAIPrinter.ThereAndBack(evs);
    ChunksArrive(lines, OpenAIPrinter.SameReason);
    ReasonPrinted(evs);
    LinesSaySo(lines, 0);
    forall k | 0 <= k < |CallsOf(evs)|
      ensures Spells(CallsOf(evs)[k], pieces, Indices(pieces)[k])
    {
      assert SameCall(CallsOf(back)[k], CallsOf(evs)[k]);
      assert Spells(CallsOf(back)[k], pieces, Indices(pieces)[k]);
    }
  }
}
