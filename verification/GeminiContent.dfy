/** What a Gemini stream carries to the client, said of the chunks themselves. */
module GeminiContent {
  import opened Options
  import opened StreamIR
  import opened GeminiStream

  // ----- what the chunks hold -----

  function PartsOf(cs: seq<Candidate>): seq<Part> {
    if cs == [] then [] else PartsOf(cs[..|cs| - 1]) + cs[|cs| - 1].parts
  }

  function CandidatesOf(line: Line): seq<Candidate> {
    if line.Skipped? then [] else line.chunk.candidates
  }

  /** All parts of all chunks, in order. */
  function AllParts(lines: seq<Line>): seq<Part> {
    if lines == [] then [] else AllParts(lines[..|lines| - 1]) + PartsOf(CandidatesOf(lines[|lines| - 1]))
  }

  /** Those that are not the model's own thoughts. */
  function Shown(parts: seq<Part>): seq<Part> {
    if parts == [] then []
    else Shown(parts[..|parts| - 1]) + if parts[|parts| - 1].thought then [] else [parts[|parts| - 1]]
  }

  function TextIn(parts: seq<Part>): string {
    if parts == [] then "" else TextIn(parts[..|parts| - 1]) + parts[|parts| - 1].text
  }

  function CallsIn(parts: seq<Part>): seq<FunctionCall> {
    if parts == [] then []
    else CallsIn(parts[..|parts| - 1]) + if parts[|parts| - 1].call.Some? then [parts[|parts| - 1].call.value] else []
  }

  /** Each signature, with the number of the call it came with or, coming alone, of the latest call before it. */
  function SignaturesIn(parts: seq<Part>): seq<(nat, string)> {
    if parts == [] then []
    else
      var calls := |CallsIn(parts)|;
      SignaturesIn(parts[..|parts| - 1])
      + if parts[|parts| - 1].signature != "" && calls > 0 then [(calls - 1, parts[|parts| - 1].signature)] else []
  }

  /** The last reason some candidate gives. */
  function LastFinish(cs: seq<Candidate>): Option<string> {
    if cs == [] then None
    else if cs[|cs| - 1].finish != "" then Some(cs[|cs| - 1].finish)
    else LastFinish(cs[..|cs| - 1])
  }

  function LastReason(lines: seq<Line>): Option<string> {
    if lines == [] then None
    else
      var last := LastFinish(CandidatesOf(lines[|lines| - 1]));
      if last.Some? then last else LastReason(lines[..|lines| - 1])
  }

  /** The usage of the last chunk that counts anything. */
  function LastUsage(lines: seq<Line>): Tokens {
    if lines == [] then Tokens(0, 0)
    else if lines[|lines| - 1].Data? && (lines[|lines| - 1].chunk.usage.prompt > 0 || lines[|lines| - 1].chunk.usage.candidates > 0)
    then lines[|lines| - 1].chunk.usage
    else LastUsage(lines[..|lines| - 1])
  }

  /** Gemini's word for an ended answer. */
  predicate Means(word: string, stop: StopReason) {
    match stop
    case MaxTokens => word == "MAX_TOKENS"
    case ToolUse => word == "TOOL_CODE" || word == "FUNCTION_CALL"
    case ContentFilter => word in {"SAFETY", "RECITATION", "BLOCKLIST", "PROHIBITED_CONTENT", "SPII"}
    case Stop => word !in {"MAX_TOKENS", "TOOL_CODE", "FUNCTION_CALL", "SAFETY", "RECITATION", "BLOCKLIST", "PROHIBITED_CONTENT", "SPII"}
    case Errored => false
  }

  // ----- the items say the same -----

  function VisibleIn(items: seq<Item>): seq<Part> {
    if items == [] then []
    else VisibleIn(items[..|items| - 1]) + if items[|items| - 1].Visible? then [items[|items| - 1].part] else []
  }

  lemma PartsSnocMeaning(parts: seq<Part>, part: Part)
    ensures TextIn(parts + [part]) == TextIn(parts) + part.text
    ensures CallsIn(parts + [part]) == CallsIn(parts) + if part.call.Some? then [part.call.value] else []
    ensures SignaturesIn(parts + [part])
         == SignaturesIn(parts) + if part.signature != "" && |CallsIn(parts + [part])| > 0
                                  then [(|CallsIn(parts + [part])| - 1, part.signature)] else []
    ensures Shown(parts + [part]) == Shown(parts) + if part.thought then [] else [part]
  {
    assert (parts + [part])[..|parts|] == parts;
  }

  /** The item functions speak of the visible parts. */
  lemma {:induction false} ItemsSaySo(items: seq<Item>)
    ensures JoinedText(items) == TextIn(VisibleIn(items))
    ensures SaidCalls(items) == CallsIn(VisibleIn(items))
    ensures SaidSignatures(items) == SignaturesIn(VisibleIn(items))
  {
    if items != [] {
      var init, item := items[..|items| - 1], items[|items| - 1];
      ItemsSaySo(init);
      if item.Visible? {
        PartsSnocMeaning(VisibleIn(init), item.part);
      } else {
        assert VisibleIn(init) + [] == VisibleIn(init) && JoinedText(init) + "" == JoinedText(init);
        assert SaidCalls(init) + [] == SaidCalls(init) && SaidSignatures(init) + [] == SaidSignatures(init);
      }
    }
  }

  function Or<T>(a: Option<T>, b: Option<T>): Option<T> {
    if a.Some? then a else b
  }

  lemma {:induction false} ItemsAppend(a: seq<Item>, b: seq<Item>)
    ensures VisibleIn(a + b) == VisibleIn(a) + VisibleIn(b)
    ensures SaidReason(a + b) == Or(SaidReason(b), SaidReason(a))
    ensures SaidTokens(a + b) == if exists k :: 0 <= k < |b| && b[k].Spent? then SaidTokens(b) else SaidTokens(a)
  {
    if b == [] {
      assert a + b == a && VisibleIn(a) + [] == VisibleIn(a);
    } else {
      var init, last := b[..|b| - 1], b[|b| - 1];
      assert (a + b)[..|a + b| - 1] == a + init;
      ItemsAppend(a, init);
      SpentSnoc(init, last);
      assert b == init + [last];
      assert VisibleIn(a) + VisibleIn(init) + (if last.Visible? then [last.part] else []) == VisibleIn(a) + VisibleIn(b);
    }
  }

  lemma SpentSnoc(init: seq<Item>, last: Item)
    ensures (exists k :: 0 <= k < |init + [last]| && (init + [last])[k].Spent?)
            <==> last.Spent? || exists k :: 0 <= k < |init| && init[k].Spent?
  {
    if last.Spent? {
      assert (init + [last])[|init|].Spent?;
    }
    if k :| 0 <= k < |init| && init[k].Spent? {
      assert (init + [last])[k].Spent?;
    }
  }

  ghost predicate NoneSpent(items: seq<Item>) {
    forall k :: 0 <= k < |items| ==> !items[k].Spent?
  }

  lemma {:induction false} PartItems(parts: seq<Part>)
    ensures VisibleIn(ItemsOfParts(parts)) == Shown(parts)
    ensures SaidReason(ItemsOfParts(parts)) == None && NoneSpent(ItemsOfParts(parts))
  {
    if parts != [] {
      var init := parts[..|parts| - 1];
      PartItems(init);
      ItemsAppend(ItemsOfParts(init), Maybe(VisibleOf(parts[|parts| - 1])));
      OneItem(VisibleOf(parts[|parts| - 1]));
    }
  }

  lemma OneItem(item: Option<Item>)
    ensures VisibleIn(Maybe(item)) == if item.Some? && item.value.Visible? then [item.value.part] else []
    ensures SaidReason(Maybe(item)) == if item.Some? && item.value.Reason? then Some(item.value.reason) else None
    ensures SaidTokens(Maybe(item)) == if item.Some? && item.value.Spent? then item.value.tokens else Tokens(0, 0)
    ensures item.Some? && item.value.Spent? <==> exists k :: 0 <= k < |Maybe(item)| && Maybe(item)[k].Spent?
  {
    if item.Some? {
      assert [item.value][..0] == [];
      assert Maybe(item)[0] == item.value;
    }
  }

  lemma ShownAppend(a: seq<Part>, b: seq<Part>)
    ensures Shown(a + b) == Shown(a) + Shown(b)
  {
    if b == [] {
      assert a + b == a;
    } else {
      assert (a + b)[..|a + b| - 1] == a + b[..|b| - 1];
      ShownAppend(a, b[..|b| - 1]);
    }
  }

  lemma {:induction false} CandidateItems(cs: seq<Candidate>)
    ensures VisibleIn(ItemsOfCandidates(cs)) == Shown(PartsOf(cs))
    ensures SaidReason(ItemsOfCandidates(cs)) == LastFinish(cs) && NoneSpent(ItemsOfCandidates(cs))
  {
    if cs != [] {
      var init, c := cs[..|cs| - 1], cs[|cs| - 1];
      CandidateItems(init);
      PartItems(c.parts);
      OneItem(ReasonOf(c));
      ItemsAppend(ItemsOfCandidates(init), ItemsOfParts(c.parts));
      ItemsAppend(ItemsOfCandidates(init) + ItemsOfParts(c.parts), Maybe(ReasonOf(c)));
      ShownAppend(PartsOf(init), c.parts);
      assert Shown(PartsOf(cs)) + [] == Shown(PartsOf(cs));
    }
  }

  lemma LineItems(line: Line)
    ensures VisibleIn(ItemsOfLine(line)) == Shown(PartsOf(CandidatesOf(line)))
    ensures SaidReason(ItemsOfLine(line)) == LastFinish(CandidatesOf(line))
    ensures var counts := line.Data? && (line.chunk.usage.prompt > 0 || line.chunk.usage.candidates > 0);
            && (counts <==> exists k :: 0 <= k < |ItemsOfLine(line)| && ItemsOfLine(line)[k].Spent?)
            && (counts ==> SaidTokens(ItemsOfLine(line)) == line.chunk.usage)
  {
    if line.Data? {
      var items, spent := ItemsOfCandidates(line.chunk.candidates), SpentOf(line.chunk.usage);
      CandidateItems(line.chunk.candidates);
      ItemsAppend(items, Maybe(spent));
      OneItem(spent);
      assert Shown(PartsOf(line.chunk.candidates)) + [] == Shown(PartsOf(line.chunk.candidates));
      if spent.Some? {
        SpentSnoc(items, spent.value);
      } else {
        assert items + [] == items;
      }
    }
  }

  lemma {:induction false} LinesItems(lines: seq<Line>)
    ensures VisibleIn(ItemsOf(lines)) == Shown(AllParts(lines))
    ensures SaidReason(ItemsOf(lines)) == LastReason(lines) && SaidTokens(ItemsOf(lines)) == LastUsage(lines)
  {
    if lines != [] {
      var init, line := lines[..|lines| - 1], lines[|lines| - 1];
      LinesItems(init);
      LineItems(line);
      ItemsAppend(ItemsOf(init), ItemsOfLine(line));
      ShownAppend(AllParts(init), PartsOf(CandidatesOf(line)));
    }
  }

  // ----- the stream -----

  /**
   * Of every sequence of chunks the client receives exactly what is no thought: the text of the parts shown, joined,
   * and their calls in order, each under an id of its own; the usage is the last that counts anything, and the stop
   * reason is tool use with a call, else what the last reason given means.
   */
  lemma ChunksArrive(lines: seq<Line>, ids: nat -> string)
    ensures var out, shown := StreamOf(ItemsOf(lines), ids), Shown(AllParts(lines));
            && TextOf(out) == TextIn(shown) && CallsMatch(out, CallsIn(shown), ids)
            && TokensOf(out) == (LastUsage(lines).prompt, LastUsage(lines).candidates)
            && (CallsIn(shown) != [] ==> StopOf(out) == ToolUse)
            && (CallsIn(shown) == [] && LastReason(lines).Some? ==> Means(LastReason(lines).value, StopOf(out)))
            && (CallsIn(shown) == [] && LastReason(lines).None? ==> StopOf(out) == Stop)
    ensures var cached, said := PutAll(FIRST, ItemsOf(lines), ids).signatures, SignaturesIn(Shown(AllParts(lines)));
            && |cached| == |said| && forall k :: 0 <= k < |cached| ==> cached[k] == (ids(said[k].0), said[k].1)
  {
    LinesItems(lines);
    ItemsSaySo(ItemsOf(lines));
    StreamKeepsContent(ItemsOf(lines), ids);
  }

  // ----- thoughts leave no trace -----

  function WithoutThoughts(line: Line): Line {
    if line.Skipped? then line
    else Data(Chunk(seq(|line.chunk.candidates|, k requires 0 <= k < |line.chunk.candidates| =>
                          line.chunk.candidates[k].(parts := Shown(line.chunk.candidates[k].parts))), line.chunk.usage))
  }

  function AllWithoutThoughts(lines: seq<Line>): seq<Line> {
    seq(|lines|, k requires 0 <= k < |lines| => WithoutThoughts(lines[k]))
  }

  lemma {:induction false} ShownItems(parts: seq<Part>)
    ensures ItemsOfParts(Shown(parts)) == ItemsOfParts(parts)
  {
    if parts != [] {
      var init, last := parts[..|parts| - 1], parts[|parts| - 1];
      ShownItems(init);
      if last.thought {
        assert Shown(init) + [] == Shown(init) && ItemsOfParts(init) + [] == ItemsOfParts(init);
      } else {
        assert (Shown(init) + [last])[..|Shown(init)|] == Shown(init);
      }
    }
  }

  lemma {:induction false} ShownCandidates(cs: seq<Candidate>, ds: seq<Candidate>)
    requires |ds| == |cs| && forall k :: 0 <= k < |cs| ==> ds[k] == cs[k].(parts := Shown(cs[k].parts))
    ensures ItemsOfCandidates(ds) == ItemsOfCandidates(cs)
  {
    if cs != [] {
      ShownCandidates(cs[..|cs| - 1], ds[..|ds| - 1]);
      ShownItems(cs[|cs| - 1].parts);
    }
  }

  lemma {:induction false} SameItems(lines: seq<Line>)
    ensures ItemsOf(AllWithoutThoughts(lines)) == ItemsOf(lines)
  {
    if lines != [] {
      var init, line := lines[..|lines| - 1], lines[|lines| - 1];
      SameItems(init);
      assert AllWithoutThoughts(lines)[..|lines| - 1] == AllWithoutThoughts(init);
      if line.Data? {
        ShownCandidates(line.chunk.candidates, WithoutThoughts(line).chunk.candidates);
      }
    }
  }

  /** Chunks that differ in their thoughts alone give the same stream, event for event. */
  lemma ThoughtsLeaveNoTrace(lines: seq<Line>, others: seq<Line>, ids: nat -> string)
    requires AllWithoutThoughts(lines) == AllWithoutThoughts(others)
    ensures StreamOf(ItemsOf(lines), ids) == StreamOf(ItemsOf(others), ids)
  {
    SameItems(lines);
    SameItems(others);
  }
}
