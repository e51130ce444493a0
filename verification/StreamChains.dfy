/** What a Responses client receives of a whole stream, and from which upstreams. */
module StreamChains {
  import opened Options
  import opened StreamIR
  import opened ResponsesStream
  import GeminiStream
  import GeminiContent
  import OpenAIStream
  import OpenAIFacts

  // ----- what the client puts together -----

  function SentText(sent: seq<Sse>): string {
    if sent == [] then ""
    else SentText(sent[..|sent| - 1]) + if sent[|sent| - 1].TextPiece? then sent[|sent| - 1].piece else ""
  }

  /** Argument pieces belong to the call announced last. */
  function GrowLast(calls: seq<Call>, piece: string): seq<Call> {
    if calls == [] then []
    else calls[|calls| - 1 := calls[|calls| - 1].(args := calls[|calls| - 1].args + piece)]
  }

  function CallsWith(calls: seq<Call>, s: Sse): seq<Call> {
    match s
    case ItemAdded(i, FunctionCall(id, name)) => calls + [Call(i, id, name, "")]
    case ArgsPiece(_, _, piece) => GrowLast(calls, piece)
    case _ => calls
  }

  function SentCalls(sent: seq<Sse>): seq<Call> {
    if sent == [] then [] else CallsWith(SentCalls(sent[..|sent| - 1]), sent[|sent| - 1])
  }

  lemma SentSnoc(sent: seq<Sse>, s: Sse)
    ensures SentText(sent + [s]) == SentText(sent) + if s.TextPiece? then s.piece else ""
    ensures SentCalls(sent + [s]) == CallsWith(SentCalls(sent), s)
  {
    assert (sent + [s])[..|sent|] == sent;
  }

  // ----- the meaning arrives -----

  ghost predicate SameCalls(a: seq<Call>, b: seq<Call>) {
    |a| == |b| && forall k :: 0 <= k < |a| ==> SameCall(a[k], b[k])
  }

  ghost predicate Arrived(evs: seq<Event>, c: Context, w: Writer) {
    && SentText(w.sent) == TextOf(evs) && SameCalls(SentCalls(w.sent), CallsOf(evs))
    && (w.input, w.output) == TokensOf(evs)
    && (w.cur.Some? && w.cur.value.blockType == "tool_use" ==>
          CallsOf(evs) != [] && CallsOf(evs)[|CallsOf(evs)| - 1].block == c.blocks - 1)
  }

  lemma ExtendIsGrowLast(calls: seq<Call>, block: int, json: string)
    requires calls != [] && calls[|calls| - 1].block == block
    requires forall j, k :: 0 <= j < k < |calls| ==> calls[j].block != calls[k].block
    ensures Extend(calls, block, json) == GrowLast(calls, json)
  {
  }

  lemma GrowTogether(a: seq<Call>, b: seq<Call>, json: string)
    requires SameCalls(a, b)
    ensures SameCalls(GrowLast(a, json), GrowLast(b, json))
    ensures json == "" ==> SameCalls(a, GrowLast(b, json))
    ensures b != [] ==> |GrowLast(b, json)| == |b| && GrowLast(b, json)[|b| - 1].block == b[|b| - 1].block
  {
    if b != [] {
      assert b[|b| - 1].args + "" == b[|b| - 1].args;
    }
  }

  lemma TextArrives(o: Source, evs: seq<Event>, i: int, text: string, c: Context, w: Writer)
    requires Arrived(evs, c, w) && w.cur.Some?
    ensures Arrived(evs + [TextDelta(i, text)], c, Translate(o, w, TextDelta(i, text)))
  {
    MeaningSnoc(evs, TextDelta(i, text));
    SentSnoc(w.sent, TextPiece(w.cur.value.outputIndex, o.messageID, text));
    assert TextOf(evs) + "" == TextOf(evs);
  }

  lemma ReasoningArrives(o: Source, evs: seq<Event>, ev: Event, c: Context, w: Writer)
    requires Arrived(evs, c, w) && w.cur.Some? && ev.ReasoningDelta?
    ensures Arrived(evs + [ev], c, Translate(o, w, ev))
  {
    MeaningSnoc(evs, ev);
    SentSnoc(w.sent, ReasoningPiece(w.cur.value.outputIndex, w.cur.value.itemID, ev.text));
    assert SentText(w.sent) + "" == SentText(w.sent) && TextOf(evs) + "" == TextOf(evs);
  }

  lemma ArgsMeaning(evs: seq<Event>, i: int, json: string, c: Context)
    requires ContextSound(evs, c)
    requires CallsOf(evs) != [] && CallsOf(evs)[|CallsOf(evs)| - 1].block == i
    ensures var all := evs + [ToolDelta(i, json)];
            CallsOf(all) == GrowLast(CallsOf(evs), json) && TextOf(all) == TextOf(evs) && TokensOf(all) == TokensOf(evs)
  {
    MeaningSnoc(evs, ToolDelta(i, json));
    ExtendIsGrowLast(CallsOf(evs), i, json);
    assert TextOf(evs) + "" == TextOf(evs);
  }

  lemma ArgsSent(sent: seq<Sse>, i: int, id: string, json: string)
    ensures var all := sent + [ArgsPiece(i, id, json)];
            SentText(all) == SentText(sent) && SentCalls(all) == GrowLast(SentCalls(sent), json)
  {
    SentSnoc(sent, ArgsPiece(i, id, json));
    assert SentText(sent) + "" == SentText(sent);
  }

  lemma ArgsArrive(o: Source, evs: seq<Event>, i: int, json: string, c: Context, w: Writer)
    requires Arrived(evs, c, w) && ContextSound(evs, c) && w.cur.Some? && i == c.blocks - 1
    requires w.cur.value.blockType == "tool_use"
    ensures Arrived(evs + [ToolDelta(i, json)], c, Translate(o, w, ToolDelta(i, json)))
  {
    ArgsMeaning(evs, i, json, c);
    ArgsSent(w.sent, w.cur.value.outputIndex, w.cur.value.toolID, json);
    GrowTogether(SentCalls(w.sent), CallsOf(evs), json);
  }

  lemma BlockStartArrives(o: Source, evs: seq<Event>, ev: Event, c: Context, w: Writer, d: Context)
    requires Arrived(evs, c, w) && ev.BlockStart? && Advance(c, ev) == Some(d)
    ensures Arrived(evs + [ev], d, Translate(o, w, ev))
  {
    MeaningSnoc(evs, ev);
    assert SentText(w.sent) + "" == SentText(w.sent) && TextOf(evs) + "" == TextOf(evs);
    SentSnoc(w.sent, ItemAdded(w.outputIndex, AddedItem(o, ItemID(o, w.begun), ev.blockType)));
  }

  lemma ToolStartArrives(o: Source, evs: seq<Event>, ev: Event, c: Context, w: Writer, d: Context)
    requires Arrived(evs, c, w) && ev.ToolStart? && Advance(c, ev) == Some(d)
    ensures Arrived(evs + [ev], d, Translate(o, w, ev))
  {
    MeaningSnoc(evs, ev);
    assert SentText(w.sent) + "" == SentText(w.sent) && TextOf(evs) + "" == TextOf(evs);
    SentSnoc(w.sent, ItemAdded(w.outputIndex, FunctionCall(ev.id, ev.name)));
  }

  lemma BlockEndArrives(o: Source, evs: seq<Event>, ev: Event, c: Context, w: Writer, d: Context)
    requires Arrived(evs, c, w) && ev.BlockEnd? && w.cur.Some?
    ensures Arrived(evs + [ev], d, Translate(o, w, ev))
  {
    MeaningSnoc(evs, ev);
    assert SentText(w.sent) + "" == SentText(w.sent) && TextOf(evs) + "" == TextOf(evs);
    SentSnoc(w.sent, ItemDone(w.cur.value.outputIndex, DoneItem(o, w.cur.value)));
  }

  lemma OtherArrives(o: Source, evs: seq<Event>, ev: Event, c: Context, w: Writer, d: Context)
    requires WriterInStep(c, w) && Arrived(evs, c, w) && Advance(c, ev) == Some(d)
    requires ev.StreamStart? || ev.Finish? || ev.Usage? || ev.StreamEnd?
    ensures Arrived(evs + [ev], d, Translate(o, w, ev))
  {
    MeaningSnoc(evs, ev);
    assert SentText(w.sent) + "" == SentText(w.sent) && TextOf(evs) + "" == TextOf(evs);
    if ev.StreamEnd? {
      SentSnoc(w.sent, Completed(w.input, w.output, w.input + w.output));
    }
  }

  lemma FirstArrives(o: Source)
    ensures Arrived([], START, TranslateAll(o, []))
  {
    SentSnoc([], Created);
    assert [] + [Created] == CREATED.sent;
  }

  /** The writer's current block is the one the stream has open. */
  ghost predicate WriterInStep(c: Context, w: Writer) {
    c.open == OpenAs(c, w.cur) && (w.cur.Some? ==> c.blocks > 0) && (c.phase != Body ==> w.cur.None?)
  }

  lemma OnlyOpen(c: Context, w: Writer, i: int)
    requires WriterInStep(c, w) && i in c.open
    ensures w.cur.Some? && i == c.blocks - 1 && c.open[i] == w.cur.value.blockType && c.open - {i} == map[]
  {
  }

  lemma OpensAlone(c: Context, w: Writer, ev: Event, d: Context)
    requires WriterInStep(c, w) && Advance(c, ev) == Some(d) && |d.open| <= 1 && (ev.BlockStart? || ev.ToolStart?)
    ensures w.cur.None?
  {
    if w.cur.Some? {
      OnlyOpen(c, w, c.blocks - 1);
      TwoOpen(d.open, c.blocks - 1, c.blocks);
    }
  }

  lemma SameBlock(o: Source, w: Writer, ev: Event)
    requires !ev.BlockStart? && !ev.ToolStart? && !ev.BlockEnd?
    ensures var cur := Translate(o, w, ev).cur;
            cur.Some? == w.cur.Some? && (cur.Some? ==> cur.value.blockType == w.cur.value.blockType)
  {
  }

  lemma WriterOpens(o: Source, c: Context, w: Writer, ev: Event, d: Context)
    requires WriterInStep(c, w) && w.cur.None? && Advance(c, ev) == Some(d) && (ev.BlockStart? || ev.ToolStart?)
    ensures WriterInStep(d, Translate(o, w, ev))
  {
  }

  lemma WriterNext(o: Source, c: Context, w: Writer, ev: Event, d: Context)
    requires WriterInStep(c, w) && Advance(c, ev) == Some(d) && |d.open| <= 1
    ensures WriterInStep(d, Translate(o, w, ev))
  {
    if ev.BlockStart? || ev.ToolStart? {
      OpensAlone(c, w, ev, d);
      WriterOpens(o, c, w, ev, d);
    } else if ev.BlockEnd? {
      OnlyOpen(c, w, ev.index);
    } else {
      SameBlock(o, w, ev);
    }
  }

  lemma {:induction false} WriterAlong(o: Source, evs: seq<Event>)
    requires Sequential(evs)
    ensures WriterInStep(ScanOne(evs).value, TranslateAll(o, evs))
  {
    if evs != [] {
      var init := evs[..|evs| - 1];
      WriterAlong(o, init);
      WriterNext(o, ScanOne(init).value, TranslateAll(o, init), evs[|evs| - 1], ScanOne(evs).value);
    }
  }

  /** What a sequential stream opens next is in step with what was sent. */
  lemma StepOf(o: Source, init: seq<Event>, ev: Event)
    requires Sequential(init + [ev])
    ensures Sequential(init) && Advance(ScanOne(init).value, ev) == Some(ScanOne(init + [ev]).value)
    ensures WriterInStep(ScanOne(init).value, TranslateAll(o, init))
    ensures ContextSound(init, ScanOne(init).value)
    ensures TranslateAll(o, init + [ev]) == Translate(o, TranslateAll(o, init), ev)
  {
    assert (init + [ev])[..|init|] == init;
    WriterAlong(o, init);
    SequentialScans(init);
    ScanSound(init);
  }

  lemma {:induction false} ArrivesAlong(o: Source, evs: seq<Event>)
    requires Sequential(evs)
    ensures Arrived(evs, ScanOne(evs).value, TranslateAll(o, evs))
  {
    if evs == [] {
      FirstArrives(o);
    } else {
      var init, ev := evs[..|evs| - 1], evs[|evs| - 1];
      assert evs == init + [ev];
      StepOf(o, init, ev);
      ArrivesAlong(o, init);
      ArrivesNext(o, init, ev, ScanOne(init).value, TranslateAll(o, init), ScanOne(evs).value);
    }
  }

  lemma ArrivesNext(o: Source, evs: seq<Event>, ev: Event, c: Context, w: Writer, d: Context)
    requires WriterInStep(c, w) && Arrived(evs, c, w) && ContextSound(evs, c) && Advance(c, ev) == Some(d)
    ensures Arrived(evs + [ev], d, Translate(o, w, ev))
  {
    match ev
    case TextDelta(i, text) =>
      OnlyOpen(c, w, i);
      TextArrives(o, evs, i, text, c, w);
    case ReasoningDelta(i, _, _) =>
      OnlyOpen(c, w, i);
      ReasoningArrives(o, evs, ev, c, w);
    case ToolDelta(i, json) =>
      OnlyOpen(c, w, i);
      ArgsArrive(o, evs, i, json, c, w);
    case BlockStart(_, _) => BlockStartArrives(o, evs, ev, c, w, d);
    case ToolStart(_, _, _) => ToolStartArrives(o, evs, ev, c, w, d);
    case BlockEnd(i) =>
      OnlyOpen(c, w, i);
      BlockEndArrives(o, evs, ev, c, w, d);
    case _ => OtherArrives(o, evs, ev, c, w, d);
  }

  lemma EndsCompleted(o: Source, evs: seq<Event>)
    requires WellFormed(evs) && Sequential(evs)
    ensures var w := TranslateAll(o, evs);
            w.sent != [] && w.sent[|w.sent| - 1] == Completed(w.input, w.output, w.input + w.output)
  {
    assert evs[|evs| - 1].StreamEnd?;
  }

  /** Of a sequential stream the client receives the text, every call whole, and the usage, last of all; its items
      are paired unless a reasoning block's signature unpacks to something else than it said. */
  lemma SequentialArrives(o: Source, evs: seq<Event>)
    requires WellFormed(evs) && Sequential(evs)
    ensures var sent := TranslateAll(o, evs).sent;
            && (Paired(sent) <==> SummariesHold(o, evs))
            && SentText(sent) == TextOf(evs) && SameCalls(SentCalls(sent), CallsOf(evs))
            && sent != []
            && sent[|sent| - 1] == Completed(TokensOf(evs).0, TokensOf(evs).1, TokensOf(evs).0 + TokensOf(evs).1)
  {
    PairedIff(o, evs);
    ArrivesAlong(o, evs);
    EndsCompleted(o, evs);
  }

  // ----- streams without reasoning -----

  predicate Thoughtless(evs: seq<Event>) {
    forall k :: 0 <= k < |evs| && evs[k].BlockStart? ==> evs[k].blockType == "text"
  }

  lemma {:induction false} NoThoughts(evs: seq<Event>)
    requires Thoughtless(evs)
    ensures ThoughtsOf(evs) == map[]
  {
    if evs != [] {
      NoThoughts(evs[..|evs| - 1]);
    }
  }

  /** Without reasoning blocks, pairing is a matter of order alone, and the ids are kept. */
  lemma ThoughtlessPairedIff(o: Source, evs: seq<Event>)
    requires WellFormed(evs) && Thoughtless(evs)
    ensures Paired(TranslateAll(o, evs).sent) <==> Sequential(evs)
    ensures IdsKept(TranslateAll(o, evs).sent) <==> Sequential(evs)
  {
    NoThoughts(evs);
    PairedIff(o, evs);
    if Sequential(evs) {
      IdsKeptIff(o, evs);
    }
  }

  lemma {:induction false} GeminiThoughtless(items: seq<GeminiStream.Item>, ids: nat -> string)
    ensures Thoughtless(GeminiStream.PutAll(GeminiStream.FIRST, items, ids).out)
  {
    if items != [] {
      GeminiThoughtless(items[..|items| - 1], ids);
      PutThoughtless(GeminiStream.PutAll(GeminiStream.FIRST, items[..|items| - 1], ids), items[|items| - 1], ids);
    }
  }

  lemma PutThoughtless(p: GeminiStream.Parser, item: GeminiStream.Item, ids: nat -> string)
    requires Thoughtless(p.out)
    ensures Thoughtless(GeminiStream.Put(p, item, ids).out)
  {
    if item.Visible? {
      var q := GeminiStream.PutText(p, item.part.text);
      assert Thoughtless(q.out) && Thoughtless(GeminiStream.CloseText(q).out);
    }
  }

  lemma {:induction false} OpenAIThoughtless(items: seq<OpenAIStream.Item>)
    ensures Thoughtless(OpenAIStream.PutAll(OpenAIStream.FIRST, items).out)
  {
    if items != [] {
      OpenAIThoughtless(items[..|items| - 1]);
    }
  }

  // ----- from which upstreams -----

  /** The calls are those said, each whole and under the next id. */
  ghost predicate SaidInTurn(sent: seq<Call>, said: seq<GeminiStream.FunctionCall>, ids: nat -> string) {
    && |sent| == |said|
    && forall k :: 0 <= k < |said| ==> sent[k].id == ids(k) && sent[k].name == said[k].name && sent[k].args == said[k].args
  }

  lemma SaidThrough(evs: seq<Event>, sent: seq<Call>, said: seq<GeminiStream.FunctionCall>, ids: nat -> string)
    requires SameCalls(sent, CallsOf(evs)) && GeminiStream.CallsMatch(evs, said, ids)
    ensures SaidInTurn(sent, said, ids)
  {
    forall k | 0 <= k < |said|
      ensures sent[k].id == ids(k) && sent[k].name == said[k].name && sent[k].args == said[k].args
    {
      assert SameCall(sent[k], CallsOf(evs)[k]);
      assert SameCall(CallsOf(evs)[k], Call(0, ids(k), said[k].name, said[k].args));
    }
  }

  lemma {:induction false} ArrivesWhole(o: Source, evs: seq<Event>, text: string, said: seq<GeminiStream.FunctionCall>,
                                        ids: nat -> string)
    requires WellFormed(evs) && Sequential(evs) && Thoughtless(evs)
    requires TextOf(evs) == text && GeminiStream.CallsMatch(evs, said, ids)
    ensures var sent := TranslateAll(o, evs).sent;
            IdsKept(sent) && SentText(sent) == text && SaidInTurn(SentCalls(sent), said, ids)
  {
    ThoughtlessPairedIff(o, evs);
    SequentialArrives(o, evs);
    SaidThrough(evs, SentCalls(TranslateAll(o, evs).sent), said, ids);
  }

  lemma {:induction false} GeminiStreamThoughtless(items: seq<GeminiStream.Item>, ids: nat -> string)
    ensures Thoughtless(GeminiStream.StreamOf(items, ids))
  {
    GeminiThoughtless(items, ids);
    var p := GeminiStream.PutAll(GeminiStream.FIRST, items, ids);
    assert Thoughtless(GeminiStream.CloseText(p).out);
    assert Thoughtless(GeminiStream.Settled(p));
  }

  /** Whatever the chunks, what a Gemini stream shows reaches a Responses client whole. */
  lemma {:induction false} GeminiReachesResponses(o: Source, lines: seq<GeminiStream.Line>, ids: nat -> string)
    ensures var sent := TranslateAll(o, GeminiStream.StreamOf(GeminiStream.ItemsOf(lines), ids)).sent;
            var shown := GeminiContent.Shown(GeminiContent.AllParts(lines));
            && IdsKept(sent) && SentText(sent) == GeminiContent.TextIn(shown)
            && SaidInTurn(SentCalls(sent), GeminiContent.CallsIn(shown), ids)
  {
    var items, shown := GeminiStream.ItemsOf(lines), GeminiContent.Shown(GeminiContent.AllParts(lines));
    GeminiStream.StreamSequential(items, ids);
    GeminiContent.ChunksArrive(lines, ids);
    GeminiStreamThoughtless(items, ids);
    ArrivesWhole(o, GeminiStream.StreamOf(items, ids), GeminiContent.TextIn(shown), GeminiContent.CallsIn(shown), ids);
  }

  lemma {:induction false} SequentialPrefix(a: seq<Event>, b: seq<Event>)
    requires Sequential(a + b)
    ensures Sequential(a)
  {
    if b == [] {
      assert a + b == a;
    } else {
      assert (a + b)[..|a + b| - 1] == a + b[..|b| - 1];
      SequentialPrefix(a, b[..|b| - 1]);
    }
  }

  lemma {:induction false} FewOpen(evs: seq<Event>)
    requires Sequential(evs)
    ensures |ScanOne(evs).value.open| <= 1
  {
  }

  lemma ParserPrefix(items: seq<OpenAIStream.Item>, normalize: string -> string) returns (rest: seq<Event>)
    ensures OpenAIStream.StreamOf(items, normalize) == OpenAIStream.PutAll(OpenAIStream.FIRST, items).out + rest
  {
    var p := OpenAIStream.PutAll(OpenAIStream.FIRST, items);
    var all := OpenAIStream.StreamOf(items, normalize);
    rest := all[|p.out|..];
    assert p.out == all[..|p.out|];
  }

  /** How many blocks the parser leaves open. */
  function OpenLoad(p: OpenAIStream.Parser): nat {
    |p.order| + if p.textOpen then 1 else 0
  }

  lemma OpenCount(p: OpenAIStream.Parser)
    requires OpenAIFacts.Sound(p)
    ensures |OpenAIFacts.OpenBlocks(p)| == OpenLoad(p)
  {
    ToolsCount(p.order, p.blockIndex);
    if p.textOpen {
      var tools := OpenAIFacts.ToolsOpen(p.order);
      assert OpenAIFacts.OpenBlocks(p).Keys == tools.Keys + {p.blockIndex};
    }
  }

  lemma {:induction false} ToolsCount(order: seq<int>, bound: int)
    requires OpenAIFacts.Increasing(order, bound)
    ensures |OpenAIFacts.ToolsOpen(order)| == |order|
  {
    if order != [] {
      var init, last := order[..|order| - 1], order[|order| - 1];
      ToolsCount(init, bound);
      assert last !in init;
      assert order == init + [last];
      assert OpenAIFacts.ToolsOpen(order).Keys == OpenAIFacts.ToolsOpen(init).Keys + {last};
    }
  }

  /** Never more than one block open, item by item. */
  predicate Calm(items: seq<OpenAIStream.Item>) {
    items != [] ==>
      var p := OpenAIStream.PutAll(OpenAIStream.FIRST, items);
      Calm(items[..|items| - 1]) && OpenLoad(p) <= 1
  }

  lemma OneMore(out: seq<Event>, ev: Event)
    requires Sequential(out) && Scan(out + [ev]).Some? && |Scan(out + [ev]).value.open| <= 1
    ensures Sequential(out + [ev])
  {
    SequentialScans(out);
    ScanSnoc(out, ev);
    ScanOneSnoc(out, ev, Scan(out).value, Scan(out + [ev]).value);
  }

  /** An event that opens nothing leaves no more open than before. */
  lemma Quieter(out: seq<Event>, ev: Event)
    requires Sequential(out) && Scan(out + [ev]).Some? && !ev.BlockStart? && !ev.ToolStart?
    ensures Sequential(out + [ev])
  {
    SequentialScans(out);
    FewOpen(out);
    ScanSnoc(out, ev);
    if ev.BlockEnd? {
      var open := Scan(out).value.open;
      assert (open - {ev.index}).Keys <= open.Keys;
      KeysFewer(open, ev.index);
    }
    OneMore(out, ev);
  }

  lemma KeysFewer(open: map<int, string>, i: int)
    requires i in open
    ensures |open - {i}| <= |open|
  {
    assert open.Keys == (open - {i}).Keys + {i};
    assert |open.Keys| == |(open - {i}).Keys| + 1;
  }

  lemma {:induction false} QuietTail(out: seq<Event>, tail: seq<Event>)
    requires Sequential(out) && Scan(out + tail).Some?
    requires forall k :: 0 <= k < |tail| ==> !tail[k].BlockStart? && !tail[k].ToolStart?
    ensures Sequential(out + tail)
  {
    if tail == [] {
      assert out + tail == out;
    } else {
      var init, ev := tail[..|tail| - 1], tail[|tail| - 1];
      assert out + tail == (out + init) + [ev];
      ScanSnoc(out + init, ev);
      QuietTail(out, init);
      Quieter(out + init, ev);
    }
  }

  lemma Grow(p: OpenAIStream.Parser, q: OpenAIStream.Parser, ev: Event)
    requires OpenAIFacts.Sound(p) && OpenAIFacts.Sound(q) && Sequential(p.out) && q.out == p.out + [ev]
    requires OpenLoad(q) <= 1
    ensures Sequential(q.out)
  {
    OpenCount(q);
    OneMore(p.out, ev);
  }

  lemma CalmText(p: OpenAIStream.Parser, text: string)
    requires OpenAIFacts.Sound(p) && Sequential(p.out) && p.order == []
    ensures Sequential(OpenAIStream.PutText(p, text).out)
  {
    OpenAIFacts.PutTextSound(p, text);
    var q := OpenAIStream.PutText(p, text);
    if p.textOpen {
      Grow(p, q, TextDelta(p.blockIndex, text));
    } else {
      var b := p.blockIndex + 1;
      var mid := p.(blockIndex := b, textOpen := true, out := p.out + [BlockStart(b, "text")]);
      ScanSnoc(p.out, BlockStart(b, "text"));
      Grow(p, mid, BlockStart(b, "text"));
      Grow(mid, q, TextDelta(b, text));
    }
  }

  lemma CalmPiece(p: OpenAIStream.Parser, t: OpenAIStream.ToolPiece)
    requires OpenAIFacts.Sound(p) && Sequential(p.out) && OpenLoad(p) <= 1
    requires var q := OpenAIStream.Put(p, OpenAIStream.Piece(t)); OpenLoad(q) <= 1
    ensures Sequential(OpenAIStream.Put(p, OpenAIStream.Piece(t)).out)
  {
    OpenAIFacts.OpenToolSound(p, t);
    var r := OpenAIStream.OpenTool(p, t);
    if t.index !in p.blocks {
      OpenAIFacts.CloseTextSound(p);
      var c := OpenAIStream.CloseText(p);
      if p.textOpen {
        Grow(p, c, BlockEnd(p.blockIndex));
      }
      Grow(c, r, ToolStart(r.blockIndex, t.id, t.name));
    }
    OpenAIFacts.PutArgsSound(r, t);
    if t.args != "" {
      Grow(r, OpenAIStream.PutArgs(r, t), ToolDelta(r.blocks[t.index], t.args));
    }
  }

  lemma CalmStep(p: OpenAIStream.Parser, item: OpenAIStream.Item)
    requires OpenAIFacts.Sound(p) && Sequential(p.out) && OpenLoad(p) <= 1
    requires var q := OpenAIStream.Put(p, item); OpenLoad(q) <= 1
    ensures Sequential(OpenAIStream.Put(p, item).out)
  {
    match item
    case Reason(_) =>
    case Spent(_) =>
    case Text(text) => CalmText(p, text);
    case Piece(t) => CalmPiece(p, t);
  }

  lemma OutGrows(p: OpenAIStream.Parser, item: OpenAIStream.Item) returns (rest: seq<Event>)
    ensures OpenAIStream.Put(p, item).out == p.out + rest
  {
    var out := OpenAIStream.Put(p, item).out;
    rest := out[|p.out|..];
    assert p.out == out[..|p.out|];
  }

  lemma FirstSequential()
    ensures Sequential(OpenAIStream.FIRST.out)
  {
    assert [StreamStart("", "")][..0] == [];
  }

  lemma {:induction false} CalmIsSequential(items: seq<OpenAIStream.Item>)
    requires Calm(items)
    ensures Sequential(OpenAIStream.PutAll(OpenAIStream.FIRST, items).out)
    ensures OpenLoad(OpenAIStream.PutAll(OpenAIStream.FIRST, items)) <= 1
  {
    if items == [] {
      FirstSequential();
    } else {
      var init := items[..|items| - 1];
      CalmIsSequential(init);
      OpenAIFacts.PutAllSound(init);
      CalmStep(OpenAIStream.PutAll(OpenAIStream.FIRST, init), items[|items| - 1]);
    }
  }

  /** A sequential stream never had more than one block open. */
  lemma FewLeftOpen(p: OpenAIStream.Parser)
    requires OpenAIFacts.Sound(p) && Sequential(p.out)
    ensures OpenLoad(p) <= 1
  {
    FewOpen(p.out);
    SequentialScans(p.out);
    OpenCount(p);
  }

  lemma {:induction false} SequentialIsCalm(items: seq<OpenAIStream.Item>)
    requires Sequential(OpenAIStream.PutAll(OpenAIStream.FIRST, items).out)
    ensures Calm(items)
  {
    if items != [] {
      var init := items[..|items| - 1];
      var before := OpenAIStream.PutAll(OpenAIStream.FIRST, init);
      var rest := OutGrows(before, items[|items| - 1]);
      SequentialPrefix(before.out, rest);
      SequentialIsCalm(init);
      OpenAIFacts.PutAllSound(items);
      FewLeftOpen(OpenAIStream.PutAll(OpenAIStream.FIRST, items));
    }
  }

  // ----- calm streams, as the chunks show -----

  /** Text comes after some call has begun. */
  ghost predicate TextAfterCall(items: seq<OpenAIStream.Item>) {
    exists k :: 0 <= k < |items| && items[k].Text? && OpenAIFacts.Seen(items[..k]) != []
  }

  lemma TextAfterCallSnoc(items: seq<OpenAIStream.Item>)
    requires items != []
    ensures var init, last := items[..|items| - 1], items[|items| - 1];
            TextAfterCall(items) <==> TextAfterCall(init) || (last.Text? && OpenAIFacts.Seen(init) != [])
  {
    var init := items[..|items| - 1];
    assert forall k :: 0 <= k <= |init| ==> items[..k] == init[..k];
    assert init[..|init|] == init;
    if TextAfterCall(init) {
      var k :| 0 <= k < |init| && init[k].Text? && OpenAIFacts.Seen(init[..k]) != [];
      assert items[k].Text? && OpenAIFacts.Seen(items[..k]) != [];
    }
  }

  lemma {:induction false} OpenTextFollows(items: seq<OpenAIStream.Item>)
    ensures OpenAIStream.PutAll(OpenAIStream.FIRST, items).textOpen && OpenAIFacts.Seen(items) != [] ==> TextAfterCall(items)
  {
    if items != [] {
      var init := items[..|items| - 1];
      OpenTextFollows(init);
      TextAfterCallSnoc(items);
      OpenAIFacts.PutAllContent(init);
    }
  }

  /** Blocks stay apart exactly when there is at most one call and no text after it has begun. */
  lemma {:induction false} CalmIff(items: seq<OpenAIStream.Item>)
    ensures Calm(items) <==> |OpenAIFacts.Seen(items)| <= 1 && !TextAfterCall(items)
  {
    OpenAIFacts.PutAllContent(items);
    if items != [] {
      var init := items[..|items| - 1];
      CalmIff(init);
      TextAfterCallSnoc(items);
      OpenTextFollows(items);
      OpenAIFacts.PutAllContent(init);
    }
  }

  // ----- the whole stream -----

  lemma QuietEnds(order: seq<int>)
    ensures forall k :: 0 <= k < |OpenAIStream.Ends(order)| ==> OpenAIStream.Ends(order)[k].BlockEnd?
  {
    if order != [] {
      QuietEnds(order[..|order| - 1]);
    }
  }

  /** The fallback block of a stream without any opens and closes alone. */
  lemma LoneBlock(out: seq<Event>, tail: seq<Event>)
    requires Sequential(out) && Scan(out) == Some(Context(Body, 0, map[]))
    requires Scan(out + [BlockStart(0, "text")] + tail).Some?
    requires forall k :: 0 <= k < |tail| ==> !tail[k].BlockStart? && !tail[k].ToolStart?
    ensures Sequential(out + [BlockStart(0, "text")] + tail)
  {
    ScanSnoc(out, BlockStart(0, "text"));
    OneMore(out, BlockStart(0, "text"));
    QuietTail(out + [BlockStart(0, "text")], tail);
  }

  lemma FirstPlace(order: seq<int>, bound: int)
    requires OpenAIFacts.Increasing(order, bound)
    ensures order != [] ==> bound >= 0
  {
    if order != [] {
      assert 0 <= order[0] <= bound;
    }
  }

  lemma NoBlocks(p: OpenAIStream.Parser, normalize: string -> string) returns (tail: seq<Event>)
    requires OpenAIFacts.Sound(p) && p.blockIndex < 0
    ensures Scan(p.out) == Some(Context(Body, 0, map[]))
    ensures OpenAIStream.Settled(p) + OpenAIStream.Closing(p, normalize) == p.out + [BlockStart(0, "text")] + tail
    ensures forall k :: 0 <= k < |tail| ==> !tail[k].BlockStart? && !tail[k].ToolStart?
  {
    tail := [BlockEnd(0)] + OpenAIStream.Closing(p, normalize);
    assert OpenAIFacts.ToolsOpen([]) == map[];
    FirstPlace(p.order, p.blockIndex);
    assert p.out + [] == p.out;
  }

  lemma ClosesSequential(p: OpenAIStream.Parser, normalize: string -> string, evs: seq<Event>)
    requires OpenAIFacts.Sound(p) && Sequential(p.out)
    requires evs == OpenAIStream.Settled(p) + OpenAIStream.Closing(p, normalize) && Scan(evs).Some?
    ensures Sequential(evs)
  {
    if p.blockIndex >= 0 {
      var tail := TailAfterBlocks(p, normalize);
      QuietTail(p.out, tail);
    } else {
      var tail := NoBlocks(p, normalize);
      LoneBlock(p.out, tail);
    }
  }

  lemma StreamSequentialIff(items: seq<OpenAIStream.Item>, normalize: string -> string)
    ensures Sequential(OpenAIStream.StreamOf(items, normalize)) <==> Calm(items)
  {
    var evs := OpenAIStream.StreamOf(items, normalize);
    var p := OpenAIStream.PutAll(OpenAIStream.FIRST, items);
    if Sequential(evs) {
      var rest := ParserPrefix(items, normalize);
      SequentialPrefix(p.out, rest);
      SequentialIsCalm(items);
    }
    if Calm(items) {
      CalmIsSequential(items);
      OpenAIFacts.PutAllSound(items);
      OpenAIFacts.StreamWellFormed(items, normalize);
      ClosesSequential(p, normalize, evs);
    }
  }

  lemma TailAfterBlocks(p: OpenAIStream.Parser, normalize: string -> string) returns (tail: seq<Event>)
    requires p.blockIndex >= 0
    ensures OpenAIStream.Settled(p) + OpenAIStream.Closing(p, normalize) == p.out + tail
    ensures forall k :: 0 <= k < |tail| ==> !tail[k].BlockStart? && !tail[k].ToolStart?
  {
    QuietEnds(p.order);
    var close := if p.textOpen then [BlockEnd(p.blockIndex)] else [];
    tail := close + OpenAIStream.Ends(p.order) + OpenAIStream.Closing(p, normalize);
    assert OpenAIStream.CloseText(p).out == p.out + close;
  }

  /**
   * An OpenAI stream reaches a Responses client properly paired exactly when it makes at most one
   * call and says nothing after that call has begun.
   */
  lemma OpenAIPairedIff(o: Source, items: seq<OpenAIStream.Item>, normalize: string -> string)
    ensures Paired(TranslateAll(o, OpenAIStream.StreamOf(items, normalize)).sent)
            <==> |OpenAIFacts.Seen(items)| <= 1 && !TextAfterCall(items)
    ensures IdsKept(TranslateAll(o, OpenAIStream.StreamOf(items, normalize)).sent)
            <==> |OpenAIFacts.Seen(items)| <= 1 && !TextAfterCall(items)
  {
    OpenAIFacts.StreamWellFormed(items, normalize);
    OpenAIThoughtless(items);
    QuietEnds(OpenAIStream.PutAll(OpenAIStream.FIRST, items).order);
    ThoughtlessPairedIff(o, OpenAIStream.StreamOf(items, normalize));
    StreamSequentialIff(items, normalize);
    CalmIff(items);
  }
}
