/** Anthropic's own order of events, and which of its streams the reader takes into the neutral grammar. */
module AnthropicGrammar {
  import opened Options
  import opened StreamIR
  import opened AnthropicStream

  /** Which deltas a block of each wire type may carry. */
  predicate Carries(blockType: string, deltaType: string) {
    || (blockType == "text" && deltaType == "text_delta")
    || (blockType == "tool_use" && deltaType == "input_json_delta")
    || (blockType == "thinking" && (deltaType == "thinking_delta" || deltaType == "signature_delta"))
  }

  /**
   * The order Anthropic promises: one message start; content blocks numbered from zero, each started,
   * fed and stopped; one message delta once all are stopped; the message stop. Pings, and events the
   * reader does not know, may come anywhere. The open blocks are kept by their wire type.
   */
  function AdvanceWire(c: Context, w: Wire): Option<Context> {
    match w
    case MessageStart(_, _, _) => if c.phase == Before then Some(c.(phase := Body)) else None
    case ContentBlockStart(i, blockType, _, _) => Opening(c, i, blockType)
    case ContentBlockDelta(i, d) =>
      if c.phase == Body && i in c.open && Carries(c.open[i], d.deltaType) then Some(c) else None
    case ContentBlockStop(i) => if c.phase == Body && i in c.open then Some(c.(open := c.open - {i})) else None
    case MessageDelta(_, _) => if c.phase == Body && c.open == map[] then Some(c.(phase := Counted)) else None
    case MessageStop => if c.phase == Counted then Some(c.(phase := Ended)) else None
    case Ping => if c.phase != Ended then Some(c) else None
    case Other => if c.phase != Ended then Some(c) else None
  }

  function ScanWire(ws: seq<Wire>): Option<Context> {
    if ws == [] then Some(START)
    else
      var c := ScanWire(ws[..|ws| - 1]);
      if c.None? then None else AdvanceWire(c.value, ws[|ws| - 1])
  }

  predicate WireWellFormed(ws: seq<Wire>) {
    ScanWire(ws).Some? && ScanWire(ws).value.phase == Ended
  }

  /** The block types the neutral stream has a kind for. */
  predicate KnownType(blockType: string) {
    blockType == "text" || blockType == "tool_use" || blockType == "thinking" || blockType == "reasoning"
  }

  predicate KnownBlock(w: Wire) {
    w.ContentBlockStart? ==> KnownType(w.blockType)
  }

  predicate KnownBlocks(ws: seq<Wire>) {
    forall k :: 0 <= k < |ws| ==> KnownBlock(ws[k])
  }

  function KindOf(blockType: string): string {
    if blockType == "thinking" then "reasoning" else blockType
  }

  /** The neutral context a wire context of known blocks stands for. */
  ghost predicate Stands(c: Context, d: Context) {
    && d.phase == c.phase && d.blocks == c.blocks && d.open.Keys == c.open.Keys
    && forall i :: i in c.open ==> KnownType(c.open[i]) && d.open[i] == KindOf(c.open[i])
  }

  /** The reader turns a legal event of a known block into legal neutral events. */
  lemma BlockStays(c: Context, d: Context, w: Wire, input: int, e: Context)
    requires Stands(c, d) && AdvanceWire(c, w) == Some(e) && KnownBlock(w)
    requires w.ContentBlockStart? || w.ContentBlockDelta? || w.ContentBlockStop?
    ensures var evs := EventsOf(input, w);
            |evs| == 1 && Advance(d, evs[0]).Some? && Stands(e, Advance(d, evs[0]).value)
  {
  }

  /** What the reader has emitted so far is legal, and stands where the wire stands. */
  ghost predicate InStep(ws: seq<Wire>, c: Context) {
    && Scan(ReadAll(ws).out).Some? && Stands(c, Scan(ReadAll(ws).out).value)
  }

  lemma QuietStep(ws: seq<Wire>, w: Wire)
    requires w.Ping? || w.Other?
    ensures ReadAll(ws + [w]).out == ReadAll(ws).out
  {
    ReadSnoc(ws, w);
    assert ReadAll(ws).out + [] == ReadAll(ws).out;
  }

  lemma OneEvent(ws: seq<Wire>, w: Wire, ev: Event)
    requires EventsOf(ReadAll(ws).inputTokens, w) == [ev]
    ensures ReadAll(ws + [w]).out == ReadAll(ws).out + [ev]
  {
    ReadSnoc(ws, w);
  }

  lemma TwoEvents(ws: seq<Wire>, w: Wire) returns (finish: Event, usage: Event)
    requires w.MessageDelta?
    ensures finish.Finish? && usage.Usage? && ReadAll(ws + [w]).out == ReadAll(ws).out + [finish] + [usage]
  {
    ReadSnoc(ws, w);
    var r := ReadAll(ws);
    finish := Finish(FromWireReason(w.stopReason));
    usage := Usage(r.inputTokens, w.usage.output, w.usage.cacheCreation, w.usage.cacheRead);
    assert EventsOf(r.inputTokens, w) == [finish] + [usage];
  }

  lemma FinishScans(out: seq<Event>, blocks: nat, finish: Event, usage: Event)
    requires finish.Finish? && usage.Usage? && blocks > 0 && Scan(out) == Some(Context(Body, blocks, map[]))
    ensures Scan(out + [finish] + [usage]) == Some(Context(Counted, blocks, map[]))
  {
    ScanSnoc(out, finish);
    ScanSnoc(out + [finish], usage);
  }

  lemma DeltaStep(ws: seq<Wire>, w: Wire, c: Context)
    requires w.MessageDelta? && InStep(ws, c) && c.phase == Body && c.open == map[] && c.blocks > 0
    ensures InStep(ws + [w], c.(phase := Counted))
  {
    var finish, usage := TwoEvents(ws, w);
    assert Scan(ReadAll(ws).out).value.open == map[];
    FinishScans(ReadAll(ws).out, c.blocks, finish, usage);
  }

  lemma BlockStep(ws: seq<Wire>, w: Wire, c: Context, e: Context)
    requires InStep(ws, c) && AdvanceWire(c, w) == Some(e) && KnownBlock(w)
    requires w.ContentBlockStart? || w.ContentBlockDelta? || w.ContentBlockStop?
    ensures InStep(ws + [w], e)
  {
    var r := ReadAll(ws);
    BlockStays(c, Scan(r.out).value, w, r.inputTokens, e);
    var ev := EventsOf(r.inputTokens, w)[0];
    OneEvent(ws, w, ev);
    ScanSnoc(r.out, ev);
  }

  lemma EdgeStep(ws: seq<Wire>, w: Wire, c: Context, e: Context)
    requires InStep(ws, c) && AdvanceWire(c, w) == Some(e) && (w.MessageStart? || w.MessageStop?)
    ensures InStep(ws + [w], e)
  {
    var ev := if w.MessageStart? then StreamStart(w.id, w.model) else StreamEnd;
    OneEvent(ws, w, ev);
    ScanSnoc(ReadAll(ws).out, ev);
  }

  lemma NextInStep(ws: seq<Wire>, w: Wire, c: Context, e: Context)
    requires InStep(ws, c) && AdvanceWire(c, w) == Some(e) && KnownBlock(w)
    requires w.MessageDelta? ==> c.blocks > 0
    ensures InStep(ws + [w], e)
  {
    match w
    case Ping => QuietStep(ws, w);
    case Other => QuietStep(ws, w);
    case MessageDelta(_, _) => DeltaStep(ws, w, c);
    case MessageStart(_, _, _) => EdgeStep(ws, w, c, e);
    case MessageStop => EdgeStep(ws, w, c, e);
    case _ => BlockStep(ws, w, c, e);
  }

  lemma {:induction false} KnownInStep(ws: seq<Wire>)
    requires ScanWire(ws).Some? && KnownBlocks(ws)
    requires ScanWire(ws).value.phase == Counted || ScanWire(ws).value.phase == Ended ==> ScanWire(ws).value.blocks > 0
    ensures InStep(ws, ScanWire(ws).value)
  {
    if ws != [] {
      var init, w := ws[..|ws| - 1], ws[|ws| - 1];
      assert init + [w] == ws;
      KnownInStep(init);
      NextInStep(init, w, ScanWire(init).value, ScanWire(ws).value);
    }
  }

  /** A scan that has failed stays failed. */
  lemma {:induction false} StaysFailed(evs: seq<Event>, more: seq<Event>)
    requires Scan(evs).None?
    ensures Scan(evs + more).None?
  {
    if more == [] {
      assert evs + more == evs;
    } else {
      assert (evs + more)[..|evs + more| - 1] == evs + more[..|more| - 1];
      StaysFailed(evs, more[..|more| - 1]);
    }
  }

  /** A block of a type the neutral stream does not have is refused where it starts. */
  lemma UnknownRefused(ws: seq<Wire>, w: Wire)
    requires w.ContentBlockStart? && !KnownType(w.blockType)
    ensures Scan(ReadAll(ws + [w]).out).None?
  {
    var ev := BlockStart(w.index, w.blockType);
    OneEvent(ws, w, ev);
    ScanSnoc(ReadAll(ws).out, ev);
  }

  lemma {:induction false} UnknownFails(ws: seq<Wire>)
    requires !KnownBlocks(ws)
    ensures Scan(ReadAll(ws).out).None?
  {
    var init, w := ws[..|ws| - 1], ws[|ws| - 1];
    assert init + [w] == ws;
    if !KnownBlock(w) {
      UnknownRefused(init, w);
    } else {
      assert !KnownBlocks(init);
      UnknownFails(init);
      ReadSnoc(init, w);
      StaysFailed(ReadAll(init).out, EventsOf(ReadAll(init).inputTokens, w));
    }
  }

  lemma OneCounts(out: seq<Event>, ev: Event)
    requires Scan(out + [ev]).Some?
    ensures Scan(out).Some?
    ensures Scan(out + [ev]).value.blocks == Scan(out).value.blocks + if ev.BlockStart? || ev.ToolStart? then 1 else 0
  {
    ScanSnoc(out, ev);
  }

  /** A finish is refused while no block has been opened. */
  lemma FinishCounts(out: seq<Event>, finish: Event, usage: Event)
    requires finish.Finish? && usage.Usage? && Scan(out + [finish] + [usage]).Some?
    ensures Scan(out).Some? && 0 < Scan(out).value.blocks == Scan(out + [finish] + [usage]).value.blocks
  {
    OneCounts(out + [finish], usage);
    OneCounts(out, finish);
    ScanSnoc(out, finish);
  }

  lemma OtherEvent(ws: seq<Wire>, w: Wire) returns (ev: Event)
    requires !w.MessageDelta? && !w.Ping? && !w.Other?
    ensures ReadAll(ws + [w]).out == ReadAll(ws).out + [ev]
    ensures ev.BlockStart? || ev.ToolStart? <==> w.ContentBlockStart?
  {
    ReadSnoc(ws, w);
    ev := EventsOf(ReadAll(ws).inputTokens, w)[0];
  }

  /** Blocks are counted alike on both sides; a finish needs one. */
  lemma CountStep(ws: seq<Wire>, w: Wire)
    requires Scan(ReadAll(ws + [w]).out).Some?
    ensures Scan(ReadAll(ws).out).Some?
    ensures Scan(ReadAll(ws + [w]).out).value.blocks
            == Scan(ReadAll(ws).out).value.blocks + if w.ContentBlockStart? then 1 else 0
    ensures w.MessageDelta? ==> Scan(ReadAll(ws).out).value.blocks > 0
  {
    if w.MessageDelta? {
      var finish, usage := TwoEvents(ws, w);
      FinishCounts(ReadAll(ws).out, finish, usage);
    } else if w.Ping? || w.Other? {
      QuietStep(ws, w);
    } else {
      var ev := OtherEvent(ws, w);
      OneCounts(ReadAll(ws).out, ev);
    }
  }

  /** Both sides have opened so many blocks; past the message delta there is at least one. */
  ghost predicate Agree(c: Context, d: Context) {
    d.blocks == c.blocks && (c.phase == Counted || c.phase == Ended ==> c.blocks > 0)
  }

  lemma WireCounts(c: Context, w: Wire, e: Context)
    requires AdvanceWire(c, w) == Some(e)
    ensures e.blocks == c.blocks + if w.ContentBlockStart? then 1 else 0
    ensures e.phase == Counted || e.phase == Ended ==> w.MessageDelta? || c.phase == Counted || c.phase == Ended
  {
  }

  /** A stream without a block reaches its finish with none, which the neutral grammar does not allow. */
  lemma {:induction false} BlockCount(ws: seq<Wire>, c: Context, d: Context)
    requires ScanWire(ws) == Some(c) && Scan(ReadAll(ws).out) == Some(d)
    ensures Agree(c, d)
    decreases |ws|
  {
    if ws != [] {
      var init, w := ws[..|ws| - 1], ws[|ws| - 1];
      assert init + [w] == ws;
      CountStep(init, w);
      BlockCount(init, ScanWire(init).value, Scan(ReadAll(init).out).value);
      WireCounts(ScanWire(init).value, w, c);
    }
  }

  /**
   * For every stream in Anthropic's order, what the reader makes of it is well-formed exactly when it has
   * a block and only blocks of types the neutral stream knows.
   */
  lemma ReadsWellFormedIff(ws: seq<Wire>)
    requires WireWellFormed(ws)
    ensures WellFormed(ReadAll(ws).out) <==> KnownBlocks(ws) && ScanWire(ws).value.blocks > 0
  {
    if KnownBlocks(ws) && ScanWire(ws).value.blocks > 0 {
      KnownInStep(ws);
    }
    if WellFormed(ReadAll(ws).out) {
      if !KnownBlocks(ws) {
        UnknownFails(ws);
        assert false;
      }
      BlockCount(ws, ScanWire(ws).value, Scan(ReadAll(ws).out).value);
    }
  }

  /** A stream in Anthropic's order is read to its end: its message stop is its last event. */
  lemma {:induction false} StopIsLast(ws: seq<Wire>)
    requires ScanWire(ws).Some?
    ensures MessageStop in ws <==> ScanWire(ws).value.phase == Ended
    ensures ScanWire(ws).value.phase == Ended ==> ws[|ws| - 1] == MessageStop && MessageStop !in ws[..|ws| - 1]
  {
    if ws != [] {
      StopIsLast(ws[..|ws| - 1]);
    }
  }

  lemma ReadToTheEnd(ws: seq<Wire>)
    requires WireWellFormed(ws)
    ensures UpToStop(ws) == ws
  {
    StopIsLast(ws);
    assert ws == ws[..|ws| - 1] + [MessageStop];
    UpToFirstStop(ws[..|ws| - 1]);
  }
}
