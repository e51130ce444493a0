/** What an Anthropic client is sent, and what the reader makes of a stop reason, in Anthropic's own words. */
module AnthropicWire {
  import opened Options
  import opened StreamIR
  import opened AnthropicStream
  import opened AnthropicGrammar

  // ----- stop reasons -----

  /** What is left of a stop reason in a dialect that knows tool use, the token limit, and an ordinary end. */
  function Collapse(reason: StopReason): StopReason {
    if reason == ToolUse || reason == MaxTokens then reason else Stop
  }

  /** Anthropic's word for it. */
  predicate Says(word: string, reason: StopReason) {
    match reason
    case ToolUse => word == "tool_use"
    case MaxTokens => word == "max_tokens"
    case _ => word == "end_turn"
  }

  /** The last message delta's stop reason. */
  function LastWord(ws: seq<Wire>): Option<string> {
    if ws == [] then None
    else match ws[|ws| - 1]
      case MessageDelta(word, _) => Some(word)
      case _ => LastWord(ws[..|ws| - 1])
  }

  lemma {:induction false} StopAppended(a: seq<Event>, b: seq<Event>)
    requires forall k :: 0 <= k < |b| ==> !b[k].Finish?
    ensures StopOf(a + b) == StopOf(a)
  {
    if b == [] {
      assert a + b == a;
    } else {
      var init := b[..|b| - 1];
      assert (a + b)[..|a + b| - 1] == a + init;
      StopAppended(a, init);
    }
  }

  lemma StopAtFinish(a: seq<Event>, reason: StopReason, rest: seq<Event>)
    requires forall k :: 0 <= k < |rest| ==> !rest[k].Finish?
    ensures StopOf(a + [Finish(reason)] + rest) == reason
  {
    MeaningSnoc(a, Finish(reason));
    StopAppended(a + [Finish(reason)], rest);
  }

  lemma HeardStop(out: seq<Event>, inputTokens: int, w: Wire)
    ensures StopOf(out + EventsOf(inputTokens, w))
         == if w.MessageDelta? then (if w.stopReason == "tool_use" then ToolUse
                                     else if w.stopReason == "max_tokens" then MaxTokens else Stop)
            else StopOf(out)
  {
    var evs := EventsOf(inputTokens, w);
    if w.MessageDelta? {
      var usage := Usage(inputTokens, w.usage.output, w.usage.cacheCreation, w.usage.cacheRead);
      StopAtFinish(out, FromWireReason(w.stopReason), [usage]);
      assert out + evs == out + [Finish(FromWireReason(w.stopReason))] + [usage];
    } else {
      StopAppended(out, evs);
    }
  }

  /** For every stream read, the last message delta's word decides the stop reason. */
  lemma {:induction false} WordDecides(ws: seq<Wire>)
    ensures var word, stop := LastWord(ws), StopOf(ReadAll(ws).out);
            && (word == Some("tool_use") <==> stop == ToolUse)
            && (word == Some("max_tokens") <==> stop == MaxTokens)
            && stop in {ToolUse, MaxTokens, Stop}
  {
    if ws != [] {
      WordDecides(ws[..|ws| - 1]);
      HeardStop(ReadAll(ws[..|ws| - 1]).out, ReadAll(ws[..|ws| - 1]).inputTokens, ws[|ws| - 1]);
    }
  }

  // ----- in Anthropic's order -----

  function WireKind(kind: string): string {
    if kind == "reasoning" then "thinking" else kind
  }

  /** Before the end, finish and usage are held back: on the wire the body goes on. */
  function WirePhase(phase: Phase): Phase {
    match phase
    case Before => Before
    case Ended => Ended
    case _ => Body
  }

  /** Where the wire stands when the stream stands at `c`. */
  ghost predicate WrittenAs(c: Context, d: Context) {
    && d.phase == WirePhase(c.phase) && d.blocks == c.blocks && d.open.Keys == c.open.Keys
    && (forall i :: i in c.open ==> d.open[i] == WireKind(c.open[i]) && c.open[i] in {"text", "reasoning", "tool_use"})
    && (c.phase != Body ==> c.open == map[])
  }

  lemma ScanWireSnoc(ws: seq<Wire>, w: Wire)
    ensures ScanWire(ws + [w]) == if ScanWire(ws).None? then None else AdvanceWire(ScanWire(ws).value, w)
  {
    assert (ws + [w])[..|ws|] == ws;
  }

  lemma BlockWritten(c: Context, d: Context, ev: Event, e: Context)
    requires WrittenAs(c, d) && Advance(c, ev) == Some(e) && InBlocks(ev)
    ensures AdvanceWire(d, BlockWire(ev)).Some? && WrittenAs(e, AdvanceWire(d, BlockWire(ev)).value)
  {
  }

  ghost predicate SentAs(c: Context, sent: seq<Wire>) {
    ScanWire(sent).Some? && WrittenAs(c, ScanWire(sent).value)
  }

  lemma EdgeWritten(c: Context, w: Writer, ev: Event, e: Context, msgID: string, model: string)
    requires SentAs(c, w.sent) && Advance(c, ev) == Some(e) && (ev.StreamStart? || ev.StreamEnd?)
    ensures SentAs(e, Write(w, ev, msgID, model).sent)
  {
    var first := if ev.StreamStart? then MessageStart(msgID, model, Counts(0, 1, 0, 0)) else MessageDelta(w.stopReason, w.usage);
    var second := if ev.StreamStart? then Ping else MessageStop;
    ScanWireSnoc(w.sent, first);
    ScanWireSnoc(w.sent + [first], second);
  }

  lemma EventWritten(c: Context, w: Writer, ev: Event, e: Context, msgID: string, model: string)
    requires SentAs(c, w.sent) && Advance(c, ev) == Some(e)
    ensures SentAs(e, Write(w, ev, msgID, model).sent)
  {
    if InBlocks(ev) {
      ScanWireSnoc(w.sent, BlockWire(ev));
      BlockWritten(c, ScanWire(w.sent).value, ev, e);
    } else if ev.StreamStart? || ev.StreamEnd? {
      EdgeWritten(c, w, ev, e, msgID, model);
    }
  }

  lemma {:induction false} WrittenInOrder(evs: seq<Event>, msgID: string, model: string)
    requires Scan(evs).Some?
    ensures SentAs(Scan(evs).value, WriteAll(evs, msgID, model).sent)
  {
    if evs != [] {
      var init := evs[..|evs| - 1];
      WrittenInOrder(init, msgID, model);
      EventWritten(Scan(init).value, WriteAll(init, msgID, model), evs[|evs| - 1], Scan(evs).value, msgID, model);
    }
  }

  // ----- what the client is sent -----

  /** Text deltas joined, whatever their block. */
  function WireText(ws: seq<Wire>): string {
    if ws == [] then ""
    else
      var w := ws[|ws| - 1];
      WireText(ws[..|ws| - 1])
      + if w.ContentBlockDelta? && w.delta.deltaType == "text_delta" then w.delta.text else ""
  }

  function WireCallsAfter(calls: seq<Call>, w: Wire): seq<Call> {
    match w
    case ContentBlockStart(i, blockType, id, name) => if blockType == "tool_use" then calls + [Call(i, id, name, "")] else calls
    case ContentBlockDelta(i, d) => if d.deltaType == "input_json_delta" then Extend(calls, i, d.partialJson) else calls
    case _ => calls
  }

  /** Tool-use blocks with their argument pieces joined. */
  function WireCalls(ws: seq<Wire>): seq<Call> {
    if ws == [] then [] else WireCallsAfter(WireCalls(ws[..|ws| - 1]), ws[|ws| - 1])
  }

  lemma WireSnoc(ws: seq<Wire>, w: Wire)
    ensures WireText(ws + [w])
         == WireText(ws) + if w.ContentBlockDelta? && w.delta.deltaType == "text_delta" then w.delta.text else ""
    ensures WireCalls(ws + [w]) == WireCallsAfter(WireCalls(ws), w)
  {
    assert (ws + [w])[..|ws|] == ws;
  }

  /** Two events that carry neither text nor calls. */
  lemma QuietPair(ws: seq<Wire>, a: Wire, b: Wire)
    requires !a.ContentBlockStart? && !a.ContentBlockDelta? && !b.ContentBlockStart? && !b.ContentBlockDelta?
    ensures WireText(ws + [a] + [b]) == WireText(ws) && WireCalls(ws + [a] + [b]) == WireCalls(ws)
  {
    WireSnoc(ws, a);
    WireSnoc(ws + [a], b);
    assert WireText(ws) + "" == WireText(ws);
  }

  lemma BlockContent(sent: seq<Wire>, ev: Event)
    requires InBlocks(ev) && (ev.BlockStart? ==> ev.blockType != "tool_use")
    ensures WireText(sent + [BlockWire(ev)]) == WireText(sent) + if ev.TextDelta? then ev.text else ""
    ensures WireCalls(sent + [BlockWire(ev)]) == CallsAfter(WireCalls(sent), ev)
  {
    WireSnoc(sent, BlockWire(ev));
  }

  lemma OneWritten(w: Writer, ev: Event, msgID: string, model: string)
    requires ev.BlockStart? ==> ev.blockType != "tool_use"
    ensures var sent := Write(w, ev, msgID, model).sent;
            && WireText(sent) == WireText(w.sent) + (if ev.TextDelta? then ev.text else "")
            && WireCalls(sent) == CallsAfter(WireCalls(w.sent), ev)
  {
    assert WireText(w.sent) + "" == WireText(w.sent);
    if InBlocks(ev) {
      BlockContent(w.sent, ev);
    } else if ev.StreamStart? {
      QuietPair(w.sent, MessageStart(msgID, model, Counts(0, 1, 0, 0)), Ping);
    } else if ev.StreamEnd? {
      QuietPair(w.sent, MessageDelta(w.stopReason, w.usage), MessageStop);
    }
  }

  lemma ContentStep(init: seq<Event>, ev: Event, w: Writer, msgID: string, model: string)
    requires WireText(w.sent) == TextOf(init) && WireCalls(w.sent) == CallsOf(init)
    requires ev.BlockStart? ==> ev.blockType != "tool_use"
    ensures var sent := Write(w, ev, msgID, model).sent;
            WireText(sent) == TextOf(init + [ev]) && WireCalls(sent) == CallsOf(init + [ev])
  {
    OneWritten(w, ev, msgID, model);
    MeaningSnoc(init, ev);
  }

  /** Calls start as calls, not as blocks of a kind. */
  predicate PlainStarts(evs: seq<Event>) {
    forall k :: 0 <= k < |evs| && evs[k].BlockStart? ==> evs[k].blockType != "tool_use"
  }

  lemma {:induction false} ContentWritten(evs: seq<Event>, msgID: string, model: string)
    requires PlainStarts(evs)
    ensures var sent := WriteAll(evs, msgID, model).sent;
            WireText(sent) == TextOf(evs) && WireCalls(sent) == CallsOf(evs)
  {
    if evs != [] {
      var init, ev := evs[..|evs| - 1], evs[|evs| - 1];
      ContentWritten(init, msgID, model);
      ContentStep(init, ev, WriteAll(init, msgID, model), msgID, model);
      assert init + [ev] == evs;
    } else {
      assert WriteAll(evs, msgID, model).sent == [];
    }
  }

  /** Thinking joined, and signatures in order, with the blocks they are for. */
  datatype Thinking = Thinking(text: string, signatures: seq<(int, string)>)

  function WireThinkingAfter(t: Thinking, w: Wire): Thinking {
    if !w.ContentBlockDelta? then t
    else if w.delta.deltaType == "thinking_delta" then t.(text := t.text + w.delta.thinking)
    else if w.delta.deltaType == "signature_delta" then t.(signatures := t.signatures + [(w.index, w.delta.signature)])
    else t
  }

  function WireThinking(ws: seq<Wire>): Thinking {
    if ws == [] then Thinking("", []) else WireThinkingAfter(WireThinking(ws[..|ws| - 1]), ws[|ws| - 1])
  }

  /** A reasoning delta with a signature is sent as that alone. */
  function ThinkingAfter(t: Thinking, ev: Event): Thinking {
    if !ev.ReasoningDelta? then t
    else if ev.signature == "" then t.(text := t.text + ev.text)
    else t.(signatures := t.signatures + [(ev.index, ev.signature)])
  }

  function ThinkingOf(evs: seq<Event>): Thinking {
    if evs == [] then Thinking("", []) else ThinkingAfter(ThinkingOf(evs[..|evs| - 1]), evs[|evs| - 1])
  }

  lemma ThinkingSnoc(ws: seq<Wire>, w: Wire)
    ensures WireThinking(ws + [w]) == WireThinkingAfter(WireThinking(ws), w)
  {
    assert (ws + [w])[..|ws|] == ws;
  }

  lemma ThinkingPair(ws: seq<Wire>, a: Wire, b: Wire)
    requires !a.ContentBlockDelta? && !b.ContentBlockDelta?
    ensures WireThinking(ws + [a] + [b]) == WireThinking(ws)
  {
    ThinkingSnoc(ws, a);
    ThinkingSnoc(ws + [a], b);
  }

  lemma ThinkingStep(w: Writer, ev: Event, msgID: string, model: string)
    ensures WireThinking(Write(w, ev, msgID, model).sent) == ThinkingAfter(WireThinking(w.sent), ev)
  {
    match ev
    case StreamStart(_, _) => ThinkingPair(w.sent, MessageStart(msgID, model, Counts(0, 1, 0, 0)), Ping);
    case StreamEnd => ThinkingPair(w.sent, MessageDelta(w.stopReason, w.usage), MessageStop);
    case Finish(_) =>
    case Usage(_, _, _, _) =>
    case _ => ThinkingSnoc(w.sent, BlockWire(ev));
  }

  lemma {:induction false} ThinkingWritten(evs: seq<Event>, msgID: string, model: string)
    ensures WireThinking(WriteAll(evs, msgID, model).sent) == ThinkingOf(evs)
  {
    if evs != [] {
      ThinkingWritten(evs[..|evs| - 1], msgID, model);
      ThinkingStep(WriteAll(evs[..|evs| - 1], msgID, model), evs[|evs| - 1], msgID, model);
    }
  }

  // ----- the closing events -----

  ghost predicate NoDelta(ws: seq<Wire>) {
    forall k :: 0 <= k < |ws| ==> !ws[k].MessageDelta?
  }

  /** While the stream goes on nothing is said of its end, and its last reason is buffered in Anthropic's words. */
  lemma {:induction false} BufferedWord(evs: seq<Event>, msgID: string, model: string)
    requires StreamEnd !in evs
    ensures var w := WriteAll(evs, msgID, model);
            && NoDelta(w.sent) && w.usage == LastCounts(evs)
            && (if exists k :: 0 <= k < |evs| && evs[k].Finish? then Says(w.stopReason, StopOf(evs)) else StopOf(evs) == Stop)
  {
    if evs != [] {
      var init, ev := evs[..|evs| - 1], evs[|evs| - 1];
      BufferedWord(init, msgID, model);
      if ev.Finish? {
        assert evs[|evs| - 1].Finish?;
      } else if k :| 0 <= k < |evs| && evs[k].Finish? {
        assert init[k].Finish?;
      }
    }
  }

  lemma {:induction false} FinishSeen(evs: seq<Event>)
    requires Scan(evs).Some? && Scan(evs).value.phase in {Finished, Counted, Ended}
    ensures exists k :: 0 <= k < |evs| && evs[k].Finish?
  {
    if evs[|evs| - 1].Finish? {
      assert evs[|evs| - 1].Finish?;
    } else {
      FinishSeen(evs[..|evs| - 1]);
      var k :| 0 <= k < |evs| - 1 && evs[..|evs| - 1][k].Finish?;
      assert evs[k].Finish?;
    }
  }

  /**
   * For every well-formed stream the client is sent events in Anthropic's order, with the stream's text, calls and
   * thinking; the last two are the one message delta, in Anthropic's word for the stop reason and with the last usage, and the stop.
   */
  lemma ClientIsSent(evs: seq<Event>, msgID: string, model: string)
    requires WellFormed(evs)
    ensures var sent := WriteAll(UpToEnd(evs), msgID, model).sent;
            && WireWellFormed(sent) && WireText(sent) == TextOf(evs) && WireCalls(sent) == CallsOf(evs)
            && WireThinking(sent) == ThinkingOf(evs)
            && |sent| >= 2 && NoDelta(sent[..|sent| - 2]) && sent[|sent| - 1] == MessageStop
            && sent[|sent| - 2].MessageDelta? && Says(sent[|sent| - 2].stopReason, StopOf(evs))
            && sent[|sent| - 2].usage == LastCounts(evs)
  {
    EndsOnce(evs);
    var init := evs[..|evs| - 1];
    UpToFirstEnd(init);
    WrittenInOrder(evs, msgID, model);
    KindsFaithful(evs);
    ContentWritten(evs, msgID, model);
    ThinkingWritten(evs, msgID, model);
    BufferedWord(init, msgID, model);
    FinishSeen(init);
    ClosedAs(init, evs, msgID, model);
  }

  lemma ClosedAs(init: seq<Event>, evs: seq<Event>, msgID: string, model: string)
    requires evs == init + [StreamEnd]
    ensures var w := WriteAll(init, msgID, model);
            var sent := WriteAll(evs, msgID, model).sent;
            && |sent| == |w.sent| + 2 && sent[..|sent| - 2] == w.sent
            && sent[|sent| - 2] == MessageDelta(w.stopReason, w.usage) && sent[|sent| - 1] == MessageStop
    ensures StopOf(evs) == StopOf(init) && LastCounts(evs) == LastCounts(init)
  {
    WriteSnoc(init, StreamEnd, msgID, model);
    assert evs[..|evs| - 1] == init;
  }

  // ----- there and back -----


  lemma {:induction false} LastReasonSays(evs: seq<Event>)
    ensures FromWireReason(LastReason(evs)) == Collapse(StopOf(evs))
  {
    if evs != [] {
      LastReasonSays(evs[..|evs| - 1]);
    }
  }

  /** Every stream that ends comes back with its own stop reason, as far as Anthropic has a word for it. */
  lemma StopComesBack(evs: seq<Event>, msgID: string, model: string)
    requires StreamEnd !in evs
    ensures StopOf(Returned(evs + [StreamEnd], msgID, model)) == Collapse(StopOf(evs))
  {
    RoundTrip(evs, msgID, model);
    LastReasonSays(evs);
    var counts := LastCounts(evs);
    var usage := Usage(0, counts.output, counts.cacheCreation, counts.cacheRead);
    var back, finish := BackAll(evs, msgID, model), Finish(FromWireReason(LastReason(evs)));
    StopAtFinish(back, FromWireReason(LastReason(evs)), [usage] + [StreamEnd]);
    assert back + Tail(evs) == back + [finish] + ([usage] + [StreamEnd]);
  }

  // ----- what the reader hears -----

  /** The input tokens of the latest message start, and the output tokens of the last message delta with the input known
      by then. */
  function WireTokens(ws: seq<Wire>): (int, (int, int)) {
    if ws == [] then (0, (0, 0))
    else
      var (input, told) := WireTokens(ws[..|ws| - 1]);
      match ws[|ws| - 1]
      case MessageStart(_, _, usage) => (usage.input, told)
      case MessageDelta(_, usage) => (input, (input, usage.output))
      case _ => (input, told)
  }

  lemma OneHeard(out: seq<Event>, w: Wire, ev: Event)
    requires !w.MessageDelta? && w.ContentBlockDelta? ==>
               w.delta.deltaType in {"text_delta", "input_json_delta", "thinking_delta", "signature_delta"}
    requires EventsOf(0, w) == [ev] && !w.MessageDelta?
    ensures TextOf(out + [ev]) == TextOf(out) + if w.ContentBlockDelta? && w.delta.deltaType == "text_delta" then w.delta.text else ""
    ensures CallsOf(out + [ev]) == WireCallsAfter(CallsOf(out), w) && TokensOf(out + [ev]) == TokensOf(out)
  {
    MeaningSnoc(out, ev);
  }

  lemma TwoHeard(out: seq<Event>, finish: Event, usage: Event)
    requires finish.Finish? && usage.Usage?
    ensures TextOf(out + [finish, usage]) == TextOf(out) && CallsOf(out + [finish, usage]) == CallsOf(out)
    ensures TokensOf(out + [finish, usage]) == (usage.input, usage.output)
  {
    MeaningSnoc(out, finish);
    MeaningSnoc(out + [finish], usage);
    assert out + [finish, usage] == out + [finish] + [usage];
  }

  ghost predicate Heard(ws: seq<Wire>, r: Reader) {
    && TextOf(r.out) == WireText(ws) && CallsOf(r.out) == WireCalls(ws)
    && r.inputTokens == WireTokens(ws).0 && TokensOf(r.out) == WireTokens(ws).1
  }

  lemma NextHeard(ws: seq<Wire>, w: Wire, c: Context, r: Reader)
    requires Heard(ws, r) && AdvanceWire(c, w).Some?
    ensures Heard(ws + [w], Read(r, w))
  {
    assert (ws + [w])[..|ws|] == ws;
    assert TextOf(r.out) + "" == TextOf(r.out);
    WireSnoc(ws, w);
    match w
    case Ping => assert r.out + [] == r.out;
    case Other => assert r.out + [] == r.out;
    case MessageDelta(word, usage) =>
      TwoHeard(r.out, Finish(FromWireReason(word)), Usage(r.inputTokens, usage.output, usage.cacheCreation, usage.cacheRead));
    case _ =>
      assert EventsOf(r.inputTokens, w) == EventsOf(0, w);
      OneHeard(r.out, w, EventsOf(0, w)[0]);
  }

  /** Of every stream so far in Anthropic's order the reader keeps the text, the calls with their arguments, and the tokens. */
  lemma {:induction false} ReaderHears(ws: seq<Wire>)
    requires ScanWire(ws).Some?
    ensures Heard(ws, ReadAll(ws))
  {
    if ws != [] {
      var init, w := ws[..|ws| - 1], ws[|ws| - 1];
      ReaderHears(init);
      NextHeard(init, w, ScanWire(init).value, ReadAll(init));
      assert init + [w] == ws;
    }
  }
}
