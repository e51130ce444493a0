/** The neutral stream written as OpenAI chunks, and what reading them back keeps. */
module OpenAIPrinter {
  import opened Options
  import opened StreamIR
  import opened OpenAIStream
  import opened OpenAIFacts

  function FinishReason(reason: StopReason): string {
    match reason
    case MaxTokens => "length"
    case ToolUse => "tool_calls"
    case Stop => "stop"
    case ContentFilter => "stop"
    case Errored => "stop"
  }

  function Delta(choice: Choice): Line {
    Data(Chunk([choice], None))
  }

  function PieceLine(t: ToolPiece): Line {
    Delta(Choice(None, None, [t]))
  }

  /** Which tool index each block's call was given, how many were given, and the lines so far. */
  datatype Printer = Printer(toolCallByBlock: map<int, int>, nextTool: int, out: seq<Line>)

  /** The first chunk announces the role and nothing else. */
  const ANNOUNCED := Printer(map[], 0, [Delta(Choice(None, None, []))])

  function Print(p: Printer, ev: Event): Printer {
    match ev
    case ToolStart(i, id, name) =>
      Printer(p.toolCallByBlock[i := p.nextTool], p.nextTool + 1, p.out + [PieceLine(ToolPiece(p.nextTool, id, name, ""))])
    case TextDelta(_, text) => p.(out := p.out + [Delta(Choice(None, Some(text), []))])
    case ToolDelta(i, json) =>
      if i in p.toolCallByBlock then p.(out := p.out + [PieceLine(ToolPiece(p.toolCallByBlock[i], "", "", json))]) else p
    case Finish(reason) => p.(out := p.out + [Delta(Choice(Some(FinishReason(reason)), None, []))])
    case Usage(input, output, _, _) =>
      if output > 0 || input > 0 then p.(out := p.out + [Data(Chunk([], Some(Tokens(input, output))))]) else p
    case _ => p
  }

  function PrintAll(evs: seq<Event>): Printer {
    if evs == [] then ANNOUNCED else Print(PrintAll(evs[..|evs| - 1]), evs[|evs| - 1])
  }

  /** The printer stops at the end event; a stream that breaks off before it gets no end marker. */
  function LinesOf(evs: seq<Event>): seq<Line> {
    if evs != [] && evs[|evs| - 1] == StreamEnd then PrintAll(evs[..|evs| - 1]).out + [Done] else PrintAll(evs).out
  }

  class StreamPrinter {
    var toolCallByBlock: map<int, int>
    var nextToolIdx: int
    var lines: seq<Line>

    ghost function State(): Printer
      reads this
    {
      Printer(toolCallByBlock, nextToolIdx, lines)
    }

    constructor ()
      ensures State() == ANNOUNCED
    {
      toolCallByBlock, nextToolIdx := map[], 0;
      lines := [Delta(Choice(None, None, []))];
    }

    /** Reads events up to and including the first end event. */
    method StreamIRToOAI(evs: seq<Event>) returns (read: nat)
      requires State() == ANNOUNCED
      modifies this
      ensures read <= |evs| && lines == LinesOf(evs[..read])
      ensures StreamEnd !in evs[..if read > 0 then read - 1 else 0]
      ensures read == |evs| || (read > 0 && evs[read - 1] == StreamEnd)
    {
      read := 0;
      while read < |evs|
        invariant 0 <= read <= |evs|
        invariant State() == PrintAll(evs[..read]) && StreamEnd !in evs[..read]
      {
        var ev := evs[read];
        assert evs[..read + 1][..read] == evs[..read];
        read := read + 1;
        if ev == StreamEnd {
          lines := lines + [Done];
          return;
        }
        Emit(ev);
      }
    }

    method Emit(ev: Event)
      modifies this
      ensures State() == Print(old(State()), ev)
    {
      match ev {
        case ToolStart(i, id, name) =>
          toolCallByBlock := toolCallByBlock[i := nextToolIdx];
          lines := lines + [PieceLine(ToolPiece(nextToolIdx, id, name, ""))];
          nextToolIdx := nextToolIdx + 1;
        case TextDelta(_, text) =>
          lines := lines + [Delta(Choice(None, Some(text), []))];
        case ToolDelta(i, json) =>
          if i in toolCallByBlock {
            lines := lines + [PieceLine(ToolPiece(toolCallByBlock[i], "", "", json))];
          }
        case Finish(reason) =>
          lines := lines + [Delta(Choice(Some(FinishReason(reason)), None, []))];
        case Usage(input, output, _, _) =>
          if output > 0 || input > 0 {
            lines := lines + [Data(Chunk([], Some(Tokens(input, output))))];
          }
        case _ =>
      }
    }
  }

  // ----- what the reader makes of each printed line -----

  lemma LineItems(line: Line, t: ToolPiece, text: string, reason: string, tokens: Tokens)
    ensures ItemsOfLine(PieceLine(t)) == [Piece(t)]
    ensures ItemsOfLine(Delta(Choice(None, Some(text), []))) == if text == "" then [] else [Text(text)]
    ensures reason != "" ==> ItemsOfLine(Delta(Choice(Some(reason), None, []))) == [Reason(reason)]
    ensures ItemsOfLine(Data(Chunk([], Some(tokens)))) == [Spent(tokens)]
    ensures ItemsOfLine(Delta(Choice(None, None, []))) == []
  {
    OneChoice(Choice(None, None, [t]));
    OneChoice(Choice(None, Some(text), []));
    OneChoice(Choice(Some(reason), None, []));
    OneChoice(Choice(None, None, []));
  }

  lemma OneChoice(choice: Choice)
    ensures ItemsOfLine(Delta(choice)) == ItemsOfChoice(choice, None)
  {
    assert [choice][..0] == [];
    assert ItemsOfChoices([], None) + ItemsOfChoice(choice, None) == ItemsOfChoice(choice, None);
  }

  lemma LinesSnoc(out: seq<Line>, line: Line)
    ensures ItemsOfLines(out + [line]) == ItemsOfLines(out) + ItemsOfLine(line)
  {
    assert (out + [line])[..|out|] == out;
  }

  /** An item that is no piece, seen from one tool index. */
  lemma OtherSnoc(items: seq<Item>, item: Item, index: int)
    requires !item.Piece?
    ensures var all := items + [item];
            && Seen(all) == Seen(items) && FirstPiece(all, index) == FirstPiece(items, index)
            && JoinedArgs(all, index) == JoinedArgs(items, index)
            && JoinedText(all) == JoinedText(items) + (if item.Text? then item.text else "")
            && LastReason(all) == (if item.Reason? then item.reason else LastReason(items))
            && LastSpent(all) == (if item.Spent? then item.tokens else LastSpent(items))
  {
    assert (items + [item])[..|items|] == items;
    assert JoinedArgs(items, index) + "" == JoinedArgs(items, index);
  }

  // ----- the reader sees what was said -----

  /** The tokens as they survive: a count of nothing is not printed. */
  function Printed(tokens: (int, int)): (int, int) {
    if tokens.0 > 0 || tokens.1 > 0 then tokens else (0, 0)
  }

  ghost predicate CallHeard(p: Printer, calls: seq<Call>, items: seq<Item>, k: nat)
    requires k < |calls|
  {
    && calls[k].block in p.toolCallByBlock && p.toolCallByBlock[calls[k].block] == k
    && FirstPiece(items, k) == Some(ToolPiece(k, calls[k].id, calls[k].name, ""))
    && JoinedArgs(items, k) == calls[k].args
  }

  ghost predicate CountsUp(seen: seq<int>) {
    forall k :: 0 <= k < |seen| ==> seen[k] == k
  }

  ghost predicate CallsHeard(p: Printer, calls: seq<Call>, items: seq<Item>) {
    && p.nextTool == |calls| == |Seen(items)| && CountsUp(Seen(items))
    && (forall b :: b in p.toolCallByBlock ==> exists k :: 0 <= k < |calls| && calls[k].block == b)
    && (forall k :: 0 <= k < |calls| ==> CallHeard(p, calls, items, k))
  }

  ghost predicate OneBlockEach(calls: seq<Call>) {
    forall j, k :: 0 <= j < k < |calls| ==> calls[j].block != calls[k].block
  }

  lemma OtherHeard(p: Printer, q: Printer, calls: seq<Call>, items: seq<Item>, item: Item)
    requires CallsHeard(p, calls, items) && !item.Piece?
    requires q.nextTool == p.nextTool && q.toolCallByBlock == p.toolCallByBlock
    ensures CallsHeard(q, calls, items + [item])
  {
    OtherSnoc(items, item, 0);
    forall k | 0 <= k < |calls| ensures CallHeard(q, calls, items + [item], k) {
      assert CallHeard(p, calls, items, k);
      OtherSnoc(items, item, k);
    }
  }

  lemma StartHeard(p: Printer, calls: seq<Call>, items: seq<Item>, ev: Event)
    requires CallsHeard(p, calls, items) && ev.ToolStart?
    requires forall k :: 0 <= k < |calls| ==> calls[k].block != ev.index
    ensures CallsHeard(Print(p, ev), calls + [Call(ev.index, ev.id, ev.name, "")],
                       items + [Piece(ToolPiece(p.nextTool, ev.id, ev.name, ""))])
  {
    var q, t := Print(p, ev), ToolPiece(p.nextTool, ev.id, ev.name, "");
    var after, all := calls + [Call(ev.index, ev.id, ev.name, "")], items + [Piece(t)];
    PieceSnoc(items, t, 0);
    assert t.index !in Seen(items);
    SeenIffNamed(items, t.index);
    forall k | 0 <= k < |after| ensures CallHeard(q, after, all, k) {
      PieceSnoc(items, t, k);
      if k < |calls| {
        assert CallHeard(p, calls, items, k);
        assert JoinedArgs(items, k) + "" == JoinedArgs(items, k);
      }
    }
    forall b | b in q.toolCallByBlock ensures exists k :: 0 <= k < |after| && after[k].block == b {
      if b == ev.index {
        assert after[|calls|].block == b;
      } else {
        var k :| 0 <= k < |calls| && calls[k].block == b;
        assert after[k].block == b;
      }
    }
  }

  lemma ArgsHeard(p: Printer, calls: seq<Call>, items: seq<Item>, i: int, json: string)
    requires CallsHeard(p, calls, items) && OneBlockEach(calls) && i in p.toolCallByBlock
    ensures CallsHeard(p, Extend(calls, i, json), items + [Piece(ToolPiece(p.toolCallByBlock[i], "", "", json))])
  {
    var t := ToolPiece(p.toolCallByBlock[i], "", "", json);
    var after, all := Extend(calls, i, json), items + [Piece(t)];
    var m :| 0 <= m < |calls| && calls[m].block == i;
    assert CallHeard(p, calls, items, m);
    assert Seen(items)[m] == m;
    PieceSnoc(items, t, 0);
    forall k | 0 <= k < |after| ensures CallHeard(p, after, all, k) {
      assert CallHeard(p, calls, items, k);
      PieceSnoc(items, t, k);
      if k != m {
        assert JoinedArgs(items, k) + "" == JoinedArgs(items, k);
      }
    }
    forall b | b in p.toolCallByBlock ensures exists k :: 0 <= k < |after| && after[k].block == b {
      var k :| 0 <= k < |calls| && calls[k].block == b;
      assert after[k].block == b;
    }
  }

  /** What is said once the finish has been said: nothing until then. */
  function ReasonSaid(evs: seq<Event>): string {
    if evs == [] then ""
    else if evs[|evs| - 1].Finish? then FinishReason(evs[|evs| - 1].reason)
    else ReasonSaid(evs[..|evs| - 1])
  }

  /** The prefix up to now said at most one count. */
  function SpentSaid(evs: seq<Event>): Tokens {
    if evs == [] then Tokens(0, 0)
    else
      var ev := evs[|evs| - 1];
      if ev.Usage? && (ev.output > 0 || ev.input > 0) then Tokens(ev.input, ev.output)
      else SpentSaid(evs[..|evs| - 1])
  }

  ghost predicate Heard(p: Printer, evs: seq<Event>) {
    var items := ItemsOfLines(p.out);
    && JoinedText(items) == TextOf(evs)
    && LastReason(items) == ReasonSaid(evs) && LastSpent(items) == SpentSaid(evs)
    && CallsHeard(p, CallsOf(evs), items)
  }

  lemma SaidSnoc(evs: seq<Event>, ev: Event)
    ensures ReasonSaid(evs + [ev]) == if ev.Finish? then FinishReason(ev.reason) else ReasonSaid(evs)
    ensures SpentSaid(evs + [ev]) == if ev.Usage? && (ev.output > 0 || ev.input > 0) then Tokens(ev.input, ev.output)
                                     else SpentSaid(evs)
  {
    assert (evs + [ev])[..|evs|] == evs;
  }

  /** An event that prints one line, which the reader takes for one item, no piece of a call. */
  lemma SaidOnce(p: Printer, evs: seq<Event>, ev: Event, line: Line, item: Item)
    requires Heard(p, evs) && !ev.ToolStart? && !ev.ToolDelta? && !item.Piece?
    requires Print(p, ev) == p.(out := p.out + [line]) && ItemsOfLine(line) == [item]
    requires ev.TextDelta? <==> item.Text?
    requires item.Text? ==> item.text == ev.text
    requires ReasonSaid(evs + [ev]) == if item.Reason? then item.reason else ReasonSaid(evs)
    requires SpentSaid(evs + [ev]) == if item.Spent? then item.tokens else SpentSaid(evs)
    ensures Heard(Print(p, ev), evs + [ev])
  {
    MeaningSnoc(evs, ev);
    LinesSnoc(p.out, line);
    OtherSnoc(ItemsOfLines(p.out), item, 0);
    OtherHeard(p, Print(p, ev), CallsOf(evs), ItemsOfLines(p.out), item);
  }

  /** An event that says nothing, or prints a line in which the reader finds nothing. */
  lemma SaidNothing(p: Printer, q: Printer, evs: seq<Event>, ev: Event)
    requires Heard(p, evs) && !ev.ToolStart? && !ev.ToolDelta? && !ev.Finish?
    requires ev.TextDelta? ==> ev.text == ""
    requires ev.Usage? ==> ev.output <= 0 && ev.input <= 0
    requires q.nextTool == p.nextTool && q.toolCallByBlock == p.toolCallByBlock
    requires ItemsOfLines(q.out) == ItemsOfLines(p.out)
    ensures Heard(q, evs + [ev])
  {
    MeaningSnoc(evs, ev);
    SaidSnoc(evs, ev);
    assert TextOf(evs) + "" == TextOf(evs);
    HeardAcross(p, q, CallsOf(evs), ItemsOfLines(p.out));
  }

  lemma EmptyTextLine(out: seq<Line>)
    ensures ItemsOfLines(out + [Delta(Choice(None, Some(""), []))]) == ItemsOfLines(out)
  {
    LineHeard(out, Delta(Choice(None, Some(""), [])), "", "", Tokens(0, 0));
    assert ItemsOfLines(out) + [] == ItemsOfLines(out);
  }

  lemma TextHeard(p: Printer, evs: seq<Event>, i: int, text: string)
    requires Heard(p, evs)
    ensures Heard(Print(p, TextDelta(i, text)), evs + [TextDelta(i, text)])
  {
    if text != "" {
      var line := Delta(Choice(None, Some(text), []));
      SaidSnoc(evs, TextDelta(i, text));
      LineHeard(p.out, line, text, "", Tokens(0, 0));
      SaidOnce(p, evs, TextDelta(i, text), line, Text(text));
    } else {
      EmptyTextLine(p.out);
      SaidNothing(p, Print(p, TextDelta(i, "")), evs, TextDelta(i, ""));
    }
  }

  lemma FinishHeard(p: Printer, evs: seq<Event>, reason: StopReason)
    requires Heard(p, evs)
    ensures Heard(Print(p, Finish(reason)), evs + [Finish(reason)])
  {
    var line := Delta(Choice(Some(FinishReason(reason)), None, []));
    SaidSnoc(evs, Finish(reason));
    LineHeard(p.out, line, "", FinishReason(reason), Tokens(0, 0));
    SaidOnce(p, evs, Finish(reason), line, Reason(FinishReason(reason)));
  }

  lemma UsageHeard(p: Printer, evs: seq<Event>, ev: Event)
    requires Heard(p, evs) && ev.Usage?
    ensures Heard(Print(p, ev), evs + [ev])
  {
    var tokens := Tokens(ev.input, ev.output);
    var line := Data(Chunk([], Some(tokens)));
    SaidSnoc(evs, ev);
    LineHeard(p.out, line, "", "", tokens);
    if ev.output > 0 || ev.input > 0 {
      SaidOnce(p, evs, ev, line, Spent(tokens));
    } else {
      SaidNothing(p, p, evs, ev);
    }
  }

  lemma SilentHeard(p: Printer, evs: seq<Event>, ev: Event)
    requires Heard(p, evs) && !ev.ToolStart? && !ev.ToolDelta? && !ev.TextDelta? && !ev.Finish? && !ev.Usage?
    ensures Heard(Print(p, ev), evs + [ev])
  {
    SaidNothing(p, p, evs, ev);
  }

  /** Events that print one line without a piece of a call, or none at all. */
  lemma PlainEventHeard(p: Printer, evs: seq<Event>, ev: Event)
    requires Heard(p, evs) && !ev.ToolStart? && !ev.ToolDelta?
    ensures Heard(Print(p, ev), evs + [ev])
  {
    match ev
    case TextDelta(i, text) => TextHeard(p, evs, i, text);
    case Finish(reason) => FinishHeard(p, evs, reason);
    case Usage(_, _, _, _) => UsageHeard(p, evs, ev);
    case _ => SilentHeard(p, evs, ev);
  }

  lemma LineHeard(out: seq<Line>, line: Line, text: string, reason: string, tokens: Tokens)
    ensures ItemsOfLines(out + [line]) == ItemsOfLines(out) + ItemsOfLine(line)
    ensures line == Delta(Choice(None, Some(text), [])) ==> ItemsOfLine(line) == if text == "" then [] else [Text(text)]
    ensures line == Delta(Choice(Some(reason), None, [])) && reason != "" ==> ItemsOfLine(line) == [Reason(reason)]
    ensures line == Data(Chunk([], Some(tokens))) ==> ItemsOfLine(line) == [Spent(tokens)]
  {
    LinesSnoc(out, line);
    LineItems(line, ToolPiece(0, "", "", ""), text, reason, tokens);
  }

  lemma PieceHeard(out: seq<Line>, t: ToolPiece)
    ensures ItemsOfLines(out + [PieceLine(t)]) == ItemsOfLines(out) + [Piece(t)]
  {
    LinesSnoc(out, PieceLine(t));
    LineItems(PieceLine(t), t, "", "", Tokens(0, 0));
  }

  lemma ToolEventHeard(p: Printer, evs: seq<Event>, ev: Event)
    requires Heard(p, evs) && (ev.ToolStart? || ev.ToolDelta?) && OneBlockEach(CallsOf(evs))
    requires ev.ToolStart? ==> forall k :: 0 <= k < |CallsOf(evs)| ==> CallsOf(evs)[k].block != ev.index
    requires ev.ToolDelta? ==> exists k :: 0 <= k < |CallsOf(evs)| && CallsOf(evs)[k].block == ev.index
    ensures Heard(Print(p, ev), evs + [ev])
  {
    MeaningSnoc(evs, ev);
    SaidSnoc(evs, ev);
    var items := ItemsOfLines(p.out);
    assert TextOf(evs) + "" == TextOf(evs);
    match ev
    case ToolStart(i, id, name) =>
      var t := ToolPiece(p.nextTool, id, name, "");
      PieceHeard(p.out, t);
      StartHeard(p, CallsOf(evs), items, ev);
      PieceSnoc(items, t, 0);
    case ToolDelta(i, json) =>
      var k :| 0 <= k < |CallsOf(evs)| && CallsOf(evs)[k].block == i;
      assert CallHeard(p, CallsOf(evs), items, k);
      var t := ToolPiece(p.toolCallByBlock[i], "", "", json);
      PieceHeard(p.out, t);
      ArgsHeard(p, CallsOf(evs), items, i, json);
      PieceSnoc(items, t, 0);
      HeardAcross(p, Print(p, ev), Extend(CallsOf(evs), i, json), items + [Piece(t)]);
  }

  lemma HeardAcross(p: Printer, q: Printer, calls: seq<Call>, items: seq<Item>)
    requires CallsHeard(p, calls, items) && q.nextTool == p.nextTool && q.toolCallByBlock == p.toolCallByBlock
    ensures CallsHeard(q, calls, items)
  {
    forall k | 0 <= k < |calls| ensures CallHeard(q, calls, items, k) {
      assert CallHeard(p, calls, items, k);
    }
  }

  /** What the grammar says of the next tool event. */
  lemma NextToolEvent(init: seq<Event>, ev: Event)
    requires Scan(init + [ev]).Some?
    ensures Scan(init).Some? && OneBlockEach(CallsOf(init))
    ensures ev.ToolStart? ==> forall k :: 0 <= k < |CallsOf(init)| ==> CallsOf(init)[k].block != ev.index
    ensures ev.ToolDelta? ==> exists k :: 0 <= k < |CallsOf(init)| && CallsOf(init)[k].block == ev.index
  {
    ScanSnoc(init, ev);
    ScanSound(init);
  }

  lemma {:induction false} PrintAllHeard(evs: seq<Event>)
    requires Scan(evs).Some?
    ensures Heard(PrintAll(evs), evs)
  {
    if evs == [] {
      LinesSnoc([], Delta(Choice(None, None, [])));
      LineItems(Skipped, ToolPiece(0, "", "", ""), "", "", Tokens(0, 0));
      assert [] + [Delta(Choice(None, None, []))] == ANNOUNCED.out;
    } else {
      var init, ev := evs[..|evs| - 1], evs[|evs| - 1];
      assert init + [ev] == evs;
      PrintAllHeard(init);
      NextToolEvent(init, ev);
      if ev.ToolStart? || ev.ToolDelta? {
        ToolEventHeard(PrintAll(init), init, ev);
      } else {
        PlainEventHeard(PrintAll(init), init, ev);
      }
    }
  }

  // ----- there and back -----

  /** OpenAI's own reasons need no mapping; other providers pass one in. */
  function SameReason(reason: string): string {
    reason
  }

  /** The stop reasons OpenAI's vocabulary can tell apart, when no call overrides them. */
  function Collapse(reason: StopReason): StopReason {
    match reason
    case ToolUse => ToolUse
    case MaxTokens => MaxTokens
    case _ => Stop
  }

  lemma {:induction false} OnlyData(evs: seq<Event>)
    ensures Done !in PrintAll(evs).out
  {
    if evs != [] {
      OnlyData(evs[..|evs| - 1]);
    }
  }

  lemma {:induction false} UpToMarker(lines: seq<Line>)
    requires Done !in lines
    ensures UpToDone(lines + [Done]) == lines
  {
    if lines == [] {
      assert lines + [Done] == [Done];
    } else {
      assert (lines + [Done])[1..] == lines[1..] + [Done];
      UpToMarker(lines[1..]);
    }
  }

  /** Once finished and counted, nothing more is said. */
  lemma {:induction false} SaidIsMeant(evs: seq<Event>)
    requires Scan(evs).Some?
    ensures var c := Scan(evs).value;
            && (c.phase == Before || c.phase == Body ==> ReasonSaid(evs) == "" && SpentSaid(evs) == Tokens(0, 0))
            && (c.phase == Finished ==> ReasonSaid(evs) == FinishReason(StopOf(evs)) && SpentSaid(evs) == Tokens(0, 0))
            && (c.phase == Counted || c.phase == Ended ==>
                  && ReasonSaid(evs) == FinishReason(StopOf(evs))
                  && (SpentSaid(evs).prompt, SpentSaid(evs).completion) == Printed(TokensOf(evs)))
  {
    if evs != [] {
      SaidIsMeant(evs[..|evs| - 1]);
    }
  }

  lemma LastIsEnd(evs: seq<Event>)
    requires WellFormed(evs)
    ensures evs != [] && evs[|evs| - 1] == StreamEnd && Scan(evs[..|evs| - 1]).Some?
    ensures Scan(evs[..|evs| - 1]).value.phase == Counted
  {
  }

  lemma EndMeansNothing(init: seq<Event>)
    ensures TextOf(init + [StreamEnd]) == TextOf(init) && CallsOf(init + [StreamEnd]) == CallsOf(init)
    ensures StopOf(init + [StreamEnd]) == StopOf(init) && TokensOf(init + [StreamEnd]) == TokensOf(init)
  {
    MeaningSnoc(init, StreamEnd);
  }

  /**
   * Any well-formed stream, printed as OpenAI chunks and read back, keeps its meaning: the text, the
   * calls in order with id, name and arguments, and the usage; the stop reason becomes tool use when
   * there is a call, and otherwise survives as far as OpenAI can say it.
   */
  lemma ThereAndBack(evs: seq<Event>)
    requires WellFormed(evs)
    ensures var back := StreamOf(ItemsOf(LinesOf(evs)), SameReason);
            && WellFormed(back)
            && TextOf(back) == TextOf(evs)
            && |CallsOf(back)| == |CallsOf(evs)|
            && (forall k :: 0 <= k < |CallsOf(evs)| ==> SameCall(CallsOf(back)[k], CallsOf(evs)[k]))
            && StopOf(back) == (if CallsOf(evs) != [] then ToolUse else Collapse(StopOf(evs)))
            && TokensOf(back) == Printed(TokensOf(evs))
  {
    LastIsEnd(evs);
    var init := evs[..|evs| - 1];
    assert evs == init + [StreamEnd];
    EndMeansNothing(init);
    var p := PrintAll(init);
    PrintAllHeard(init);
    OnlyData(init);
    UpToMarker(p.out);
    SaidIsMeant(init);
    BackFromItems(p, init, ItemsOfLines(p.out));
  }

  lemma BackFromItems(p: Printer, evs: seq<Event>, items: seq<Item>)
    requires Heard(p, evs) && items == ItemsOfLines(p.out)
    requires LastReason(items) == FinishReason(StopOf(evs))
    requires (LastSpent(items).prompt, LastSpent(items).completion) == Printed(TokensOf(evs))
    ensures var back := StreamOf(items, SameReason);
            && WellFormed(back)
            && TextOf(back) == TextOf(evs)
            && |CallsOf(back)| == |CallsOf(evs)|
            && (forall k :: 0 <= k < |CallsOf(evs)| ==> SameCall(CallsOf(back)[k], CallsOf(evs)[k]))
            && StopOf(back) == (if CallsOf(evs) != [] then ToolUse else Collapse(StopOf(evs)))
            && TokensOf(back) == Printed(TokensOf(evs))
  {
    StreamWellFormed(items, SameReason);
    StreamKeepsContent(items, SameReason);
    var back := StreamOf(items, SameReason);
    forall k | 0 <= k < |CallsOf(evs)| ensures SameCall(CallsOf(back)[k], CallsOf(evs)[k]) {
      HeardIsSame(p, CallsOf(evs), items, CallsOf(back)[k], k);
    }
  }

  lemma HeardIsSame(p: Printer, calls: seq<Call>, items: seq<Item>, call: Call, k: nat)
    requires CallsHeard(p, calls, items) && k < |calls| && Carries(call, items, Seen(items)[k])
    ensures SameCall(call, calls[k])
  {
    assert CallHeard(p, calls, items, k);
    assert Seen(items)[k] == k;
  }
}
