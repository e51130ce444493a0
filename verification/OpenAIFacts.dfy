/** What the OpenAI parser emits, for every sequence of chunks. */
module OpenAIFacts {
  import opened Options
  import opened StreamIR
  import opened OpenAIStream

  // ----- the stream is well-formed -----

  function ToolsOpen(order: seq<int>): map<int, string> {
    map i | i in order :: "tool_use"
  }

  function OpenBlocks(p: Parser): map<int, string> {
    if p.textOpen then ToolsOpen(p.order)[p.blockIndex := "text"] else ToolsOpen(p.order)
  }

  ghost predicate Increasing(order: seq<int>, bound: int) {
    && (forall k :: 0 <= k < |order| ==> 0 <= order[k] <= bound)
    && forall j, k :: 0 <= j < k < |order| ==> order[j] < order[k]
  }

  /** The blocks open in what was emitted so far are the text block and every call. */
  ghost predicate Sound(p: Parser) {
    && p.blockIndex >= -1 && Increasing(p.order, p.blockIndex)
    && (p.textOpen ==> p.blockIndex >= 0 && p.blockIndex !in p.order)
    && (forall ix :: ix in p.blocks ==> p.blocks[ix] in p.order)
    && p.hasTool == (p.order != [])
    && Scan(p.out) == Some(Context(Body, p.blockIndex + 1, OpenBlocks(p)))
  }

  lemma CloseTextSound(p: Parser)
    requires Sound(p)
    ensures Sound(CloseText(p)) && !CloseText(p).textOpen
  {
    if p.textOpen {
      ScanSnoc(p.out, BlockEnd(p.blockIndex));
      assert OpenBlocks(p) - {p.blockIndex} == ToolsOpen(p.order);
    }
  }

  lemma PutTextSound(p: Parser, text: string)
    requires Sound(p)
    ensures Sound(PutText(p, text))
  {
    var b := p.blockIndex + 1;
    if p.textOpen {
      ScanSnoc(p.out, TextDelta(p.blockIndex, text));
    } else {
      ScanSnoc(p.out, BlockStart(b, "text"));
      ScanSnoc(p.out + [BlockStart(b, "text")], TextDelta(b, text));
    }
  }

  lemma IncreasingSnoc(order: seq<int>, bound: int)
    requires Increasing(order, bound) && bound >= -1
    ensures Increasing(order + [bound + 1], bound + 1)
    ensures ToolsOpen(order + [bound + 1]) == ToolsOpen(order)[bound + 1 := "tool_use"]
  {
  }

  lemma NewToolSound(q: Parser, t: ToolPiece)
    requires Sound(q) && !q.textOpen && t.index !in q.blocks
    ensures Sound(OpenTool(q, t))
  {
    var b := q.blockIndex + 1;
    IncreasingSnoc(q.order, q.blockIndex);
    ScanSnoc(q.out, ToolStart(b, t.id, t.name));
    var r := OpenTool(q, t);
    forall ix | ix in r.blocks ensures r.blocks[ix] in r.order {
      if ix == t.index {
        assert r.order[|q.order|] == b;
      } else {
        assert q.blocks[ix] in q.order;
      }
    }
  }

  lemma OpenToolSound(p: Parser, t: ToolPiece)
    requires Sound(p)
    ensures Sound(OpenTool(p, t)) && t.index in OpenTool(p, t).blocks
  {
    if t.index !in p.blocks {
      CloseTextSound(p);
      NewToolSound(CloseText(p), t);
      assert OpenTool(p, t) == OpenTool(CloseText(p), t);
    }
  }

  lemma PutArgsSound(p: Parser, t: ToolPiece)
    requires Sound(p) && t.index in p.blocks
    ensures Sound(PutArgs(p, t))
  {
    ScanSnoc(p.out, ToolDelta(p.blocks[t.index], t.args));
  }

  lemma PutSound(p: Parser, item: Item)
    requires Sound(p)
    ensures Sound(Put(p, item))
  {
    match item
    case Reason(_) =>
    case Spent(_) =>
    case Text(text) => PutTextSound(p, text);
    case Piece(t) =>
      OpenToolSound(p, t);
      PutArgsSound(OpenTool(p, t), t);
  }

  lemma FirstSound()
    ensures Sound(FIRST)
  {
    assert [StreamStart("", "")][..0] == [];
    assert ToolsOpen([]) == map[];
  }

  lemma {:induction false} PutAllSound(items: seq<Item>)
    ensures Sound(PutAll(FIRST, items))
  {
    if items == [] {
      FirstSound();
    } else {
      PutAllSound(items[..|items| - 1]);
      PutSound(PutAll(FIRST, items[..|items| - 1]), items[|items| - 1]);
    }
  }

  lemma CloseOne(order: seq<int>, k: nat)
    requires 0 < k <= |order| && forall j, m :: 0 <= j < m < |order| ==> order[j] < order[m]
    ensures order[k - 1] in ToolsOpen(order[k - 1..])
    ensures ToolsOpen(order[k - 1..]) - {order[k - 1]} == ToolsOpen(order[k..])
  {
    assert order[k - 1..] == [order[k - 1]] + order[k..];
    assert order[k - 1] !in order[k..];
  }

  lemma EndsSnoc(out: seq<Event>, order: seq<int>, k: nat)
    requires 0 < k <= |order|
    ensures out + Ends(order[..k]) == (out + Ends(order[..k - 1])) + [BlockEnd(order[k - 1])]
  {
    assert order[..k][..k - 1] == order[..k - 1];
  }

  /** Closing calls in the order they opened empties the set of open blocks. */
  lemma {:induction false} EndsClose(out: seq<Event>, order: seq<int>, k: nat, blocks: nat)
    requires k <= |order| && Scan(out) == Some(Context(Body, blocks, ToolsOpen(order)))
    requires forall j, m :: 0 <= j < m < |order| ==> order[j] < order[m]
    ensures Scan(out + Ends(order[..k])) == Some(Context(Body, blocks, ToolsOpen(order[k..])))
  {
    if k == 0 {
      assert out + Ends(order[..0]) == out && order[0..] == order;
    } else {
      EndsClose(out, order, k - 1, blocks);
      EndsSnoc(out, order, k);
      ScanSnoc(out + Ends(order[..k - 1]), BlockEnd(order[k - 1]));
      CloseOne(order, k);
    }
  }

  lemma EmptyBlock(out: seq<Event>)
    requires Scan(out) == Some(Context(Body, 0, map[]))
    ensures Scan(out + [BlockStart(0, "text")] + [BlockEnd(0)]) == Some(Context(Body, 1, map[]))
  {
    ScanSnoc(out, BlockStart(0, "text"));
    ScanSnoc(out + [BlockStart(0, "text")], BlockEnd(0));
    assert map[0 := "text"] - {0} == map[];
  }

  lemma AllEnds(out: seq<Event>, order: seq<int>, blocks: nat)
    requires Scan(out) == Some(Context(Body, blocks, ToolsOpen(order)))
    requires forall j, m :: 0 <= j < m < |order| ==> order[j] < order[m]
    ensures Scan(out + Ends(order)) == Some(Context(Body, blocks, map[]))
  {
    EndsClose(out, order, |order|, blocks);
    assert order[..|order|] == order && order[|order|..] == [];
    assert ToolsOpen([]) == map[];
  }

  lemma SettledSound(p: Parser)
    requires Sound(p)
    ensures exists blocks: nat :: blocks > 0 && Scan(Settled(p)) == Some(Context(Body, blocks, map[]))
  {
    CloseTextSound(p);
    var q := CloseText(p);
    AllEnds(q.out, p.order, p.blockIndex + 1);
    if p.blockIndex < 0 {
      EmptyBlock(q.out + Ends(p.order));
      assert Scan(Settled(p)) == Some(Context(Body, 1, map[]));
    } else {
      assert Scan(Settled(p)) == Some(Context(Body, p.blockIndex + 1, map[]));
    }
  }

  lemma ClosingSound(out: seq<Event>, blocks: nat, reason: StopReason, input: int, output: int)
    requires blocks > 0 && Scan(out) == Some(Context(Body, blocks, map[]))
    ensures WellFormed(out + ([Finish(reason)] + [Usage(input, output, 0, 0)] + [StreamEnd]))
  {
    ScanSnoc(out, Finish(reason));
    ScanSnoc(out + [Finish(reason)], Usage(input, output, 0, 0));
    ScanSnoc(out + [Finish(reason)] + [Usage(input, output, 0, 0)], StreamEnd);
    assert out + ([Finish(reason)] + [Usage(input, output, 0, 0)] + [StreamEnd])
        == out + [Finish(reason)] + [Usage(input, output, 0, 0)] + [StreamEnd];
  }

  /** Whatever the chunks, the parser's stream is well-formed. */
  lemma StreamWellFormed(items: seq<Item>, normalize: string -> string)
    ensures WellFormed(StreamOf(items, normalize))
  {
    var p := PutAll(FIRST, items);
    PutAllSound(items);
    SettledSound(p);
    var blocks: nat :| blocks > 0 && Scan(Settled(p)) == Some(Context(Body, blocks, map[]));
    ClosingSound(Settled(p), blocks, MapFinish(normalize(p.finish), p.hasTool), p.usage.prompt, p.usage.completion);
  }

  // ----- the content arrives -----

  function JoinedText(items: seq<Item>): string {
    if items == [] then ""
    else JoinedText(items[..|items| - 1]) + if items[|items| - 1].Text? then items[|items| - 1].text else ""
  }

  /** The tool indices of the chunks, in the order they first appear. */
  function Seen(items: seq<Item>): seq<int> {
    if items == [] then []
    else
      var before := Seen(items[..|items| - 1]);
      var last := items[|items| - 1];
      if last.Piece? && last.piece.index !in before then before + [last.piece.index] else before
  }

  /** The first piece of a tool index: the one that names the call. */
  function FirstPiece(items: seq<Item>, index: int): Option<ToolPiece> {
    if items == [] then None
    else
      var before := FirstPiece(items[..|items| - 1], index);
      var last := items[|items| - 1];
      if before.Some? then before
      else if last.Piece? && last.piece.index == index then Some(last.piece)
      else None
  }

  function JoinedArgs(items: seq<Item>, index: int): string {
    if items == [] then ""
    else
      var last := items[|items| - 1];
      JoinedArgs(items[..|items| - 1], index) + if last.Piece? && last.piece.index == index then last.piece.args else ""
  }

  function LastReason(items: seq<Item>): string {
    if items == [] then ""
    else if items[|items| - 1].Reason? then items[|items| - 1].reason
    else LastReason(items[..|items| - 1])
  }

  function LastSpent(items: seq<Item>): Tokens {
    if items == [] then Tokens(0, 0)
    else if items[|items| - 1].Spent? then items[|items| - 1].tokens
    else LastSpent(items[..|items| - 1])
  }

  lemma {:induction false} SeenIffNamed(items: seq<Item>, index: int)
    ensures index in Seen(items) <==> FirstPiece(items, index).Some?
    ensures FirstPiece(items, index).None? ==> JoinedArgs(items, index) == ""
  {
    if items != [] {
      SeenIffNamed(items[..|items| - 1], index);
    }
  }

  /** The k-th call emitted is the k-th tool index seen. */
  ghost predicate CallMatches(p: Parser, items: seq<Item>, k: nat) {
    && k < |p.order| && k < |Seen(items)| && k < |CallsOf(p.out)|
    && var index := Seen(items)[k];
       && index in p.blocks && p.blocks[index] == p.order[k]
       && FirstPiece(items, index).Some?
       && var first := FirstPiece(items, index).value;
          CallsOf(p.out)[k] == Call(p.order[k], first.id, first.name, JoinedArgs(items, index))
  }

  ghost predicate Content(p: Parser, items: seq<Item>) {
    && TextOf(p.out) == JoinedText(items)
    && |CallsOf(p.out)| == |p.order| == |Seen(items)|
    && (forall ix :: ix in p.blocks <==> ix in Seen(items))
    && (forall k :: 0 <= k < |p.order| ==> CallMatches(p, items, k))
    && p.finish == LastReason(items) && p.usage == LastSpent(items)
  }

  /** An item that is no piece of a call changes no call. */
  lemma CallsKept(p: Parser, q: Parser, items: seq<Item>, item: Item)
    requires Content(p, items) && !item.Piece?
    requires q.order == p.order && q.blocks == p.blocks && CallsOf(q.out) == CallsOf(p.out)
    ensures var all := items + [item];
            && |CallsOf(q.out)| == |q.order| == |Seen(all)|
            && (forall ix :: ix in q.blocks <==> ix in Seen(all))
            && (forall k :: 0 <= k < |q.order| ==> CallMatches(q, all, k))
  {
    var all := items + [item];
    assert all[..|items|] == items;
    forall k | 0 <= k < |q.order| ensures CallMatches(q, all, k) {
      assert CallMatches(p, items, k);
    }
  }

  lemma TextKeepsContent(p: Parser, items: seq<Item>, text: string)
    requires Content(p, items)
    ensures Content(PutText(p, text), items + [Text(text)])
  {
    var q := PutText(p, text);
    if p.textOpen {
      MeaningSnoc(p.out, TextDelta(p.blockIndex, text));
    } else {
      MeaningSnoc(p.out, BlockStart(p.blockIndex + 1, "text"));
      MeaningSnoc(p.out + [BlockStart(p.blockIndex + 1, "text")], TextDelta(p.blockIndex + 1, text));
    }
    CallsKept(p, q, items, Text(text));
    assert (items + [Text(text)])[..|items|] == items;
  }

  lemma OtherKeepsContent(p: Parser, items: seq<Item>, item: Item)
    requires Content(p, items) && (item.Reason? || item.Spent?)
    ensures Content(Put(p, item), items + [item])
  {
    CallsKept(p, Put(p, item), items, item);
    assert (items + [item])[..|items|] == items;
  }

  /** The snocs of the reference functions, for a piece. */
  lemma PieceSnoc(items: seq<Item>, t: ToolPiece, index: int)
    ensures var all := items + [Piece(t)];
            && JoinedText(all) == JoinedText(items)
            && LastReason(all) == LastReason(items) && LastSpent(all) == LastSpent(items)
            && Seen(all) == (if t.index in Seen(items) then Seen(items) else Seen(items) + [t.index])
            && FirstPiece(all, index) == (if FirstPiece(items, index).None? && t.index == index then Some(t)
                                          else FirstPiece(items, index))
            && JoinedArgs(all, index) == JoinedArgs(items, index) + (if t.index == index then t.args else "")
  {
    assert (items + [Piece(t)])[..|items|] == items;
    assert JoinedText(items) + "" == JoinedText(items);
  }

  lemma {:induction false} SeenDistinct(items: seq<Item>)
    ensures forall j, k :: 0 <= j < k < |Seen(items)| ==> Seen(items)[j] != Seen(items)[k]
  {
    if items != [] {
      SeenDistinct(items[..|items| - 1]);
    }
  }

  lemma ExtendByNothing(calls: seq<Call>, b: int)
    ensures Extend(calls, b, "") == calls
  {
    forall k | 0 <= k < |calls| ensures Extend(calls, b, "")[k] == calls[k] {
      assert calls[k].args + "" == calls[k].args;
    }
  }

  lemma KnownToolMeaning(p: Parser, t: ToolPiece)
    requires t.index in p.blocks
    ensures var q := PutArgs(p, t);
            && TextOf(q.out) == TextOf(p.out) && CallsOf(q.out) == Extend(CallsOf(p.out), p.blocks[t.index], t.args)
            && q.order == p.order && q.blocks == p.blocks && q.finish == p.finish && q.usage == p.usage
  {
    if t.args != "" {
      MeaningSnoc(p.out, ToolDelta(p.blocks[t.index], t.args));
    } else {
      ExtendByNothing(CallsOf(p.out), p.blocks[t.index]);
    }
  }

  /** The call a known index belongs to takes the arguments, and no other does. */
  lemma KnownPieceKeepsContent(p: Parser, items: seq<Item>, t: ToolPiece)
    requires Sound(p) && Content(p, items) && t.index in p.blocks
    ensures Content(PutArgs(p, t), items + [Piece(t)])
  {
    var q := PutArgs(p, t);
    PieceSnoc(items, t, 0);
    KnownToolMeaning(p, t);
    assert t.index in Seen(items);
    var m :| 0 <= m < |Seen(items)| && Seen(items)[m] == t.index;
    forall k | 0 <= k < |q.order| ensures CallMatches(q, items + [Piece(t)], k) {
      KnownPieceCall(p, q, items, t, m, k);
    }
  }

  lemma KnownPieceCall(p: Parser, q: Parser, items: seq<Item>, t: ToolPiece, m: nat, k: nat)
    requires Content(p, items) && Increasing(p.order, p.blockIndex) && k < |p.order|
    requires m < |Seen(items)| && Seen(items)[m] == t.index && t.index in p.blocks
    requires CallsOf(q.out) == Extend(CallsOf(p.out), p.blocks[t.index], t.args)
    requires q.order == p.order && q.blocks == p.blocks
    ensures CallMatches(q, items + [Piece(t)], k)
  {
    assert CallMatches(p, items, k) && CallMatches(p, items, m);
    var index := Seen(items)[k];
    PieceSnoc(items, t, index);
    SeenDistinct(items);
    if k != m {
      assert p.order[k] != p.order[m];
      assert JoinedArgs(items, index) + "" == JoinedArgs(items, index);
    }
  }

  lemma CloseTextKeepsContent(p: Parser, items: seq<Item>)
    requires Content(p, items)
    ensures Content(CloseText(p), items)
  {
    if p.textOpen {
      MeaningSnoc(p.out, BlockEnd(p.blockIndex));
      forall k | 0 <= k < |p.order| ensures CallMatches(CloseText(p), items, k) {
        assert CallMatches(p, items, k);
      }
    }
  }

  lemma ExtendLast(calls: seq<Call>, b: int, id: string, name: string, args: string)
    requires forall k :: 0 <= k < |calls| ==> calls[k].block != b
    ensures Extend(calls + [Call(b, id, name, "")], b, args) == calls + [Call(b, id, name, args)]
  {
    assert "" + args == args;
  }

  /** What a new index adds to the stream. */
  lemma NewToolMeaning(q: Parser, t: ToolPiece)
    requires !q.textOpen && t.index !in q.blocks
    requires forall k :: 0 <= k < |CallsOf(q.out)| ==> CallsOf(q.out)[k].block != q.blockIndex + 1
    ensures var b := q.blockIndex + 1;
            var r := PutArgs(OpenTool(q, t), t);
            && TextOf(r.out) == TextOf(q.out)
            && CallsOf(r.out) == CallsOf(q.out) + [Call(b, t.id, t.name, t.args)]
            && r.order == q.order + [b] && r.blocks == q.blocks[t.index := b]
            && r.finish == q.finish && r.usage == q.usage
  {
    var b := q.blockIndex + 1;
    MeaningSnoc(q.out, ToolStart(b, t.id, t.name));
    MeaningSnoc(q.out + [ToolStart(b, t.id, t.name)], ToolDelta(b, t.args));
    ExtendLast(CallsOf(q.out), b, t.id, t.name, t.args);
    assert TextOf(q.out) + "" == TextOf(q.out);
  }

  lemma CallsBelow(q: Parser, items: seq<Item>)
    requires Sound(q) && Content(q, items)
    ensures forall k :: 0 <= k < |CallsOf(q.out)| ==> CallsOf(q.out)[k].block != q.blockIndex + 1
  {
    forall k | 0 <= k < |CallsOf(q.out)| ensures CallsOf(q.out)[k].block != q.blockIndex + 1 {
      assert CallMatches(q, items, k);
    }
  }

  /** A new index opens a call of its own, after all others. */
  lemma NewPieceCall(q: Parser, r: Parser, items: seq<Item>, t: ToolPiece, b: int, k: nat)
    requires Content(q, items) && t.index !in q.blocks && k <= |q.order|
    requires CallsOf(r.out) == CallsOf(q.out) + [Call(b, t.id, t.name, t.args)]
    requires r.order == q.order + [b] && r.blocks == q.blocks[t.index := b]
    ensures CallMatches(r, items + [Piece(t)], k)
  {
    var index := if k < |q.order| then Seen(items)[k] else t.index;
    PieceSnoc(items, t, index);
    SeenIffNamed(items, t.index);
    if k < |q.order| {
      assert CallMatches(q, items, k);
      assert JoinedArgs(items, index) + "" == JoinedArgs(items, index);
    } else {
      assert "" + t.args == t.args;
    }
  }

  lemma NewPieceKeepsContent(q: Parser, items: seq<Item>, t: ToolPiece)
    requires Sound(q) && Content(q, items) && !q.textOpen && t.index !in q.blocks
    ensures Content(PutArgs(OpenTool(q, t), t), items + [Piece(t)])
  {
    var r := PutArgs(OpenTool(q, t), t);
    CallsBelow(q, items);
    NewToolMeaning(q, t);
    PieceSnoc(items, t, 0);
    forall k | 0 <= k < |r.order| ensures CallMatches(r, items + [Piece(t)], k) {
      NewPieceCall(q, r, items, t, q.blockIndex + 1, k);
    }
  }

  lemma PieceKeepsContent(p: Parser, items: seq<Item>, t: ToolPiece)
    requires Sound(p) && Content(p, items)
    ensures Content(Put(p, Piece(t)), items + [Piece(t)])
  {
    if t.index in p.blocks {
      KnownPieceKeepsContent(p, items, t);
    } else {
      CloseTextSound(p);
      CloseTextKeepsContent(p, items);
      NewPieceKeepsContent(CloseText(p), items, t);
      assert OpenTool(p, t) == OpenTool(CloseText(p), t);
    }
  }

  lemma {:induction false} PutAllContent(items: seq<Item>)
    ensures Content(PutAll(FIRST, items), items)
  {
    if items == [] {
      assert [StreamStart("", "")][..0] == [];
    } else {
      var init, last := items[..|items| - 1], items[|items| - 1];
      var p := PutAll(FIRST, init);
      PutAllContent(init);
      PutAllSound(init);
      assert init + [last] == items;
      match last
      case Reason(_) => OtherKeepsContent(p, init, last);
      case Spent(_) => OtherKeepsContent(p, init, last);
      case Text(text) => TextKeepsContent(p, init, text);
      case Piece(t) => PieceKeepsContent(p, init, t);
    }
  }

  // ----- the closing events add no content -----

  lemma {:induction false} EndsKeepMeaning(out: seq<Event>, order: seq<int>)
    ensures TextOf(out + Ends(order)) == TextOf(out)
    ensures CallsOf(out + Ends(order)) == CallsOf(out)
  {
    if order == [] {
      assert out + Ends(order) == out;
    } else {
      var init := order[..|order| - 1];
      EndsKeepMeaning(out, init);
      assert out + Ends(order) == (out + Ends(init)) + [BlockEnd(order[|order| - 1])];
      MeaningSnoc(out + Ends(init), BlockEnd(order[|order| - 1]));
    }
  }

  lemma SettledKeepsMeaning(p: Parser)
    ensures TextOf(Settled(p)) == TextOf(p.out) && CallsOf(Settled(p)) == CallsOf(p.out)
  {
    if p.textOpen {
      MeaningSnoc(p.out, BlockEnd(p.blockIndex));
    }
    EndsKeepMeaning(CloseText(p).out, p.order);
    var out := CloseText(p).out + Ends(p.order);
    MeaningSnoc(out, BlockStart(0, "text"));
    MeaningSnoc(out + [BlockStart(0, "text")], BlockEnd(0));
  }

  lemma ClosingMeaning(out: seq<Event>, reason: StopReason, input: int, output: int)
    ensures var all := out + ([Finish(reason)] + [Usage(input, output, 0, 0)] + [StreamEnd]);
            && TextOf(all) == TextOf(out) && CallsOf(all) == CallsOf(out)
            && StopOf(all) == reason && TokensOf(all) == (input, output)
  {
    MeaningSnoc(out, Finish(reason));
    MeaningSnoc(out + [Finish(reason)], Usage(input, output, 0, 0));
    MeaningSnoc(out + [Finish(reason)] + [Usage(input, output, 0, 0)], StreamEnd);
    assert out + ([Finish(reason)] + [Usage(input, output, 0, 0)] + [StreamEnd])
        == out + [Finish(reason)] + [Usage(input, output, 0, 0)] + [StreamEnd];
  }

  /** The call is what the pieces of that tool index say. */
  ghost predicate Carries(call: Call, items: seq<Item>, index: int) {
    && FirstPiece(items, index).Some?
    && call.id == FirstPiece(items, index).value.id && call.name == FirstPiece(items, index).value.name
    && call.args == JoinedArgs(items, index)
  }

  /**
   * For every sequence of chunks: the text arrives joined; there is one call for each tool index, in
   * the order of first appearance, named by its first piece, with the arguments of all its pieces
   * joined; the last usage counts; the last reason decides, unless there is a call.
   */
  lemma StreamKeepsContent(items: seq<Item>, normalize: string -> string)
    ensures var out := StreamOf(items, normalize);
            && TextOf(out) == JoinedText(items)
            && |CallsOf(out)| == |Seen(items)|
            && (forall k :: 0 <= k < |Seen(items)| ==> Carries(CallsOf(out)[k], items, Seen(items)[k]))
            && StopOf(out) == MapFinish(normalize(LastReason(items)), Seen(items) != [])
            && TokensOf(out) == (LastSpent(items).prompt, LastSpent(items).completion)
  {
    var p := PutAll(FIRST, items);
    PutAllContent(items);
    PutAllSound(items);
    StreamMeaning(items, normalize);
    CallsCarry(p, items);
  }

  lemma StreamMeaning(items: seq<Item>, normalize: string -> string)
    ensures var out := StreamOf(items, normalize);
            var p := PutAll(FIRST, items);
            && TextOf(out) == TextOf(p.out) && CallsOf(out) == CallsOf(p.out)
            && StopOf(out) == MapFinish(normalize(p.finish), p.hasTool)
            && TokensOf(out) == (p.usage.prompt, p.usage.completion)
  {
    var p := PutAll(FIRST, items);
    SettledKeepsMeaning(p);
    ClosingMeaning(Settled(p), MapFinish(normalize(p.finish), p.hasTool), p.usage.prompt, p.usage.completion);
  }

  lemma CallsCarry(p: Parser, items: seq<Item>)
    requires Content(p, items) && Sound(p)
    ensures |CallsOf(p.out)| == |Seen(items)|
    ensures forall k :: 0 <= k < |Seen(items)| ==> Carries(CallsOf(p.out)[k], items, Seen(items)[k])
    ensures p.hasTool == (Seen(items) != [])
  {
    forall k | 0 <= k < |Seen(items)| ensures Carries(CallsOf(p.out)[k], items, Seen(items)[k]) {
      assert CallMatches(p, items, k);
    }
  }
}
