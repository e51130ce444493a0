/** The neutral stream written as Responses-API events, one output item for each block. */
module ResponsesStream {
  import opened Options
  import opened StreamIR

  /** An item as it is announced and as it is reported done. A reasoning item's summary is a list of texts. */
  datatype Item =
    | Message(id: string, text: string)
    | Reasoning(id: string, summary: seq<string>, encrypted: string)
    | FunctionCall(id: string, name: string)

  /** The reasoning item a signature holds when an earlier turn packed one into it. */
  datatype Envelope = Envelope(id: string, summary: seq<string>, encrypted: string)

  /** What the writer takes from elsewhere: the message id, the parts drawn at random for the ids of the n-th block,
      announced and done, and how a signature unpacks. */
  datatype Source = Source(
    messageID: string,
    added: nat -> string,
    done: nat -> string,
    unpack: string -> Option<Envelope>)

  datatype Sse =
    | Created
    | ItemAdded(outputIndex: int, item: Item)
    | TextPiece(outputIndex: int, id: string, piece: string)
    | ReasoningPiece(outputIndex: int, id: string, piece: string)
    | ArgsPiece(outputIndex: int, id: string, piece: string)
    | ItemDone(outputIndex: int, item: Item)
    | Completed(input: int, output: int, total: int)

  // ----- the writer -----

  /** The current block: its number, its place, its kind, and what it has gathered. */
  datatype Block = Block(
    number: nat,
    outputIndex: int,
    itemID: string,
    blockType: string,
    toolID: string,
    toolName: string,
    buf: string,
    signature: string)

  datatype Writer = Writer(cur: Option<Block>, outputIndex: int, begun: nat, input: int, output: int, sent: seq<Sse>)

  const CREATED := Writer(None, 0, 0, 0, 0, [Created])

  function ItemID(o: Source, n: nat): string {
    "item_" + o.added(n)
  }

  /** A signature that unpacks stands for the whole item. */
  function ReasoningItem(o: Source, number: nat, text: string, signature: string): Item {
    var envelope := o.unpack(signature);
    if envelope.Some? then Reasoning(envelope.value.id, envelope.value.summary, envelope.value.encrypted)
    else Reasoning("rs_" + o.done(number), if text == "" then [] else [text], "")
  }

  function DoneItem(o: Source, b: Block): Item {
    if b.blockType == "text" then Message(o.messageID, b.buf)
    else if b.blockType == "reasoning" then ReasoningItem(o, b.number, b.buf, b.signature)
    else FunctionCall(b.toolID, b.toolName)
  }

  function AddedItem(o: Source, itemID: string, blockType: string): Item {
    if blockType == "reasoning" then Reasoning(itemID, [], "") else Message(o.messageID, "")
  }

  function Gather(w: Writer, text: string, sse: Sse): Writer
    requires w.cur.Some?
  {
    w.(cur := Some(w.cur.value.(buf := w.cur.value.buf + text)), sent := w.sent + [sse])
  }

  function Translate(o: Source, w: Writer, ev: Event): Writer {
    match ev
    case StreamStart(_, _) => w
    case BlockStart(_, kind) =>
      var id := ItemID(o, w.begun);
      w.(cur := Some(Block(w.begun, w.outputIndex, id, kind, "", "", "", "")), begun := w.begun + 1,
         sent := w.sent + [ItemAdded(w.outputIndex, AddedItem(o, id, kind))])
    case ToolStart(_, id, name) =>
      w.(cur := Some(Block(w.begun, w.outputIndex, "", "tool_use", id, name, "", "")), begun := w.begun + 1,
         sent := w.sent + [ItemAdded(w.outputIndex, FunctionCall(id, name))])
    case TextDelta(_, text) =>
      if w.cur.None? || text == "" then w
      else Gather(w, text, TextPiece(w.cur.value.outputIndex, o.messageID, text))
    case ReasoningDelta(_, text, signature) =>
      if w.cur.None? then w
      else if text != "" then Gather(w, text, ReasoningPiece(w.cur.value.outputIndex, w.cur.value.itemID, text))
      else if signature != "" then w.(cur := Some(w.cur.value.(signature := signature)))
      else w
    case ToolDelta(_, json) =>
      if w.cur.None? || json == "" then w
      else w.(sent := w.sent + [ArgsPiece(w.cur.value.outputIndex, w.cur.value.toolID, json)])
    case BlockEnd(_) =>
      if w.cur.None? then w
      else w.(cur := None, outputIndex := w.outputIndex + 1,
              sent := w.sent + [ItemDone(w.cur.value.outputIndex, DoneItem(o, w.cur.value))])
    case Finish(_) => w
    case Usage(input, output, _, _) => w.(input := input, output := output)
    case StreamEnd => w.(sent := w.sent + [Completed(w.input, w.output, w.input + w.output)])
  }

  function TranslateAll(o: Source, evs: seq<Event>): Writer {
    if evs == [] then CREATED else Translate(o, TranslateAll(o, evs[..|evs| - 1]), evs[|evs| - 1])
  }

  class ResponsesWriter {
    const source: Source
    var cur: Option<Block>
    var outputIndex: int
    var begun: nat
    var inputTokens: int
    var outputTokens: int
    var sent: seq<Sse>

    ghost function State(): Writer
      reads this
    {
      Writer(cur, outputIndex, begun, inputTokens, outputTokens, sent)
    }

    constructor (source: Source)
      ensures this.source == source && State() == CREATED
    {
      this.source := source;
      cur, outputIndex, begun, inputTokens, outputTokens, sent := None, 0, 0, 0, 0, [Created];
    }

    method WriteStream(evs: seq<Event>)
      requires State() == CREATED
      modifies this
      ensures State() == TranslateAll(source, evs)
    {
      for i := 0 to |evs|
        invariant State() == TranslateAll(source, evs[..i])
      {
        assert evs[..i + 1][..i] == evs[..i];
        TranslateEvent(evs[i]);
      }
      assert evs[..|evs|] == evs;
    }

    method TranslateEvent(ev: Event)
      modifies this
      ensures State() == Translate(source, old(State()), ev)
    {
      match ev {
        case StreamStart(_, _) =>
        case BlockStart(_, kind) =>
          var itemID := ItemID(source, begun);
          cur := Some(Block(begun, outputIndex, itemID, kind, "", "", "", ""));
          begun := begun + 1;
          var item := Message(source.messageID, "");
          if kind == "reasoning" {
            item := Reasoning(itemID, [], "");
          }
          sent := sent + [ItemAdded(outputIndex, item)];
        case ToolStart(_, id, name) =>
          cur := Some(Block(begun, outputIndex, "", "tool_use", id, name, "", ""));
          begun := begun + 1;
          sent := sent + [ItemAdded(outputIndex, FunctionCall(id, name))];
        case TextDelta(_, text) =>
          if cur.None? || text == "" {
            return;
          }
          cur := Some(cur.value.(buf := cur.value.buf + text));
          sent := sent + [TextPiece(cur.value.outputIndex, source.messageID, text)];
        case ReasoningDelta(_, text, signature) =>
          if cur.None? {
            return;
          }
          if text != "" {
            cur := Some(cur.value.(buf := cur.value.buf + text));
            sent := sent + [ReasoningPiece(cur.value.outputIndex, cur.value.itemID, text)];
          } else if signature != "" {
            cur := Some(cur.value.(signature := signature));
          }
        case ToolDelta(_, json) =>
          if cur.None? || json == "" {
            return;
          }
          sent := sent + [ArgsPiece(cur.value.outputIndex, cur.value.toolID, json)];
        case BlockEnd(_) =>
          if cur.None? {
            return;
          }
          sent := sent + [ItemDone(cur.value.outputIndex, DoneItem(source, cur.value))];
          outputIndex := outputIndex + 1;
          cur := None;
        case Finish(_) =>
        case Usage(input, output, _, _) =>
          inputTokens, outputTokens := input, output;
        case StreamEnd =>
          sent := sent + [Completed(inputTokens, outputTokens, inputTokens + outputTokens)];
      }
    }
  }

  // ----- what a Responses client may rely on -----

  /** The item under way: its announcement, and its pieces joined. */
  datatype Underway = Underway(item: Item, joined: string)

  /** `idsKept`: every item done so far had the id it was announced under. */
  datatype Pairing = Pairing(created: bool, next: nat, underway: Option<Underway>, idsKept: bool, completed: bool)

  function Expect(ok: bool, c: Pairing): Option<Pairing> {
    if ok then Some(c) else None
  }

  predicate SameKind(a: Item, b: Item) {
    (a.Message? <==> b.Message?) && (a.Reasoning? <==> b.Reasoning?)
  }

  function Joined(parts: seq<string>): string {
    if parts == [] then "" else Joined(parts[..|parts| - 1]) + parts[|parts| - 1]
  }

  /** A done item matches its announcement, and its text is its pieces joined. */
  predicate DoneRightly(u: Underway, item: Item) {
    && SameKind(u.item, item)
    && (item.Message? ==> item.text == u.joined)
    && (item.Reasoning? ==> Joined(item.summary) == u.joined)
    && (item.FunctionCall? ==> item == u.item)
  }

  function Grow(c: Pairing, ok: bool, i: int, id: string, piece: string): Option<Pairing>
    requires ok ==> c.underway.Some?
  {
    if ok && i == c.next && id == c.underway.value.item.id
    then Some(c.(underway := Some(Underway(c.underway.value.item, c.underway.value.joined + piece)))) else None
  }

  function Follow(c: Pairing, s: Sse): Option<Pairing> {
    match s
    case Created => Expect(!c.created, c.(created := true))
    case ItemAdded(i, item) =>
      Expect(c.created && !c.completed && c.underway.None? && i == c.next, c.(underway := Some(Underway(item, ""))))
    case TextPiece(i, id, piece) => Grow(c, c.underway.Some? && c.underway.value.item.Message?, i, id, piece)
    case ReasoningPiece(i, id, piece) => Grow(c, c.underway.Some? && c.underway.value.item.Reasoning?, i, id, piece)
    case ArgsPiece(i, id, _) => Grow(c, c.underway.Some? && c.underway.value.item.FunctionCall?, i, id, "")
    case ItemDone(i, item) =>
      Expect(c.underway.Some? && i == c.next && DoneRightly(c.underway.value, item),
             c.(underway := None, next := c.next + 1,
                idsKept := c.idsKept && c.underway.Some? && c.underway.value.item.id == item.id))
    case Completed(input, output, total) =>
      Expect(c.created && !c.completed && c.underway.None? && total == input + output, c.(completed := true))
  }

  function FollowAll(sent: seq<Sse>): Option<Pairing> {
    if sent == [] then Some(Pairing(false, 0, None, true, false))
    else
      var c := FollowAll(sent[..|sent| - 1]);
      if c.None? then None else Follow(c.value, sent[|sent| - 1])
  }

  /**
   * Items come one after another at output index 0, 1, 2, ...; each is added, grows by pieces under its id, and is
   * done before the next, its done text being its pieces joined; one completion comes last.
   */
  predicate Paired(sent: seq<Sse>) {
    FollowAll(sent).Some? && FollowAll(sent).value.completed
  }

  /** Besides, every item is done under the id it was announced under. */
  predicate IdsKept(sent: seq<Sse>) {
    Paired(sent) && FollowAll(sent).value.idsKept
  }

  lemma FollowSnoc(sent: seq<Sse>, s: Sse)
    ensures FollowAll(sent + [s]) == if FollowAll(sent).None? then None else Follow(FollowAll(sent).value, s)
  {
    assert (sent + [s])[..|sent|] == sent;
  }

  // ----- what the reasoning blocks of a stream hold -----

  /** A reasoning block: its text joined, and its last signature. A delta with a text carries no signature. */
  datatype Thought = Thought(text: string, signature: string)

  function Think(t: Thought, text: string, signature: string): Thought {
    if text != "" then t.(text := t.text + text) else if signature != "" then t.(signature := signature) else t
  }

  function ThoughtsAfter(thoughts: map<int, Thought>, ev: Event): map<int, Thought> {
    match ev
    case BlockStart(i, kind) => if kind == "reasoning" then thoughts[i := Thought("", "")] else thoughts
    case ReasoningDelta(i, text, signature) =>
      if i in thoughts then thoughts[i := Think(thoughts[i], text, signature)] else thoughts
    case _ => thoughts
  }

  /** The reasoning blocks by their index. */
  function ThoughtsOf(evs: seq<Event>): map<int, Thought> {
    if evs == [] then map[] else ThoughtsAfter(ThoughtsOf(evs[..|evs| - 1]), evs[|evs| - 1])
  }

  /** The signature unpacks to nothing, or to the text the block said. */
  predicate SaysTheSame(o: Source, t: Thought) {
    o.unpack(t.signature).None? || Joined(o.unpack(t.signature).value.summary) == t.text
  }

  /** The signature unpacks to an item of the very id the writer drew for this block. */
  predicate SameID(o: Source, i: int, t: Thought) {
    i >= 0 && o.unpack(t.signature).Some? && o.unpack(t.signature).value.id == ItemID(o, i)
  }

  predicate Closed(c: Context, thoughts: map<int, Thought>, i: int) {
    i in thoughts && i !in c.open
  }

  ghost predicate ClosedSayTheSame(o: Source, c: Context, thoughts: map<int, Thought>) {
    forall i :: Closed(c, thoughts, i) ==> SaysTheSame(o, thoughts[i])
  }

  ghost predicate ClosedSameID(o: Source, c: Context, thoughts: map<int, Thought>) {
    forall i :: Closed(c, thoughts, i) ==> SameID(o, i, thoughts[i])
  }

  ghost predicate InRange(c: Context, thoughts: map<int, Thought>) {
    && (forall i :: i in thoughts ==> 0 <= i < c.blocks)
    && (forall i :: i in c.open ==> 0 <= i < c.blocks && (c.open[i] == "reasoning" <==> i in thoughts))
  }

  /** Only the end of a block closes one, and closed ones change no more. */
  lemma ClosedNext(c: Context, thoughts: map<int, Thought>, ev: Event, d: Context)
    requires InRange(c, thoughts) && Advance(c, ev) == Some(d)
    ensures InRange(d, ThoughtsAfter(thoughts, ev))
    ensures forall i :: Closed(d, ThoughtsAfter(thoughts, ev), i)
                        <==> Closed(c, thoughts, i) || (ev.BlockEnd? && i == ev.index && i in thoughts)
    ensures forall i :: Closed(c, thoughts, i) ==> ThoughtsAfter(thoughts, ev)[i] == thoughts[i]
  {
  }

  lemma {:induction false} ThoughtsInRange(evs: seq<Event>)
    requires Scan(evs).Some?
    ensures InRange(Scan(evs).value, ThoughtsOf(evs))
  {
    if evs != [] {
      ThoughtsInRange(evs[..|evs| - 1]);
      ClosedNext(Scan(evs[..|evs| - 1]).value, ThoughtsOf(evs[..|evs| - 1]), evs[|evs| - 1], Scan(evs).value);
    }
  }

  lemma JoinedOne(text: string)
    ensures Joined(if text == "" then [] else [text]) == text
  {
    assert [text][..0] == [] && "" + text == text;
  }

  // ----- paired exactly when sequential and truthful -----

  function OpenAs(c: Context, cur: Option<Block>): map<int, string> {
    if cur.Some? then map[c.blocks - 1 := cur.value.blockType] else map[]
  }

  function Announced(o: Source, b: Block): Item {
    if b.blockType == "tool_use" then FunctionCall(b.toolID, b.toolName) else AddedItem(o, b.itemID, b.blockType)
  }

  predicate KnownKind(kind: string) {
    kind == "text" || kind == "reasoning" || kind == "tool_use"
  }

  /** The writer's current block is the stream's open one and the client's item under way. */
  ghost predicate InStep(o: Source, c: Context, w: Writer, p: Pairing) {
    && p.created && p.next == w.outputIndex && p.completed == (c.phase == Ended)
    && (c.phase != Body ==> w.cur.None?)
    && c.open == OpenAs(c, w.cur) && (w.cur.Some? ==> c.blocks > 0) && w.begun == c.blocks
    && p.underway.Some? == w.cur.Some?
    && (w.cur.Some? ==> && w.cur.value.outputIndex == w.outputIndex && KnownKind(w.cur.value.blockType)
                        && w.cur.value.number == c.blocks - 1
                        && (w.cur.value.blockType == "reasoning" ==> w.cur.value.itemID == ItemID(o, c.blocks - 1))
                        && p.underway.value.item == Announced(o, w.cur.value)
                        && (w.cur.value.blockType != "tool_use" ==> p.underway.value.joined == w.cur.value.buf))
    && w.outputIndex == c.blocks - |c.open|
  }

  lemma OpenKind(o: Source, c: Context, w: Writer, p: Pairing, i: int)
    requires InStep(o, c, w, p) && i in c.open
    ensures w.cur.Some? && i == c.blocks - 1 && c.open[i] == w.cur.value.blockType
    ensures |c.open| == 1 && c.open - {i} == map[]
  {
  }

  /** What the client has followed so far is in step, its item ids kept or not. */
  ghost predicate Together(o: Source, c: Context, w: Writer, idsKept: bool) {
    FollowAll(w.sent).Some? && InStep(o, c, w, FollowAll(w.sent).value) && FollowAll(w.sent).value.idsKept == idsKept
  }

  /** The current block, if the event ends it, is reported done as the client expects. */
  predicate EndsRightly(o: Source, w: Writer, p: Pairing, ev: Event) {
    ev.BlockEnd? && w.cur.Some? && p.underway.Some? ==> DoneRightly(p.underway.value, DoneItem(o, w.cur.value))
  }

  /** The event keeps the ids kept so far. */
  predicate KeepsID(o: Source, w: Writer, p: Pairing, ev: Event) {
    ev.BlockEnd? && w.cur.Some? && p.underway.Some? ==> p.underway.value.item.id == DoneItem(o, w.cur.value).id
  }

  /** An event that leaves at most one block open, and ends none wrongly, keeps all three in step. */
  lemma StepTogether(o: Source, c: Context, w: Writer, p: Pairing, ev: Event, d: Context)
    requires InStep(o, c, w, p) && FollowAll(w.sent) == Some(p)
    requires Advance(c, ev) == Some(d) && |d.open| <= 1 && EndsRightly(o, w, p, ev)
    ensures Together(o, d, Translate(o, w, ev), p.idsKept && KeepsID(o, w, p, ev))
  {
    if ev.BlockStart? || ev.ToolStart? {
      OpenTogether(o, c, w, p, ev, d);
    } else if ev.BlockEnd? {
      CloseTogether(o, c, w, p, ev, d);
    } else if ev.TextDelta? || ev.ReasoningDelta? || ev.ToolDelta? {
      DeltaTogether(o, c, w, p, ev);
    } else if ev.StreamEnd? {
      FollowSnoc(w.sent, Completed(w.input, w.output, w.input + w.output));
    }
  }

  lemma OpenTogether(o: Source, c: Context, w: Writer, p: Pairing, ev: Event, d: Context)
    requires InStep(o, c, w, p) && FollowAll(w.sent) == Some(p) && (ev.BlockStart? || ev.ToolStart?)
    requires Advance(c, ev) == Some(d) && |d.open| <= 1
    ensures Together(o, d, Translate(o, w, ev), p.idsKept)
  {
    var item := if ev.ToolStart? then FunctionCall(ev.id, ev.name) else AddedItem(o, ItemID(o, w.begun), ev.blockType);
    FollowSnoc(w.sent, ItemAdded(w.outputIndex, item));
    NoneUnderway(o, c, w, p, ev, d);
  }

  lemma NoneUnderway(o: Source, c: Context, w: Writer, p: Pairing, ev: Event, d: Context)
    requires InStep(o, c, w, p) && (ev.BlockStart? || ev.ToolStart?) && Advance(c, ev) == Some(d) && |d.open| <= 1
    ensures w.cur.None?
  {
    if w.cur.Some? {
      OpenKind(o, c, w, p, c.blocks - 1);
      TwoOpen(d.open, c.blocks - 1, c.blocks);
    }
  }

  lemma TwoOpen(open: map<int, string>, i: int, j: int)
    requires i in open && j in open && i != j
    ensures |open| >= 2
  {
    var rest := open.Keys - {i};
    assert j in rest;
    assert |open.Keys| == |rest| + 1;
  }

  lemma CloseTogether(o: Source, c: Context, w: Writer, p: Pairing, ev: Event, d: Context)
    requires InStep(o, c, w, p) && FollowAll(w.sent) == Some(p) && ev.BlockEnd?
    requires Advance(c, ev) == Some(d) && EndsRightly(o, w, p, ev)
    ensures Together(o, d, Translate(o, w, ev), p.idsKept && KeepsID(o, w, p, ev))
  {
    OpenKind(o, c, w, p, ev.index);
    FollowSnoc(w.sent, ItemDone(w.outputIndex, DoneItem(o, w.cur.value)));
  }

  lemma DeltaTogether(o: Source, c: Context, w: Writer, p: Pairing, ev: Event)
    requires InStep(o, c, w, p) && FollowAll(w.sent) == Some(p)
    requires (ev.TextDelta? || ev.ReasoningDelta? || ev.ToolDelta?) && Advance(c, ev) == Some(c)
    ensures Together(o, c, Translate(o, w, ev), p.idsKept)
  {
    OpenKind(o, c, w, p, ev.index);
    match ev
    case TextDelta(i, text) => TextTogether(o, c, w, p, i, text);
    case ReasoningDelta(i, text, signature) => ReasoningTogether(o, c, w, p, i, text, signature);
    case ToolDelta(i, json) => ArgsTogether(o, c, w, p, i, json);
  }

  lemma TextTogether(o: Source, c: Context, w: Writer, p: Pairing, i: int, text: string)
    requires InStep(o, c, w, p) && FollowAll(w.sent) == Some(p) && w.cur.Some? && w.cur.value.blockType == "text"
    ensures Together(o, c, Translate(o, w, TextDelta(i, text)), p.idsKept)
  {
    FollowSnoc(w.sent, TextPiece(w.cur.value.outputIndex, o.messageID, text));
  }

  lemma ReasoningTogether(o: Source, c: Context, w: Writer, p: Pairing, i: int, text: string, signature: string)
    requires InStep(o, c, w, p) && FollowAll(w.sent) == Some(p) && w.cur.Some? && w.cur.value.blockType == "reasoning"
    ensures Together(o, c, Translate(o, w, ReasoningDelta(i, text, signature)), p.idsKept)
  {
    FollowSnoc(w.sent, ReasoningPiece(w.cur.value.outputIndex, w.cur.value.itemID, text));
  }

  lemma ArgsTogether(o: Source, c: Context, w: Writer, p: Pairing, i: int, json: string)
    requires InStep(o, c, w, p) && FollowAll(w.sent) == Some(p) && w.cur.Some? && w.cur.value.blockType == "tool_use"
    ensures Together(o, c, Translate(o, w, ToolDelta(i, json)), p.idsKept)
  {
    FollowSnoc(w.sent, ArgsPiece(w.cur.value.outputIndex, w.cur.value.toolID, json));
    assert p.underway.value.joined + "" == p.underway.value.joined;
  }

  /** Once the client is confused it stays so. */
  lemma ConfusionStays(o: Source, w: Writer, ev: Event)
    requires FollowAll(w.sent).None?
    ensures FollowAll(Translate(o, w, ev).sent).None?
  {
    var sent := Translate(o, w, ev).sent;
    if sent != w.sent {
      assert sent[..|sent| - 1] == w.sent;
    }
  }

  /** The event that opens a second block announces a second item while the first is under way. */
  lemma SecondOpening(o: Source, c: Context, w: Writer, p: Pairing, ev: Event, d: Context)
    requires InStep(o, c, w, p) && FollowAll(w.sent) == Some(p)
    requires Advance(c, ev) == Some(d) && |d.open| > 1
    ensures FollowAll(Translate(o, w, ev).sent).None?
  {
    if ev.BlockStart? || ev.ToolStart? {
      if w.cur.None? {
        OneOpen(d.open, c.blocks);
        assert false;
      }
      var item := if ev.ToolStart? then FunctionCall(ev.id, ev.name) else AddedItem(o, ItemID(o, w.begun), ev.blockType);
      FollowSnoc(w.sent, ItemAdded(w.outputIndex, item));
    } else {
      AtMostOne(o, c, w, p, ev, d);
      assert false;
    }
  }

  lemma OneOpen(open: map<int, string>, i: int)
    requires open.Keys == {i}
    ensures |open| == 1
  {
    assert |open.Keys| == 1;
  }

  lemma AtMostOne(o: Source, c: Context, w: Writer, p: Pairing, ev: Event, d: Context)
    requires InStep(o, c, w, p) && Advance(c, ev) == Some(d) && !ev.BlockStart? && !ev.ToolStart?
    ensures |d.open| <= 1
  {
    if ev.BlockEnd? {
      OpenKind(o, c, w, p, ev.index);
    }
  }

  /** An item wrongly done confuses the client. */
  lemma WrongEnd(o: Source, c: Context, w: Writer, p: Pairing, ev: Event, d: Context)
    requires InStep(o, c, w, p) && FollowAll(w.sent) == Some(p)
    requires Advance(c, ev) == Some(d) && !EndsRightly(o, w, p, ev)
    ensures FollowAll(Translate(o, w, ev).sent).None?
  {
    FollowSnoc(w.sent, ItemDone(w.outputIndex, DoneItem(o, w.cur.value)));
  }

  // ----- what the writer remembers of a reasoning block -----

  ghost predicate Remembers(c: Context, thoughts: map<int, Thought>, w: Writer) {
    && InRange(c, thoughts)
    && (w.cur.Some? && w.cur.value.blockType == "reasoning" ==>
          c.blocks - 1 in thoughts && thoughts[c.blocks - 1] == Thought(w.cur.value.buf, w.cur.value.signature))
  }

  lemma RemembersOn(o: Source, c: Context, thoughts: map<int, Thought>, w: Writer, p: Pairing, ev: Event, d: Context)
    requires InStep(o, c, w, p) && Remembers(c, thoughts, w) && Advance(c, ev) == Some(d)
    ensures Remembers(d, ThoughtsAfter(thoughts, ev), Translate(o, w, ev))
  {
    ClosedNext(c, thoughts, ev, d);
    if ev.TextDelta? || ev.ReasoningDelta? || ev.ToolDelta? {
      OpenKind(o, c, w, p, ev.index);
      RemembersDelta(o, c, thoughts, w, ev);
    }
  }

  lemma RemembersDelta(o: Source, c: Context, thoughts: map<int, Thought>, w: Writer, ev: Event)
    requires Remembers(c, thoughts, w) && InRange(c, ThoughtsAfter(thoughts, ev)) && w.cur.Some?
    requires match ev
             case TextDelta(_, _) => w.cur.value.blockType == "text"
             case ReasoningDelta(i, _, _) => w.cur.value.blockType == "reasoning" && i == c.blocks - 1
             case ToolDelta(_, _) => w.cur.value.blockType == "tool_use"
             case _ => false
    ensures Remembers(c, ThoughtsAfter(thoughts, ev), Translate(o, w, ev))
  {
  }

  /** What the client makes of the end of a block depends on the block's thought, if it has one. */
  lemma EndOfBlock(o: Source, c: Context, thoughts: map<int, Thought>, w: Writer, p: Pairing, i: int)
    requires InStep(o, c, w, p) && Remembers(c, thoughts, w) && i in c.open
    ensures EndsRightly(o, w, p, BlockEnd(i)) <==> (i in thoughts ==> SaysTheSame(o, thoughts[i]))
    ensures KeepsID(o, w, p, BlockEnd(i)) <==> (i in thoughts ==> SameID(o, i, thoughts[i]))
  {
    OpenKind(o, c, w, p, i);
    if i in thoughts {
      ThoughtDone(o, w.cur.value, i, p.underway.value);
    }
  }

  lemma ThoughtDone(o: Source, b: Block, i: nat, u: Underway)
    requires b.blockType == "reasoning" && b.number == i && b.itemID == ItemID(o, i)
    requires u.item == Announced(o, b) && u.joined == b.buf
    ensures DoneRightly(u, DoneItem(o, b)) <==> SaysTheSame(o, Thought(b.buf, b.signature))
    ensures u.item.id == DoneItem(o, b).id <==> SameID(o, i, Thought(b.buf, b.signature))
  {
    JoinedOne(b.buf);
    assert ItemID(o, i)[0] == 'i' && ("rs_" + o.done(i))[0] == 'r';
  }

  /** What has closed so far grows truthfully, and keeps its ids, exactly as the client sees it. */
  lemma ClosedTogether(o: Source, c: Context, thoughts: map<int, Thought>, w: Writer, p: Pairing, ev: Event, d: Context)
    requires InStep(o, c, w, p) && Remembers(c, thoughts, w) && Advance(c, ev) == Some(d)
    ensures ClosedSayTheSame(o, d, ThoughtsAfter(thoughts, ev)) <==>
              ClosedSayTheSame(o, c, thoughts) && EndsRightly(o, w, p, ev)
    ensures ClosedSameID(o, d, ThoughtsAfter(thoughts, ev)) <==> ClosedSameID(o, c, thoughts) && KeepsID(o, w, p, ev)
  {
    if ev.BlockEnd? {
      EndOfBlock(o, c, thoughts, w, p, ev.index);
      OneClosed(o, c, thoughts, ev.index, d);
    } else {
      SameClosed(o, c, thoughts, ev, d);
    }
  }

  /** An event other than the end of a block leaves the closed blocks as they were. */
  lemma SameClosed(o: Source, c: Context, thoughts: map<int, Thought>, ev: Event, d: Context)
    requires InRange(c, thoughts) && Advance(c, ev) == Some(d) && !ev.BlockEnd?
    ensures var after := ThoughtsAfter(thoughts, ev);
            && (ClosedSayTheSame(o, d, after) <==> ClosedSayTheSame(o, c, thoughts))
            && (ClosedSameID(o, d, after) <==> ClosedSameID(o, c, thoughts))
  {
    ClosedNext(c, thoughts, ev, d);
  }

  /** The end of a block closes what it thought. */
  lemma OneClosed(o: Source, c: Context, thoughts: map<int, Thought>, i: int, d: Context)
    requires InRange(c, thoughts) && Advance(c, BlockEnd(i)) == Some(d)
    ensures ClosedSayTheSame(o, d, thoughts) <==>
              ClosedSayTheSame(o, c, thoughts) && (i in thoughts ==> SaysTheSame(o, thoughts[i]))
    ensures ClosedSameID(o, d, thoughts) <==>
              ClosedSameID(o, c, thoughts) && (i in thoughts ==> SameID(o, i, thoughts[i]))
  {
    ClosedNext(c, thoughts, BlockEnd(i), d);
    assert Closed(d, thoughts, i) <==> i in thoughts;
    assert forall j :: Closed(c, thoughts, j) ==> Closed(d, thoughts, j);
  }

  // ----- the whole stream -----

  /** No two blocks were ever open at once, and none that has closed unpacks to something it did not say. */
  ghost predicate Truthful(o: Source, evs: seq<Event>) {
    Sequential(evs) && ClosedSayTheSame(o, ScanOne(evs).value, ThoughtsOf(evs))
  }

  /** All that is known after a truthful stream. */
  ghost predicate TogetherAfter(o: Source, evs: seq<Event>) {
    && Truthful(o, evs) && Remembers(ScanOne(evs).value, ThoughtsOf(evs), TranslateAll(o, evs))
    && Together(o, ScanOne(evs).value, TranslateAll(o, evs), ClosedSameID(o, ScanOne(evs).value, ThoughtsOf(evs)))
  }

  lemma FirstTogether(o: Source)
    ensures TogetherAfter(o, [])
  {
    FollowSnoc([], Created);
    assert [] + [Created] == CREATED.sent;
  }

  lemma NextTogether(o: Source, init: seq<Event>, ev: Event, d: Context)
    requires TogetherAfter(o, init) && Advance(ScanOne(init).value, ev) == Some(d) && |d.open| <= 1
    ensures ScanOne(init + [ev]) == Some(d)
    ensures if ClosedSayTheSame(o, d, ThoughtsOf(init + [ev])) then TogetherAfter(o, init + [ev])
            else FollowAll(TranslateAll(o, init + [ev]).sent).None?
  {
    var c, thoughts, w := ScanOne(init).value, ThoughtsOf(init), TranslateAll(o, init);
    var p := FollowAll(w.sent).value;
    assert (init + [ev])[..|init|] == init;
    RemembersOn(o, c, thoughts, w, p, ev, d);
    ClosedTogether(o, c, thoughts, w, p, ev, d);
    if EndsRightly(o, w, p, ev) {
      StepTogether(o, c, w, p, ev, d);
    } else {
      WrongEnd(o, c, w, p, ev, d);
    }
  }

  ghost predicate TogetherIffTruthful(o: Source, evs: seq<Event>) {
    if Truthful(o, evs) then TogetherAfter(o, evs) else FollowAll(TranslateAll(o, evs).sent).None?
  }

  lemma NextIffTruthful(o: Source, init: seq<Event>, ev: Event)
    requires Scan(init).Some? && Scan(init + [ev]).Some? && TogetherIffTruthful(o, init)
    ensures TogetherIffTruthful(o, init + [ev])
  {
    ScanSnoc(init, ev);
    assert (init + [ev])[..|init|] == init;
    var d := Scan(init + [ev]).value;
    if !Truthful(o, init) {
      ConfusionStays(o, TranslateAll(o, init), ev);
      if Truthful(o, init + [ev]) {
        NotTruthfulOn(o, init, ev);
      }
    } else {
      SequentialScans(init);
      if |d.open| <= 1 {
        NextTogether(o, init, ev, d);
      } else {
        SecondOpening(o, ScanOne(init).value, TranslateAll(o, init), FollowAll(TranslateAll(o, init).sent).value, ev, d);
      }
    }
  }

  /** For every stream the grammar accepts so far: all is in step, or the client is confused. */
  lemma {:induction false} TogetherOrConfused(o: Source, evs: seq<Event>)
    requires Scan(evs).Some?
    ensures TogetherIffTruthful(o, evs)
  {
    if evs == [] {
      FirstTogether(o);
    } else {
      var init, ev := evs[..|evs| - 1], evs[|evs| - 1];
      assert evs == init + [ev];
      TogetherOrConfused(o, init);
      NextIffTruthful(o, init, ev);
    }
  }

  lemma NotTruthfulOn(o: Source, init: seq<Event>, ev: Event)
    requires Scan(init).Some? && Truthful(o, init + [ev])
    ensures Truthful(o, init)
  {
    assert (init + [ev])[..|init|] == init;
    SequentialScans(init);
    ThoughtsInRange(init);
    var c, d := ScanOne(init).value, ScanOne(init + [ev]).value;
    ClosedNext(c, ThoughtsOf(init), ev, d);
    forall i | Closed(c, ThoughtsOf(init), i)
      ensures SaysTheSame(o, ThoughtsOf(init)[i])
    {
      assert Closed(d, ThoughtsOf(init + [ev]), i);
    }
  }

  /** Every reasoning block's last signature unpacks to nothing, or to the text the block said. */
  ghost predicate SummariesHold(o: Source, evs: seq<Event>) {
    forall i :: i in ThoughtsOf(evs) ==> SaysTheSame(o, ThoughtsOf(evs)[i])
  }

  lemma {:induction false} EndedIsClosed(evs: seq<Event>)
    requires Scan(evs).Some?
    ensures Scan(evs).value.phase != Body ==> Scan(evs).value.open == map[]
  {
    if evs != [] {
      EndedIsClosed(evs[..|evs| - 1]);
    }
  }

  lemma AllClosed(evs: seq<Event>)
    requires WellFormed(evs) && Sequential(evs)
    ensures forall i :: Closed(ScanOne(evs).value, ThoughtsOf(evs), i) <==> i in ThoughtsOf(evs)
  {
    SequentialScans(evs);
    EndedIsClosed(evs);
  }

  lemma TruthfulIff(o: Source, evs: seq<Event>)
    requires WellFormed(evs)
    ensures Truthful(o, evs) <==> Sequential(evs) && SummariesHold(o, evs)
  {
    if Sequential(evs) {
      AllClosed(evs);
    }
  }

  /**
   * For every well-formed stream: its items are properly paired exactly when no two of its blocks are ever open at
   * once and no reasoning block's signature unpacks to something else than the block said.
   */
  lemma PairedIff(o: Source, evs: seq<Event>)
    requires WellFormed(evs)
    ensures Paired(TranslateAll(o, evs).sent) <==> Sequential(evs) && SummariesHold(o, evs)
  {
    TruthfulIff(o, evs);
    TogetherOrConfused(o, evs);
    if Truthful(o, evs) {
      SequentialScans(evs);
    }
  }

  /** Every reasoning block's signature unpacks to an item of the very id the writer drew for the block. */
  ghost predicate ThoughtIDsHold(o: Source, evs: seq<Event>) {
    forall i :: i in ThoughtsOf(evs) ==> SameID(o, i, ThoughtsOf(evs)[i])
  }

  /** A paired stream's items are done under the ids they were announced under exactly when its reasoning blocks
      carry their ids in their signatures. One whose signature does not unpack is always done under another. */
  lemma IdsKeptIff(o: Source, evs: seq<Event>)
    requires WellFormed(evs) && Paired(TranslateAll(o, evs).sent)
    ensures IdsKept(TranslateAll(o, evs).sent) <==> ThoughtIDsHold(o, evs)
  {
    PairedIff(o, evs);
    TruthfulIff(o, evs);
    TogetherOrConfused(o, evs);
    AllClosed(evs);
  }

  // ----- one reasoning block -----

  function ThoughtSaid(text: string, signature: string): seq<Event> {
    [StreamStart("", "")] + [BlockStart(0, "reasoning")] + [ReasoningDelta(0, text, "")] + [ReasoningDelta(0, "", signature)]
    + [BlockEnd(0)]
  }

  /** A stream of one reasoning block, its signature after its text. */
  function OneThought(text: string, signature: string): seq<Event> {
    ThoughtSaid(text, signature) + [Finish(Stop)] + [Usage(0, 0, 0, 0)] + [StreamEnd]
  }

  lemma ThoughtsSnoc(evs: seq<Event>, ev: Event)
    ensures ThoughtsOf(evs + [ev]) == ThoughtsAfter(ThoughtsOf(evs), ev)
  {
    assert (evs + [ev])[..|evs|] == evs;
  }

  lemma OneMoreEvent(evs: seq<Event>, ev: Event, c: Context, d: Context)
    requires ScanOne(evs) == Some(c) && Advance(c, ev) == Some(d) && |d.open| <= 1
    ensures ScanOne(evs + [ev]) == Some(d) && ThoughtsOf(evs + [ev]) == ThoughtsAfter(ThoughtsOf(evs), ev)
  {
    ScanOneSnoc(evs, ev, c, d);
    ThoughtsSnoc(evs, ev);
  }

  lemma ThoughtSaidScan(text: string, signature: string)
    requires text != "" && signature != ""
    ensures ScanOne(ThoughtSaid(text, signature)) == Some(Context(Body, 1, map[]))
    ensures ThoughtsOf(ThoughtSaid(text, signature)) == map[0 := Thought(text, signature)]
  {
    var open := Context(Body, 1, map[0 := "reasoning"]);
    assert open.open.Keys == {0};
    OneOpen(open.open, 0);
    var evs := [StreamStart("", "")];
    assert [] + evs == evs;
    OneMoreEvent([], StreamStart("", ""), START, Context(Body, 0, map[]));
    OneMoreEvent(evs, BlockStart(0, "reasoning"), Context(Body, 0, map[]), open);
    evs := evs + [BlockStart(0, "reasoning")];
    OneMoreEvent(evs, ReasoningDelta(0, text, ""), open, open);
    evs := evs + [ReasoningDelta(0, text, "")];
    OneMoreEvent(evs, ReasoningDelta(0, "", signature), open, open);
    assert "" + text == text;
    OneMoreEvent(evs + [ReasoningDelta(0, "", signature)], BlockEnd(0), open, Context(Body, 1, map[]));
  }

  lemma OneThoughtScan(text: string, signature: string)
    requires text != "" && signature != ""
    ensures WellFormed(OneThought(text, signature)) && Sequential(OneThought(text, signature))
    ensures ThoughtsOf(OneThought(text, signature)) == map[0 := Thought(text, signature)]
  {
    ThoughtSaidScan(text, signature);
    var evs := ThoughtSaid(text, signature);
    OneMoreEvent(evs, Finish(Stop), Context(Body, 1, map[]), Context(Finished, 1, map[]));
    OneMoreEvent(evs + [Finish(Stop)], Usage(0, 0, 0, 0), Context(Finished, 1, map[]), Context(Counted, 1, map[]));
    OneMoreEvent(evs + [Finish(Stop)] + [Usage(0, 0, 0, 0)], StreamEnd, Context(Counted, 1, map[]), Context(Ended, 1, map[]));
    SequentialScans(OneThought(text, signature));
  }

  /** A block that says one thing, with a signature that unpacks to another: the client is told both. */
  lemma SaysAnother(o: Source, text: string, signature: string)
    requires text != "" && signature != "" && o.unpack(signature).Some?
    requires Joined(o.unpack(signature).value.summary) != text
    ensures WellFormed(OneThought(text, signature)) && Sequential(OneThought(text, signature))
    ensures !Paired(TranslateAll(o, OneThought(text, signature)).sent)
  {
    OneThoughtScan(text, signature);
    assert 0 in ThoughtsOf(OneThought(text, signature));
    PairedIff(o, OneThought(text, signature));
  }
}
