/** The AWS EventStream frame decoder, against an encoder of the same layout:
    total length, headers length and prelude checksum (4 bytes each), headers, payload, message checksum. */
module EventStream {
  import opened ByteStrings

  type word = w: int | 0 <= w < 0x1_0000_0000

  /** A checksum of byte strings; nothing more is assumed of it. */
  type Checksum = Bytes -> word

  const MAX_FRAME_SIZE := 10 * 0x10_0000

  datatype Error =
    | EOF | UnexpectedEOF
    | PreludeMismatch | InvalidLength | HeadersTooLong | BodyCutShort | MessageMismatch
    | NameOverflow | MissingTag | StringLengthOverflow | StringOverflow
    | BytesLengthOverflow | BytesOverflow | UnknownTag

  datatype Result<T> = Ok(value: T) | Err(error: Error)

  datatype Frame = Frame(messageType: Bytes, payload: Bytes)

  // ----- big-endian numbers -----

  function Word(n: word): (s: Bytes)
    ensures |s| == 4
  {
    [n / 0x100_0000, n / 0x1_0000 % 0x100, n / 0x100 % 0x100, n % 0x100]
  }

  function ReadWord(s: Bytes): word
    requires |s| == 4
  {
    var a: nat, b: nat, c: nat, d: nat := s[0], s[1], s[2], s[3];
    a * 0x100_0000 + b * 0x1_0000 + c * 0x100 + d
  }

  function Half(n: nat): (s: Bytes)
    requires n < 0x1_0000
    ensures |s| == 2
  {
    [n / 0x100, n % 0x100]
  }

  function ReadHalf(s: Bytes): nat
    requires |s| == 2
  {
    var a: nat, b: nat := s[0], s[1];
    a * 0x100 + b
  }

  lemma ReadWordBack(n: word)
    ensures ReadWord(Word(n)) == n
  {
    var a, b, c := n / 0x100_0000, n / 0x1_0000, n / 0x100;
    assert n == 0x100 * c + n % 0x100;
    assert c == 0x100 * b + c % 0x100;
    assert b == 0x100 * a + b % 0x100;
  }

  lemma ReadHalfBack(n: nat)
    requires n < 0x1_0000
    ensures ReadHalf(Half(n)) == n
  {
  }

  // ----- headers -----

  /** A header with its raw value bytes; tag 7 is a string, tag 6 a byte array, the others have fixed widths. */
  datatype Header = Header(name: Bytes, tag: byte, value: Bytes)

  predicate Sized(tag: byte) {
    tag == 6 || tag == 7
  }

  function FixedWidth(tag: byte): nat {
    if tag == 2 then 1 else if tag == 3 then 2 else if tag == 4 then 4
    else if tag == 5 || tag == 8 then 8 else if tag == 9 then 16 else 0
  }

  predicate ValidHeader(h: Header) {
    && |h.name| < 0x100
    && h.tag <= 9
    && (if Sized(h.tag) then |h.value| < 0x1_0000 else |h.value| == FixedWidth(h.tag))
  }

  function EncodeHeader(h: Header): Bytes
    requires ValidHeader(h)
  {
    [|h.name|] + h.name + [h.tag] + (if Sized(h.tag) then Half(|h.value|) else []) + h.value
  }

  predicate ValidHeaders(hs: seq<Header>) {
    forall i :: 0 <= i < |hs| ==> ValidHeader(hs[i])
  }

  function EncodeHeaders(hs: seq<Header>): Bytes
    requires ValidHeaders(hs)
  {
    if hs == [] then [] else EncodeHeader(hs[0]) + EncodeHeaders(hs[1..])
  }

  // ":message-type"
  const MESSAGE_TYPE: Bytes :=
    [0x3A, 0x6D, 0x65, 0x73, 0x73, 0x61, 0x67, 0x65, 0x2D, 0x74, 0x79, 0x70, 0x65]

  /** The last string header of that name decides; any other header leaves the type as it was. */
  function Observe(messageType: Bytes, name: Bytes, tag: byte, value: Bytes): Bytes {
    if tag == 7 && name == MESSAGE_TYPE then value else messageType
  }

  function MessageTypeOf(messageType: Bytes, hs: seq<Header>): Bytes
    decreases |hs|
  {
    if hs == [] then messageType
    else MessageTypeOf(Observe(messageType, hs[0].name, hs[0].tag, hs[0].value), hs[1..])
  }

  datatype Piece = Piece(name: Bytes, tag: byte, value: Bytes, rest: Bytes)

  /** A header's value and what follows it. A fixed-width value is skipped unread, even past the end. */
  function ReadValue(tag: byte, v: Bytes): (r: Result<(Bytes, Bytes)>)
    ensures r.Ok? ==> |r.value.1| <= |v|
  {
    if Sized(tag) then
      if |v| < 2 then Err(if tag == 7 then StringLengthOverflow else BytesLengthOverflow)
      else if 2 + ReadHalf(v[..2]) > |v| then Err(if tag == 7 then StringOverflow else BytesOverflow)
      else Ok((v[2..2 + ReadHalf(v[..2])], v[2 + ReadHalf(v[..2])..]))
    else if tag > 9 then Err(UnknownTag)
    else if FixedWidth(tag) <= |v| then Ok((v[..FixedWidth(tag)], v[FixedWidth(tag)..]))
    else Ok((v, []))
  }

  /** Takes one header off the front. */
  function ReadHeader(t: Bytes): (r: Result<Piece>)
    requires t != []
    ensures r.Ok? ==> |r.value.rest| < |t|
  {
    var n := t[0];
    if 1 + n > |t| then Err(NameOverflow)
    else if 1 + n >= |t| then Err(MissingTag)
    else
      match ReadValue(t[1 + n], t[2 + n..])
      case Err(e) => Err(e)
      case Ok((value, rest)) => Ok(Piece(t[1..1 + n], t[1 + n], value, rest))
  }

  function WalkHeaders(t: Bytes, messageType: Bytes): Result<Bytes>
    decreases |t|
  {
    if t == [] then Ok(messageType)
    else
      var r := ReadHeader(t);
      if r.Err? then Err(r.error)
      else WalkHeaders(r.value.rest, Observe(messageType, r.value.name, r.value.tag, r.value.value))
  }

  // ----- frames -----

  datatype Decoded = Decoded(result: Result<Frame>, rest: Bytes)

  function DecodeParts(crc: Checksum, prelude: Bytes, headersLen: nat, body: Bytes, check: word): Result<Frame>
    requires headersLen <= |body|
  {
    if crc(prelude + body) != check then Err(MessageMismatch)
    else
      match WalkHeaders(body[..headersLen], [])
      case Err(e) => Err(e)
      case Ok(messageType) => Ok(Frame(messageType, body[headersLen..]))
  }

  function DecodeBody(crc: Checksum, prelude: Bytes, headersLen: nat, remaining: nat, s: Bytes): Decoded
    requires headersLen <= remaining
  {
    if |s| < remaining + 4 then Decoded(Err(BodyCutShort), [])
    else
      Decoded(DecodeParts(crc, prelude, headersLen, s[..remaining], ReadWord(s[remaining..remaining + 4])),
              s[remaining + 4..])
  }

  function DecodeFrame(crc: Checksum, s: Bytes): Decoded {
    if s == [] then Decoded(Err(EOF), [])
    else if |s| < 12 then Decoded(Err(UnexpectedEOF), [])
    else
      var totalLen, headersLen, rest := ReadWord(s[0..4]), ReadWord(s[4..8]), s[12..];
      var remaining := totalLen - 16;
      if crc(s[..8]) != ReadWord(s[8..12]) then Decoded(Err(PreludeMismatch), rest)
      else if remaining < 0 || remaining > MAX_FRAME_SIZE then Decoded(Err(InvalidLength), rest)
      else if headersLen > remaining then Decoded(Err(HeadersTooLong), rest)
      else DecodeBody(crc, s[..12], headersLen, remaining, rest)
  }

  class EventStreamDecoder {
    const crc: Checksum
    var r: Bytes

    constructor (crc: Checksum, r: Bytes)
      ensures this.crc == crc && this.r == r
    {
      this.crc := crc;
      this.r := r;
    }

    /** Reads exactly `n` bytes; a reader that runs out is left empty. */
    method ReadFull(n: nat) returns (data: Bytes, ok: bool)
      modifies this
      ensures ok <==> n <= |old(r)|
      ensures ok ==> data == old(r)[..n] && r == old(r)[n..]
      ensures !ok ==> data == old(r) && r == []
    {
      if n <= |r| {
        data, r := r[..n], r[n..];
        return data, true;
      }
      data, r := r, [];
      return data, false;
    }

    method Next() returns (res: Result<Frame>)
      modifies this
      ensures Decoded(res, r) == DecodeFrame(crc, old(r))
      ensures res.Ok? ==> |r| + 16 <= |old(r)|
    {
      var prelude, ok := ReadFull(12);
      if !ok {
        return Err(if prelude == [] then EOF else UnexpectedEOF);
      }
      var totalLen := ReadWord(prelude[0..4]);
      var headersLen := ReadWord(prelude[4..8]);
      var preludeCRC := ReadWord(prelude[8..12]);
      assert old(r)[..12] == prelude && old(r)[0..4] == prelude[0..4] && old(r)[4..8] == prelude[4..8];
      assert old(r)[8..12] == prelude[8..12] && old(r)[..8] == prelude[0..8];
      if crc(prelude[0..8]) != preludeCRC {
        return Err(PreludeMismatch);
      }
      var remaining: int := (totalLen as int) - 12 - 4;
      if remaining < 0 || remaining > MAX_FRAME_SIZE {
        return Err(InvalidLength);
      }
      if headersLen > remaining {
        return Err(HeadersTooLong);
      }
      ghost var afterPrelude := r;
      var buf;
      buf, ok := ReadFull(remaining + 4);
      if !ok {
        return Err(BodyCutShort);
      }
      assert buf[..remaining] == afterPrelude[..remaining];
      assert buf[remaining..] == afterPrelude[remaining..remaining + 4];
      if crc(prelude + buf[..remaining]) != ReadWord(buf[remaining..]) {
        return Err(MessageMismatch);
      }
      assert buf[..headersLen] == buf[..remaining][..headersLen];
      var messageType := ScanHeaders(buf[..headersLen]);
      if messageType.Err? {
        return Err(messageType.error);
      }
      assert buf[headersLen..remaining] == buf[..remaining][headersLen..];
      return Ok(Frame(messageType.value, buf[headersLen..remaining]));
    }

    /** The header walk, by offset; an offset past the end also ends it. */
    static method ScanHeaders(headers: Bytes) returns (messageType: Result<Bytes>)
      ensures messageType == WalkHeaders(headers, [])
    {
      var off := 0;
      var found: Bytes := [];
      assert headers[0..] == headers;
      while off < |headers|
        invariant WalkHeaders(headers, []) == WalkHeaders(From(headers, off), found)
        decreases |headers| - off
      {
        var res := ScanHeader(headers, off);
        assert From(headers, off) == headers[off..];
        if res.Err? {
          return Err(res.error);
        }
        var h := res.value;
        if h.tag == 7 && h.name == MESSAGE_TYPE {
          found := h.value;
        }
        off := h.next;
      }
      return Ok(found);
    }

    /** One header at `start`: every access is in bounds and the offset grows. */
    static method ScanHeader(headers: Bytes, start: nat) returns (res: Result<Scanned>)
      requires start < |headers|
      ensures res.Err? ==> ReadHeader(headers[start..]) == Err(res.error)
      ensures res.Ok? ==>
                && start < res.value.next
                && ReadHeader(headers[start..])
                == Ok(Piece(res.value.name, res.value.tag, res.value.value, From(headers, res.value.next)))
    {
      var off := start;
      var nameLen := headers[off];
      off := off + 1;
      if off + nameLen > |headers| {
        return Err(NameOverflow);
      }
      var name := headers[off..off + nameLen];
      off := off + nameLen;
      if off >= |headers| {
        return Err(MissingTag);
      }
      var typeTag := headers[off];
      off := off + 1;
      SliceSlice(headers, start, 1, 1 + nameLen);
      SliceSlice(headers, start, 2 + nameLen, |headers| - start);
      var value := ScanValue(headers, off, typeTag);
      if value.Err? {
        return Err(value.error);
      }
      return Ok(Scanned(name, typeTag, value.value.0, value.value.1));
    }

    /** The value at `off`, and the offset after it. */
    static method ScanValue(headers: Bytes, start: nat, typeTag: byte) returns (res: Result<(Bytes, nat)>)
      requires start <= |headers|
      ensures res.Err? ==> ReadValue(typeTag, headers[start..]) == Err(res.error)
      ensures res.Ok? ==>
                && start <= res.value.1
                && ReadValue(typeTag, headers[start..]) == Ok((res.value.0, From(headers, res.value.1)))
    {
      var off := start;
      if typeTag == 7 || typeTag == 6 {
        if off + 2 > |headers| {
          return Err(if typeTag == 7 then StringLengthOverflow else BytesLengthOverflow);
        }
        SliceSlice(headers, start, 0, 2);
        var valLen := ReadHalf(headers[off..off + 2]);
        off := off + 2;
        if off + valLen > |headers| {
          return Err(if typeTag == 7 then StringOverflow else BytesOverflow);
        }
        SliceSlice(headers, start, 2, 2 + valLen);
        SliceSlice(headers, start, 2 + valLen, |headers| - start);
        return Ok((headers[off..off + valLen], off + valLen));
      }
      if typeTag > 9 {
        return Err(UnknownTag);
      }
      off := off + FixedWidth(typeTag);
      if off <= |headers| {
        SliceSlice(headers, start, 0, FixedWidth(typeTag));
        SliceSlice(headers, start, FixedWidth(typeTag), |headers| - start);
        return Ok((headers[start..off], off));
      }
      return Ok((headers[start..], off));
    }
  }

  datatype Scanned = Scanned(name: Bytes, tag: byte, value: Bytes, next: nat)

  function From(s: Bytes, off: nat): Bytes {
    if off <= |s| then s[off..] else []
  }

  lemma SliceSlice(s: Bytes, i: nat, j: nat, k: nat)
    requires i <= |s| && j <= k <= |s| - i
    ensures s[i..][j..k] == s[i + j..i + k]
    ensures k == |s| - i ==> s[i..][j..] == s[i + j..]
  {
  }

  // ----- decoding what was encoded -----

  predicate ValidFrame(hs: seq<Header>, payload: Bytes) {
    ValidHeaders(hs) && |EncodeHeaders(hs)| + |payload| <= MAX_FRAME_SIZE
  }

  function Prelude(crc: Checksum, headersLen: nat, payloadLen: nat): (s: Bytes)
    requires headersLen + payloadLen <= MAX_FRAME_SIZE
    ensures |s| == 12
  {
    var lengths := Word(16 + headersLen + payloadLen) + Word(headersLen);
    lengths + Word(crc(lengths))
  }

  /** A frame around a header block. */
  function FrameBytes(crc: Checksum, h: Bytes, payload: Bytes): Bytes
    requires |h| + |payload| <= MAX_FRAME_SIZE
  {
    var prelude := Prelude(crc, |h|, |payload|);
    prelude + (h + payload + Word(crc(prelude + (h + payload))))
  }

  function EncodeFrame(crc: Checksum, hs: seq<Header>, payload: Bytes): Bytes
    requires ValidFrame(hs, payload)
  {
    FrameBytes(crc, EncodeHeaders(hs), payload)
  }

  lemma ReadHeaderBack(h: Header, rest: Bytes)
    requires ValidHeader(h)
    ensures EncodeHeader(h) + rest != []
    ensures ReadHeader(EncodeHeader(h) + rest) == Ok(Piece(h.name, h.tag, h.value, rest))
  {
    var t := EncodeHeader(h) + rest;
    var n := |h.name|;
    assert t[1..1 + n] == h.name && t[1 + n] == h.tag;
    var v := t[2 + n..];
    if Sized(h.tag) {
      assert v == Half(|h.value|) + h.value + rest;
      ReadHalfBack(|h.value|);
      assert v[..2] == Half(|h.value|) && v[2..2 + |h.value|] == h.value && v[2 + |h.value|..] == rest;
    } else {
      assert v == h.value + rest;
      assert v[..|h.value|] == h.value && v[|h.value|..] == rest;
    }
  }

  lemma {:induction false} WalkBack(hs: seq<Header>, messageType: Bytes)
    requires ValidHeaders(hs)
    ensures WalkHeaders(EncodeHeaders(hs), messageType) == Ok(MessageTypeOf(messageType, hs))
    decreases |hs|
  {
    if hs != [] {
      ReadHeaderBack(hs[0], EncodeHeaders(hs[1..]));
      WalkBack(hs[1..], Observe(messageType, hs[0].name, hs[0].tag, hs[0].value));
    }
  }

  lemma PreludeBack(crc: Checksum, h: nat, p: nat)
    requires h + p <= MAX_FRAME_SIZE
    ensures var s := Prelude(crc, h, p);
            && ReadWord(s[0..4]) == 16 + h + p && ReadWord(s[4..8]) == h && ReadWord(s[8..12]) == crc(s[..8])
  {
    var lengths := Word(16 + h + p) + Word(h);
    var s := Prelude(crc, h, p);
    assert s[0..4] == Word(16 + h + p) && s[4..8] == Word(h);
    assert s[8..12] == Word(crc(lengths)) && s[..8] == lengths;
    ReadWordBack(16 + h + p);
    ReadWordBack(h);
    ReadWordBack(crc(lengths));
  }

  lemma PartsBack(crc: Checksum, prelude: Bytes, h: Bytes, payload: Bytes, messageType: Bytes)
    requires WalkHeaders(h, []) == Ok(messageType)
    ensures DecodeParts(crc, prelude, |h|, h + payload, crc(prelude + (h + payload))) == Ok(Frame(messageType, payload))
  {
    assert (h + payload)[..|h|] == h && (h + payload)[|h|..] == payload;
  }

  lemma BodyBack(crc: Checksum, prelude: Bytes, headersLen: nat, body: Bytes, check: word, rest: Bytes)
    requires headersLen <= |body|
    ensures DecodeBody(crc, prelude, headersLen, |body|, (body + Word(check)) + rest)
         == Decoded(DecodeParts(crc, prelude, headersLen, body, check), rest)
  {
    var s := (body + Word(check)) + rest;
    assert s[..|body|] == body && s[|body|..|body| + 4] == Word(check) && s[|body| + 4..] == rest;
    ReadWordBack(check);
  }

  lemma DecodeAfterPrelude(crc: Checksum, h: nat, p: nat, tail: Bytes)
    requires h + p <= MAX_FRAME_SIZE
    ensures var prelude := Prelude(crc, h, p);
            DecodeFrame(crc, prelude + tail) == DecodeBody(crc, prelude, h, h + p, tail)
  {
    PreludeSlices(Prelude(crc, h, p), tail);
    PreludeBack(crc, h, p);
  }

  lemma FrameBytesBack(crc: Checksum, h: Bytes, payload: Bytes, rest: Bytes, messageType: Bytes)
    requires |h| + |payload| <= MAX_FRAME_SIZE && WalkHeaders(h, []) == Ok(messageType)
    ensures DecodeFrame(crc, FrameBytes(crc, h, payload) + rest)
         == Decoded(Ok(Frame(messageType, payload)), rest)
  {
    var prelude := Prelude(crc, |h|, |payload|);
    var body := h + payload;
    var tail := body + Word(crc(prelude + body));
    PartsBack(crc, prelude, h, payload, messageType);
    BodyBack(crc, prelude, |h|, body, crc(prelude + body), rest);
    DecodeAfterPrelude(crc, |h|, |payload|, tail + rest);
    Assoc(prelude, tail, rest);
  }

  /** A frame decodes to its message type and payload, and the decoder stops right after it. */
  lemma FrameBack(crc: Checksum, hs: seq<Header>, payload: Bytes, rest: Bytes)
    requires ValidFrame(hs, payload)
    ensures DecodeFrame(crc, EncodeFrame(crc, hs, payload) + rest)
         == Decoded(Ok(Frame(MessageTypeOf([], hs), payload)), rest)
  {
    WalkBack(hs, []);
    FrameBytesBack(crc, EncodeHeaders(hs), payload, rest, MessageTypeOf([], hs));
  }

  lemma PreludeSlices(prelude: Bytes, tail: Bytes)
    requires |prelude| == 12
    ensures var s := prelude + tail;
            && s[0..4] == prelude[0..4] && s[4..8] == prelude[4..8] && s[8..12] == prelude[8..12]
            && s[..8] == prelude[..8] && s[..12] == prelude && s[12..] == tail
  {
  }

  // ----- whole streams -----

  /** The frames read until the first error, and that error. */
  function DecodeAll(crc: Checksum, s: Bytes): (seq<Frame>, Error)
    decreases |s|
  {
    var d := DecodeFrame(crc, s);
    match d.result
    case Err(e) => ([], e)
    case Ok(f) =>
      if |d.rest| < |s| then
        var (fs, e) := DecodeAll(crc, d.rest);
        ([f] + fs, e)
      else ([f], EOF)
  }

  datatype Message = Message(headers: seq<Header>, payload: Bytes)

  predicate ValidMessages(ms: seq<Message>) {
    forall i :: 0 <= i < |ms| ==> ValidFrame(ms[i].headers, ms[i].payload)
  }

  function EncodeAll(crc: Checksum, ms: seq<Message>): Bytes
    requires ValidMessages(ms)
  {
    if ms == [] then [] else EncodeFrame(crc, ms[0].headers, ms[0].payload) + EncodeAll(crc, ms[1..])
  }

  function Frames(ms: seq<Message>): seq<Frame> {
    if ms == [] then []
    else [Frame(MessageTypeOf([], ms[0].headers), ms[0].payload)] + Frames(ms[1..])
  }

  lemma DecodeFirst(crc: Checksum, m: Message, rest: Bytes)
    requires ValidFrame(m.headers, m.payload)
    ensures var (fs, e) := DecodeAll(crc, rest);
            DecodeAll(crc, EncodeFrame(crc, m.headers, m.payload) + rest)
            == ([Frame(MessageTypeOf([], m.headers), m.payload)] + fs, e)
  {
    FrameBack(crc, m.headers, m.payload, rest);
  }

  lemma {:induction false} StreamBackThen(crc: Checksum, ms: seq<Message>, tail: Bytes)
    requires ValidMessages(ms)
    ensures DecodeAll(crc, EncodeAll(crc, ms) + tail)
         == (Frames(ms) + DecodeAll(crc, tail).0, DecodeAll(crc, tail).1)
    decreases |ms|
  {
    var fs := DecodeAll(crc, tail).0;
    if ms == [] {
      assert [] + tail == tail && Frames(ms) + fs == fs;
    } else {
      Assoc(EncodeFrame(crc, ms[0].headers, ms[0].payload), EncodeAll(crc, ms[1..]), tail);
      DecodeFirst(crc, ms[0], EncodeAll(crc, ms[1..]) + tail);
      StreamBackThen(crc, ms[1..], tail);
      Assoc([Frame(MessageTypeOf([], ms[0].headers), ms[0].payload)], Frames(ms[1..]), fs);
    }
  }

  lemma Assoc<T>(x: seq<T>, y: seq<T>, z: seq<T>)
    ensures (x + y) + z == x + (y + z)
  {
  }

  /** Decoding the concatenated encodings of any frames gives exactly those frames, then a clean end. */
  lemma StreamBack(crc: Checksum, ms: seq<Message>)
    requires ValidMessages(ms)
    ensures DecodeAll(crc, EncodeAll(crc, ms)) == (Frames(ms), EOF)
  {
    StreamBackThen(crc, ms, []);
    assert EncodeAll(crc, ms) + [] == EncodeAll(crc, ms);
    assert Frames(ms) + [] == Frames(ms);
  }

  /** A stream cut inside a frame is never taken for a complete one: all earlier frames, then an error. */
  lemma TruncationDetected(crc: Checksum, ms: seq<Message>, m: Message, cut: nat)
    requires ValidMessages(ms) && ValidFrame(m.headers, m.payload)
    requires 0 < cut < |EncodeFrame(crc, m.headers, m.payload)|
    ensures DecodeAll(crc, EncodeAll(crc, ms) + EncodeFrame(crc, m.headers, m.payload)[..cut])
         == (Frames(ms), if cut < 12 then UnexpectedEOF else BodyCutShort)
  {
    var whole := EncodeFrame(crc, m.headers, m.payload);
    var tail := whole[..cut];
    if cut >= 12 {
      var h := EncodeHeaders(m.headers);
      assert tail == Prelude(crc, |h|, |m.payload|) + tail[12..];
      DecodeAfterPrelude(crc, |h|, |m.payload|, tail[12..]);
    }
    StreamBackThen(crc, ms, tail);
    assert Frames(ms) + [] == Frames(ms);
  }

  // ----- which header blocks are accepted -----

  /** `t` is the encoding of `hs` but for `pad`, which only a last fixed-width value may be missing. */
  ghost predicate EncodesBut(t: Bytes, hs: seq<Header>, pad: Bytes) {
    && ValidHeaders(hs)
    && t + pad == EncodeHeaders(hs)
    && (pad != [] ==> hs != [] && |pad| <= FixedWidth(hs[|hs| - 1].tag) && !Sized(hs[|hs| - 1].tag))
  }

  ghost predicate HeaderBlock(t: Bytes) {
    exists hs, pad :: EncodesBut(t, hs, pad)
  }

  /** A header whose fixed-width value runs past the end is read as the bytes that are there. */
  lemma ReadCutHeader(h: Header, t: Bytes, pad: Bytes)
    requires ValidHeader(h) && !Sized(h.tag) && |pad| <= |h.value| && t + pad == EncodeHeader(h)
    ensures t != [] && ReadHeader(t).Ok? && ReadHeader(t).value.rest == []
  {
    var n := |h.name|;
    var whole := EncodeHeader(h);
    assert whole[1 + n] == h.tag && t[0] == whole[0] && t[1 + n] == whole[1 + n];
    assert t[2 + n..][|t[2 + n..]|..] == [];
  }

  lemma {:induction false} BlockAccepted(t: Bytes, hs: seq<Header>, pad: Bytes, messageType: Bytes)
    requires EncodesBut(t, hs, pad)
    ensures WalkHeaders(t, messageType).Ok?
    decreases |hs|
  {
    if t != [] {
      var h, tail := hs[0], hs[1..];
      var first := EncodeHeader(h);
      if tail == [] && pad != [] {
        assert first + EncodeHeaders(tail) == first;
        ReadCutHeader(h, t, pad);
      } else {
        PadInTail(t, hs, pad);
        var t' := t[|first|..];
        ReadHeaderBack(h, t');
        BlockAccepted(t', tail, pad, Observe(messageType, h.name, h.tag, h.value));
      }
    }
  }

  lemma PadInTail(t: Bytes, hs: seq<Header>, pad: Bytes)
    requires EncodesBut(t, hs, pad) && t != [] && (|hs| > 1 || pad == [])
    ensures hs != [] && |EncodeHeader(hs[0])| <= |t|
    ensures t == EncodeHeader(hs[0]) + t[|EncodeHeader(hs[0])|..]
    ensures EncodesBut(t[|EncodeHeader(hs[0])|..], hs[1..], pad)
  {
    var first, tail := EncodeHeader(hs[0]), hs[1..];
    if pad != [] {
      LastFits(tail);
    }
    assert (t + pad)[..|first|] == first && (t + pad)[|first|..] == EncodeHeaders(tail);
  }

  lemma {:induction false} LastFits(hs: seq<Header>)
    requires ValidHeaders(hs) && hs != []
    ensures |EncodeHeaders(hs)| >= |hs[|hs| - 1].value|
    decreases |hs|
  {
    if |hs| > 1 {
      LastFits(hs[1..]);
    }
  }

  lemma HeaderParts(t: Bytes)
    requires t != [] && ReadHeader(t).Ok?
    ensures var p := ReadHeader(t).value;
            && 2 + |p.name| <= |t| && |p.name| < 0x100
            && t == [|p.name|] + p.name + [p.tag] + t[2 + |p.name|..]
            && ReadValue(p.tag, t[2 + |p.name|..]) == Ok((p.value, p.rest))
  {
  }

  lemma SizedValueForm(tag: byte, v: Bytes)
    requires Sized(tag) && ReadValue(tag, v).Ok?
    ensures var (value, rest) := ReadValue(tag, v).value;
            |value| < 0x1_0000 && v == Half(|value|) + value + rest
  {
    HalfBack(v[..2]);
    var n := ReadHalf(v[..2]);
    assert v == v[..2] + v[2..2 + n] + v[2 + n..];
  }

  lemma FixedValueForm(tag: byte, v: Bytes) returns (pad: Bytes)
    requires !Sized(tag) && ReadValue(tag, v).Ok?
    ensures var (value, rest) := ReadValue(tag, v).value;
            && tag <= 9
            && |value + pad| == FixedWidth(tag)
            && v + pad == (value + pad) + rest
            && (pad != [] ==> rest == [])
  {
    var (value, rest) := ReadValue(tag, v).value;
    pad := seq(FixedWidth(tag) - |value|, _ => 0);
    if pad == [] {
      assert v + pad == v && value + pad == value;
    } else {
      assert (value + pad) + rest == v + pad;
    }
  }

  lemma EncodedFrom(h: Header, head: Bytes, tail: Bytes, more: Bytes, t: Bytes, pad: Bytes)
    requires ValidHeader(h) && EncodeHeader(h) == head + tail && t + pad == head + (tail + more)
    ensures EncodeHeader(h) + more == t + pad
  {
    Assoc(head, tail, more);
  }

  /** The header a successful read stands for, with the bytes a cut value is missing. */
  lemma ReadHeaderForm(t: Bytes) returns (h: Header, pad: Bytes)
    requires t != [] && ReadHeader(t).Ok?
    ensures ValidHeader(h) && EncodeHeader(h) + ReadHeader(t).value.rest == t + pad
    ensures pad != [] ==> ReadHeader(t).value.rest == [] && !Sized(h.tag) && |pad| <= FixedWidth(h.tag)
  {
    var p := ReadHeader(t).value;
    HeaderParts(t);
    var head := [|p.name|] + p.name + [p.tag];
    var v := t[2 + |p.name|..];
    if Sized(p.tag) {
      SizedValueForm(p.tag, v);
      h, pad := Header(p.name, p.tag, p.value), [];
      Assoc(head, Half(|p.value|), p.value);
      Assoc(Half(|p.value|), p.value, p.rest);
      assert t + [] == t;
      EncodedFrom(h, head, Half(|p.value|) + p.value, p.rest, t, pad);
    } else {
      pad := FixedValueForm(p.tag, v);
      h := Header(p.name, p.tag, p.value + pad);
      assert head + [] == head;
      Assoc(head, v, pad);
      EncodedFrom(h, head, p.value + pad, p.rest, t, pad);
    }
  }

  lemma HalfBack(s: Bytes)
    requires |s| == 2
    ensures Half(ReadHalf(s)) == s
  {
    var a: nat, b: nat := s[0], s[1];
    assert (a * 0x100 + b) / 0x100 == a && (a * 0x100 + b) % 0x100 == b;
  }

  lemma {:induction false} AcceptedBlock(t: Bytes, messageType: Bytes)
    requires WalkHeaders(t, messageType).Ok?
    ensures HeaderBlock(t)
    decreases |t|
  {
    if t == [] {
      assert EncodesBut(t, [], []);
    } else {
      var p := ReadHeader(t).value;
      var h, pad := ReadHeaderForm(t);
      if pad != [] {
        assert [h][1..] == [] && EncodeHeaders([h]) == EncodeHeader(h) + [];
        assert EncodesBut(t, [h], pad);
      } else {
        AcceptedBlock(p.rest, Observe(messageType, p.name, p.tag, p.value));
        var hs, pad' :| EncodesBut(p.rest, hs, pad');
        assert t + pad == t;
        PrependHeader(h, t, p.rest, hs, pad');
      }
    }
  }

  lemma PrependHeader(h: Header, t: Bytes, rest: Bytes, hs: seq<Header>, pad: Bytes)
    requires ValidHeader(h) && t == EncodeHeader(h) + rest && EncodesBut(rest, hs, pad)
    ensures HeaderBlock(t)
  {
    var all := [h] + hs;
    assert all[0] == h && all[1..] == hs;
    assert t + pad == EncodeHeader(h) + (rest + pad);
    assert EncodesBut(t, all, pad);
  }

  /** The walk accepts exactly the encodings of headers of the ten types, whole or cut inside a last fixed-width
      value: a block that ends in mid-value is not rejected. */
  lemma WalkAcceptsIff(t: Bytes)
    ensures WalkHeaders(t, []).Ok? <==> HeaderBlock(t)
  {
    if HeaderBlock(t) {
      var hs, pad :| EncodesBut(t, hs, pad);
      BlockAccepted(t, hs, pad, []);
    }
    if WalkHeaders(t, []).Ok? {
      AcceptedBlock(t, []);
    }
  }

  const UUID_TAG: byte := 9

  /** A header named "a" whose sixteen-byte value is missing altogether is accepted. */
  lemma CutBlockAccepted()
    ensures WalkHeaders([1, 0x61, UUID_TAG], []).Ok? && HeaderBlock([1, 0x61, UUID_TAG])
  {
    var t: Bytes := [1, 0x61, UUID_TAG];
    var value: Bytes := seq(16, _ => 0);
    var h := Header([0x61], UUID_TAG, value);
    assert EncodeHeaders([h]) == EncodeHeader(h);
    assert t + value == EncodeHeader(h);
    assert EncodesBut(t, [h], value);
    WalkAcceptsIff(t);
  }

  // ----- whose message type it is -----

  /** A string header named ":message-type". */
  predicate NamesType(h: Header) {
    h.tag == 7 && h.name == [':' as int, 'm' as int, 'e' as int, 's' as int, 's' as int, 'a' as int, 'g' as int, 'e' as int,
                             '-' as int, 't' as int, 'y' as int, 'p' as int, 'e' as int]
  }

  lemma ObservesNamed(before: Bytes, h: Header)
    ensures Observe(before, h.name, h.tag, h.value) == if NamesType(h) then h.value else before
  {
  }

  predicate NoneNamesType(hs: seq<Header>) {
    forall k :: 0 <= k < |hs| ==> !NamesType(hs[k])
  }

  lemma {:induction false} NoneNamed(hs: seq<Header>, before: Bytes)
    requires NoneNamesType(hs)
    ensures MessageTypeOf(before, hs) == before
    decreases |hs|
  {
    if hs != [] {
      ObservesNamed(before, hs[0]);
      NoneNamed(hs[1..], before);
    }
  }

  /** The message type is the value of the last header that names it. */
  lemma {:induction false} LastNameCounts(hs: seq<Header>, k: nat, before: Bytes)
    requires k < |hs| && NamesType(hs[k]) && NoneNamesType(hs[k + 1..])
    ensures MessageTypeOf(before, hs) == hs[k].value
    decreases |hs|
  {
    var after := Observe(before, hs[0].name, hs[0].tag, hs[0].value);
    ObservesNamed(before, hs[0]);
    if k == 0 {
      NoneNamed(hs[1..], after);
    } else {
      assert hs[1..][k - 1] == hs[k] && hs[1..][k..] == hs[k + 1..];
      LastNameCounts(hs[1..], k - 1, after);
    }
  }

  // ----- which bytes are a frame -----

  /** The bytes start with a frame: both lengths fit, both checksums are those of the bytes before them, and the headers
      can be walked. */
  ghost predicate StartsWithFrame(crc: Checksum, s: Bytes) {
    && |s| >= 16 && crc(s[..8]) == ReadWord(s[8..12])
    && var total, headers := ReadWord(s[..4]), ReadWord(s[4..8]);
       && 16 <= total <= 10_485_776 && total <= |s| && headers <= total - 16
       && crc(s[..total - 4]) == ReadWord(s[total - 4..total]) && HeaderBlock(s[12..12 + headers])
  }

  lemma Slices(s: Bytes, total: nat, headers: nat)
    requires 16 <= total <= |s| && headers <= total - 16
    ensures s[..12] + s[12..][..total - 16] == s[..total - 4]
    ensures s[12..][total - 16..total - 12] == s[total - 4..total]
    ensures s[12..][..total - 16][..headers] == s[12..12 + headers]
    ensures s[12..][..total - 16][headers..] == s[12 + headers..total - 4]
    ensures s[12..][total - 12..] == s[total..]
  {
  }

  lemma PartsAccepted(crc: Checksum, prelude: Bytes, headers: nat, body: Bytes, check: word)
    requires headers <= |body|
    ensures DecodeParts(crc, prelude, headers, body, check).Ok? <==> crc(prelude + body) == check && HeaderBlock(body[..headers])
    ensures DecodeParts(crc, prelude, headers, body, check).Ok? ==>
              DecodeParts(crc, prelude, headers, body, check).value.payload == body[headers..]
    ensures crc(prelude + body) != check ==> DecodeParts(crc, prelude, headers, body, check) == Err(MessageMismatch)
  {
    WalkAcceptsIff(body[..headers]);
  }

  /** When the prelude is sound and the frame is all there, the parts decide. */
  lemma WholeFrame(crc: Checksum, s: Bytes, total: nat, headers: nat)
    requires |s| >= 16 && crc(s[..8]) == ReadWord(s[8..12]) && total == ReadWord(s[..4]) && headers == ReadWord(s[4..8])
    requires 16 <= total <= 10_485_776 && total <= |s| && headers <= total - 16
    ensures DecodeFrame(crc, s).rest == s[total..]
    ensures DecodeFrame(crc, s).result.Ok? <==> crc(s[..total - 4]) == ReadWord(s[total - 4..total]) && HeaderBlock(s[12..12 + headers])
    ensures DecodeFrame(crc, s).result.Ok? ==> DecodeFrame(crc, s).result.value.payload == s[12 + headers..total - 4]
    ensures crc(s[..total - 4]) != ReadWord(s[total - 4..total]) ==> DecodeFrame(crc, s).result == Err(MessageMismatch)
  {
    Slices(s, total, headers);
    PartsAccepted(crc, s[..12], headers, s[12..][..total - 16], ReadWord(s[12..][total - 16..total - 12]));
  }

  /** Any other prelude or a frame cut short is refused. */
  lemma OtherwiseRefused(crc: Checksum, s: Bytes)
    requires var total := if |s| >= 4 then ReadWord(s[..4]) else 0;
             || |s| < 16 || crc(s[..8]) != ReadWord(s[8..12]) || total < 16 || total > 10_485_776 || total > |s|
             || ReadWord(s[4..8]) > total - 16
    ensures DecodeFrame(crc, s).result.Err?
    ensures |s| >= 12 && crc(s[..8]) != ReadWord(s[8..12]) ==> DecodeFrame(crc, s).result == Err(PreludeMismatch)
  {
  }

  /** Exactly such bytes are decoded, the payload and what is left being those of the frame. */
  lemma DecodesIff(crc: Checksum, s: Bytes)
    ensures DecodeFrame(crc, s).result.Ok? <==> StartsWithFrame(crc, s)
    ensures StartsWithFrame(crc, s) ==>
              var total, headers := ReadWord(s[..4]), ReadWord(s[4..8]);
              DecodeFrame(crc, s).rest == s[total..] && DecodeFrame(crc, s).result.value.payload == s[12 + headers..total - 4]
  {
    if |s| < 16 || crc(s[..8]) != ReadWord(s[8..12]) {
      OtherwiseRefused(crc, s);
    } else {
      var total, headers := ReadWord(s[..4]), ReadWord(s[4..8]);
      if 16 <= total <= 10_485_776 && total <= |s| && headers <= total - 16 {
        WholeFrame(crc, s, total, headers);
      } else {
        OtherwiseRefused(crc, s);
      }
    }
  }

  /** A whole frame with one checksum that is not that of the bytes before it is refused as such. */
  lemma WrongChecksumRefused(crc: Checksum, s: Bytes)
    requires |s| >= 16
    ensures crc(s[..8]) != ReadWord(s[8..12]) ==> DecodeFrame(crc, s).result == Err(PreludeMismatch)
    ensures var total, headers := ReadWord(s[..4]), ReadWord(s[4..8]);
            && crc(s[..8]) == ReadWord(s[8..12]) && 16 <= total <= 10_485_776 && total <= |s| && headers <= total - 16
            && crc(s[..total - 4]) != ReadWord(s[total - 4..total]) ==>
              DecodeFrame(crc, s).result == Err(MessageMismatch)
  {
    var total, headers := ReadWord(s[..4]), ReadWord(s[4..8]);
    if crc(s[..8]) != ReadWord(s[8..12]) {
      OtherwiseRefused(crc, s);
    } else if 16 <= total <= 10_485_776 && total <= |s| && headers <= total - 16 {
      WholeFrame(crc, s, total, headers);
    }
  }
}
