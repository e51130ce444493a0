/** The stream resolver and the byte reader built on it. */
module StreamResolver {
  import opened Options
  import opened ByteStrings
  import opened TokenPattern
  import opened Resolve
  import opened Drain
  import opened Vault

  class StreamResolver {
    const vault: BuiltinVault
    var buf: Bytes

    constructor (vault: BuiltinVault)
      ensures this.vault == vault && buf == []
    {
      this.vault := vault;
      buf := [];
    }

    /** Appends a chunk and emits what has become safe to emit. */
    method Feed(chunk: Bytes) returns (out: Bytes)
      modifies this
      ensures Drained(out, buf) == DrainAll(vault.tokenToValue, old(buf) + chunk)
      ensures HeldShape(buf)
    {
      buf := buf + chunk;
      out := DrainBuffer();
    }

    /** Emits whatever is still held, resolved. */
    method Flush() returns (out: Bytes)
      modifies this
      ensures out == ResolveAll(vault.tokenToValue, old(buf)) && buf == []
    {
      out := vault.Resolve(buf);
      buf := [];
    }

    method DrainBuffer() returns (out: Bytes)
      modifies this
      ensures Drained(out, buf) == DrainAll(vault.tokenToValue, old(buf))
      ensures HeldShape(buf)
    {
      ghost var m := vault.tokenToValue;
      HeldIsShort(m, buf);
      out := [];
      while true
        invariant out + DrainAll(m, buf).out == DrainAll(m, old(buf)).out
        invariant DrainAll(m, buf).held == DrainAll(m, old(buf)).held
        decreases |buf|
      {
        var s := buf;
        var emitted: Bytes;
        var openIdx := Index(s, OPEN);
        if openIdx < 0 {
          var n := PartialDelimiterSuffixLen(s);
          if n > 0 {
            emitted := vault.Resolve(s[..|s| - n]);
            buf := s[|s| - n..];
            return out + emitted;
          }
          assert s[..|s|] == s && s[|s|..] == [];
          emitted := vault.Resolve(s);
          buf := [];
          return out + emitted;
        }
        if openIdx > 0 {
          emitted := vault.Resolve(s[..openIdx]);
          buf := s[openIdx..];
          Associate(out, emitted, DrainAll(m, buf).out);
          out := out + emitted;
          continue;
        }
        var end := TokenLen(s);
        if end > 0 {
          emitted := vault.Resolve(s[..end]);
          buf := s[end..];
          Associate(out, emitted, DrainAll(m, buf).out);
          out := out + emitted;
          continue;
        }
        var closeIdx := Index(s, CLOSE);
        if closeIdx >= 0 {
          end := closeIdx + |CLOSE|;
          emitted := vault.Resolve(s[..end]);
          buf := s[end..];
          Associate(out, emitted, DrainAll(m, buf).out);
          out := out + emitted;
          continue;
        }
        if |s| > MAX_TOKEN_BYTES {
          buf := s[|OPEN|..];
          Associate(out, OPEN, DrainAll(m, buf).out);
          out := out + OPEN;
          continue;
        }
        assert s[..0] == [] && s[0..] == s && ResolveAll(m, []) == [];
        return out;
      }
    }

    /** How many trailing bytes of `s` could begin a delimiter: the first prefix of the opening bracket, shorter
        than the whole, that `s` ends with. */
    static method PartialDelimiterSuffixLen(s: Bytes) returns (n: nat)
      ensures n == PartialSuffix(s)
      ensures n == 0 <==> forall k :: 1 <= k < |OPEN| ==> !IsSuffix(s, OPEN[..k])
      ensures n > 0 ==> n < |OPEN| && IsSuffix(s, OPEN[..n])
    {
      n := 1;
      while n < |OPEN| && n <= |s|
        invariant 1 <= n <= |OPEN|
        invariant forall k :: 1 <= k < n ==> !IsSuffix(s, OPEN[..k])
      {
        if IsSuffix(s, OPEN[..n]) {
          return;
        }
        n := n + 1;
      }
      n := 0;
    }
  }

  // ----- the reader -----

  datatype IOError = EOF | Failed(code: int)

  /** One result of reading the upstream body: bytes may come together with an error. */
  datatype ReadResult = ReadResult(data: Bytes, err: Option<IOError>)

  /** A body that yields the scripted results in turn and then end of file. */
  class Source {
    var script: seq<ReadResult>

    constructor (script: seq<ReadResult>)
      ensures this.script == script
    {
      this.script := script;
    }

    method Read() returns (data: Bytes, err: Option<IOError>)
      modifies this
      ensures old(script) == [] ==> data == [] && err == Some(EOF) && script == []
      ensures old(script) != [] ==>
                data == old(script)[0].data && err == old(script)[0].err && script == old(script)[1..]
    {
      if script == [] {
        return [], Some(EOF);
      }
      data, err := script[0].data, script[0].err;
      script := script[1..];
    }
  }

  /** The bytes a script yields up to and with its first error. */
  function ScriptBytes(script: seq<ReadResult>): Bytes {
    if script == [] then []
    else if script[0].err.Some? then script[0].data
    else script[0].data + ScriptBytes(script[1..])
  }

  function ScriptError(script: seq<ReadResult>): IOError {
    if script == [] then EOF
    else if script[0].err.Some? then script[0].err.value
    else ScriptError(script[1..])
  }

  /** What the resolver still holds when the script's first error arrives. */
  function LastHeld(m: Restore, held: Bytes, script: seq<ReadResult>): Bytes
    decreases |script|
  {
    if script == [] || script[0].err.Some? then held
    else LastHeld(m, FeedIfAny(m, held, script[0].data).held, script[1..])
  }

  /** The bytes that come with the script's first error. */
  function LastData(script: seq<ReadResult>): Bytes {
    if script == [] then [] else if script[0].err.Some? then script[0].data else LastData(script[1..])
  }

  /** What is still to be delivered when the first error arrives, all earlier output having been taken. */
  function LeftAtError(m: Restore, held: Bytes, script: seq<ReadResult>): Bytes {
    ResolveAll(m, LastHeld(m, held, script) + LastData(script))
  }

  /** The error a caller finally sees: the body's own, unless output was left to deliver when it came. */
  function SeenError(m: Restore, held: Bytes, script: seq<ReadResult>): IOError {
    if LeftAtError(m, held, script) == [] then ScriptError(script) else EOF
  }

  class ResolvingReader {
    const src: Source
    const resolver: StreamResolver
    var pending: Bytes
    var eof: bool

    constructor (src: Source, vault: BuiltinVault)
      ensures this.src == src && fresh(resolver) && resolver.vault == vault
      ensures Remaining() == ResolveAll(vault.tokenToValue, ScriptBytes(src.script)) && !eof
      ensures Outcome() == SeenError(vault.tokenToValue, [], src.script)
    {
      this.src := src;
      this.resolver := new StreamResolver(vault);
      pending, eof := [], false;
      new;
      assert [] + ScriptBytes(src.script) == ScriptBytes(src.script);
      assert [] + Total(vault.tokenToValue, [], src.script) == Total(vault.tokenToValue, [], src.script);
    }

    /** Everything the caller has still to be given. */
    ghost function Remaining(): Bytes
      reads this, src, resolver, resolver.vault
    {
      if eof then pending else pending + Total(resolver.vault.tokenToValue, resolver.buf, src.script)
    }

    /** The error the caller will see after the last byte. */
    ghost function Outcome(): IOError
      reads this, src, resolver, resolver.vault
    {
      if eof then EOF else SeenError(resolver.vault.tokenToValue, resolver.buf, src.script)
    }

    /** Fills a buffer of `limit` bytes. Nothing is lost, added or reordered, and an error comes only after the
        last byte. */
    method Read(limit: nat) returns (data: Bytes, err: Option<IOError>)
      requires ShortTokens(resolver.vault.tokenToValue)
      modifies this, src, resolver
      ensures old(Remaining()) == data + Remaining()
      ensures |data| <= limit
      ensures err.None? && limit > 0 ==> data != []
      ensures err.Some? ==> data == [] && eof
      ensures err.Some? <==> old(Remaining()) == []
      ensures err.Some? ==> err.value == old(Outcome())
      ensures err.None? ==> Outcome() == old(Outcome())
    {
      while pending == [] && !eof
        invariant Remaining() == old(Remaining())
        invariant Outcome() == old(Outcome())
        decreases !eof, |src.script|
      {
        var e := Pull();
        if e.Some? && e.value != EOF && pending == [] {
          return [], e;
        }
      }
      if pending == [] {
        return [], Some(EOF);
      }
      var k := if limit < |pending| then limit else |pending|;
      data, err := pending[..k], None;
      Rest(pending, k, Total(resolver.vault.tokenToValue, resolver.buf, src.script));
      pending := pending[k..];
    }

    /** One read of the body: its bytes go through the resolver, and an error flushes it. */
    method Pull() returns (e: Option<IOError>)
      requires ShortTokens(resolver.vault.tokenToValue) && pending == [] && !eof
      modifies this, src, resolver
      ensures Remaining() == old(Remaining())
      ensures eof <==> e.Some?
      ensures e.None? ==> |src.script| < |old(src.script)| && Outcome() == old(Outcome())
      ensures e.Some? ==> old(Outcome()) == if pending == [] then e.value else EOF
    {
      ghost var m, held, script := resolver.vault.tokenToValue, resolver.buf, src.script;
      e := PullBytes();
      FeedStep(m, held, script);
      ErrorStep(m, held, script);
      NothingPending(Total(m, held, script));
    }

    method PullBytes() returns (e: Option<IOError>)
      requires pending == [] && !eof
      modifies this, src, resolver
      ensures e == if old(src.script) == [] then Some(EOF) else old(src.script)[0].err
      ensures eof <==> e.Some?
      ensures var m := resolver.vault.tokenToValue;
              var n := if old(src.script) == [] then [] else old(src.script)[0].data;
              var d := FeedIfAny(m, old(resolver.buf), n);
              if e.Some? then pending == d.out + ResolveAll(m, d.held)
              else pending == d.out && resolver.buf == d.held && src.script == old(src.script)[1..]
    {
      var n;
      n, e := src.Read();
      if n != [] {
        pending := resolver.Feed(n);
      }
      if e.Some? {
        eof := true;
        var tail := resolver.Flush();
        pending := pending + tail;
      }
    }
  }

  lemma NothingPending(later: Bytes)
    ensures [] + later == later
  {
  }

  function Total(m: Restore, held: Bytes, script: seq<ReadResult>): Bytes {
    ResolveAll(m, held + ScriptBytes(script))
  }

  function FeedIfAny(m: Restore, held: Bytes, chunk: Bytes): Drained {
    if chunk == [] then Drained([], held) else DrainAll(m, held + chunk)
  }

  /** One read result, and the error still to come: the first error decides, by what is left when it comes. */
  lemma ErrorStep(m: Restore, held: Bytes, script: seq<ReadResult>)
    requires ShortTokens(m)
    ensures var n := if script == [] then [] else script[0].data;
            var d := FeedIfAny(m, held, n);
            if script == [] || script[0].err.Some? then
              && LeftAtError(m, held, script) == d.out + ResolveAll(m, d.held)
              && (script == [] ==> ScriptError(script) == EOF)
            else SeenError(m, held, script) == SeenError(m, d.held, script[1..])
  {
    FeedStep(m, held, script);
  }

  lemma Rest(pending: Bytes, k: nat, later: Bytes)
    requires k <= |pending|
    ensures pending[..k] + (pending[k..] + later) == pending + later
    ensures pending[..k] + pending[k..] == pending
  {
  }

  /** Feeding a chunk before the rest arrives leaves the total unchanged. */
  lemma FeedThen(m: Restore, held: Bytes, chunk: Bytes, rest: Bytes)
    requires ShortTokens(m)
    ensures var d := FeedIfAny(m, held, chunk);
            ResolveAll(m, held + (chunk + rest)) == d.out + ResolveAll(m, d.held + rest)
  {
    if chunk == [] {
      assert chunk + rest == rest;
    } else {
      Associate(held, chunk, rest);
      DrainSound(m, held + chunk, rest);
    }
  }

  /** One read result through the resolver: what is emitted, then the rest of the script. */
  lemma FeedStep(m: Restore, held: Bytes, script: seq<ReadResult>)
    requires ShortTokens(m)
    ensures var n := if script == [] then [] else script[0].data;
            var d := FeedIfAny(m, held, n);
            if script == [] || script[0].err.Some? then Total(m, held, script) == d.out + ResolveAll(m, d.held)
            else Total(m, held, script) == d.out + Total(m, d.held, script[1..])
  {
    if script == [] {
      assert held + [] == held;
    } else if script[0].err.Some? {
      FeedThen(m, held, script[0].data, []);
      var d := FeedIfAny(m, held, script[0].data);
      assert script[0].data + [] == script[0].data && d.held + [] == d.held;
    } else {
      FeedThen(m, held, script[0].data, ScriptBytes(script[1..]));
    }
  }

  /** The relay loop: copying a body through the reader, a buffer at a time, delivers the resolved body. */
  method Relay(reader: ResolvingReader, limit: nat) returns (body: Bytes, err: IOError)
    requires limit > 0 && ShortTokens(reader.resolver.vault.tokenToValue)
    modifies reader, reader.src, reader.resolver
    ensures body == old(reader.Remaining())
    ensures err == old(reader.Outcome())
    ensures !old(reader.eof) ==>
              var script, m := old(reader.src.script), old(reader.resolver.vault.tokenToValue);
              var left := LeftAtError(m, old(reader.resolver.buf), script);
              && (err == ScriptError(script) <==> ScriptError(script) == EOF || left == [])
              && (err != ScriptError(script) ==> err == EOF)
  {
    body := [];
    while true
      invariant reader.Outcome() == old(reader.Outcome())
      invariant body + reader.Remaining() == old(reader.Remaining())
      decreases |reader.Remaining()|
    {
      ghost var before := reader.Remaining();
      var data, e := reader.Read(limit);
      Associate(body, data, reader.Remaining());
      body := body + data;
      if e.Some? {
        return body, e.value;
      }
    }
  }

  /** The chunks the resolver was fed before the first error: empty reads feed nothing. */
  function FedChunks(script: seq<ReadResult>): seq<Bytes> {
    if script == [] || script[0].err.Some? then []
    else if script[0].data == [] then FedChunks(script[1..])
    else [script[0].data] + FedChunks(script[1..])
  }

  /** What is held at the first error is what a resolver holds after those chunks. */
  lemma {:induction false} LastHeldIsFed(m: Restore, held: Bytes, script: seq<ReadResult>)
    ensures LastHeld(m, held, script) == FeedAll(m, held, FedChunks(script)).held
    decreases |script|
  {
    if script != [] && script[0].err.None? {
      LastHeldIsFed(m, FeedIfAny(m, held, script[0].data).held, script[1..]);
      if script[0].data != [] {
        assert FedChunks(script)[1..] == FedChunks(script[1..]);
      }
    }
  }

  lemma OneLetter(m: Restore, b: byte)
    requires b < 0x80
    ensures ResolveAll(m, [b]) == [b]
  {
    forall i | 0 <= i <= 1
      ensures !OccursAt([b], OPEN, i)
    {
    }
    ResolvePlain(m, [b]);
  }

  /** A body that breaks while a byte comes with the error looks complete. */
  lemma BrokenBodyLooksComplete(m: Restore)
    ensures var script := [ReadResult([0x41], Some(Failed(7)))];
            ScriptError(script) == Failed(7) && SeenError(m, [], script) == EOF
  {
    OneLetter(m, 0x41);
    assert [] + [0x41] == [0x41];
  }

  /** So does one that breaks with an empty read, while the beginning of a token is held back. */
  lemma BrokenTokenLooksComplete(m: Restore)
    ensures var script := [ReadResult(OPEN + [0x41, 0x42], None), ReadResult([], Some(Failed(7)))];
            && LastHeld(m, [], script) == OPEN + [0x41, 0x42]
            && ScriptError(script) == Failed(7) && SeenError(m, [], script) == EOF
  {
    var s, broken := OPEN + [0x41, 0x42], ReadResult([], Some(Failed(7)));
    HoldsOpen(m, s);
    FedThenBroken(m, s, broken);
  }

  lemma FedThenBroken(m: Restore, s: Bytes, broken: ReadResult)
    requires s != [] && broken.err.Some? && broken.data == [] && DrainAll(m, s).held == s
    ensures LastHeld(m, [], [ReadResult(s, None), broken]) == s && LastData([ReadResult(s, None), broken]) == []
    ensures ScriptError([ReadResult(s, None), broken]) == broken.err.value
    ensures LeftAtError(m, [], [ReadResult(s, None), broken]) == ResolveAll(m, s)
  {
    var script := [ReadResult(s, None), broken];
    assert script[1..] == [broken];
    assert [] + s == s && s + [] == s;
    assert LastHeld(m, s, [broken]) == s;
  }

  /** A short text that only its opening bracket could make a token of is held back whole. */
  lemma HoldsOpen(m: Restore, s: Bytes)
    requires s == OPEN + [0x41, 0x42]
    ensures DrainAll(m, s) == Drained([], s) && ResolveAll(m, s) != []
  {
    assert OccursAt(s, OPEN, 0);
    NoCloseYet(s);
    assert s[..0] == [] && s[0..] == s;
    CopyOpen(m, s);
  }

  lemma NoCloseYet(s: Bytes)
    requires s == OPEN + [0x41, 0x42]
    ensures Index(s, CLOSE) < 0 && TokenLen(s) == 0
  {
    forall i | 0 <= i <= |s|
      ensures !OccursAt(s, CLOSE, i)
    {
      assert i + 3 <= |s| ==> s[i..i + 3][2] == s[i + 2];
    }
  }
}
