/** Message bodies: identity bodies, the chunked coding of section 3.6.1 of RFC 2616, and what happens after the last
    message (src/http_parser.c:647-655, 1644-1808). */
module Framing {
  import opened Bytes
  import opened ParserState
  import opened Switch
  import opened Trace
  import opened Machine
  import opened Lengths
  import Execution
  import Feeding
  import HeaderLimit

  /* ---- Identity bodies. ---- */

  lemma SinglesTellNothing(k: Kind, bytes: seq<byte>, note: Note)
    ensures Told(note) !in Singles(k, bytes)
  {
  }

  // Between the headers and the end of a body of N bytes: what has been delivered and what is still expected add up to
  // N, the bytes delivered are those received, and the message is not complete.
  lemma IdentityBodyConserved(p: Parser, bytes: seq<byte>, skip: Answers)
    requires Ready(p) && p.core.state.BodyIdentity? && |bytes| < p.core.contentLength as int
    ensures var r := Run(p, bytes, skip);
            && r.verdict == Go && r.parser.core.state.BodyIdentity?
            && Delivered(Body, r.events) == bytes
            && |Delivered(Body, r.events)| + r.parser.core.contentLength as int == p.core.contentLength as int
            && Told(MessageComplete) !in r.events
  {
    hide SwitchOn, Run, Inv;
    BodyStretch(p, bytes, |bytes|, skip);
    EmptyRun(Fewer(p, |bytes|), skip);
    assert bytes[..|bytes|] == bytes && bytes[|bytes|..] == [];
    assert Singles(Body, bytes) + [] == Singles(Body, bytes);
    DeliveredSingles(Body, bytes);
    SinglesTellNothing(Body, bytes, MessageComplete);
  }

  // The N-th byte completes the message, exactly once and after all N bytes were delivered.
  lemma IdentityBodyCompletes(p: Parser, body: seq<byte>, skip: Answers)
    requires Ready(p) && p.core.state.BodyIdentity? && |body| == p.core.contentLength as int
    ensures var q := p.(core := p.core.(contentLength := 0, state := NewMessage(p.core.(contentLength := 0))));
            RunsTo(p, body, skip, q, Singles(Body, body) + [Told(MessageComplete)])
  {
    hide Run, RunMid, SwitchOn, Inv;
    var n, w := |body|, Execution.Ended(p);
    Execution.BodyLength(p.core);
    Execution.RunToEnd(p, body, n, skip);
    var last := body[n - 1..];
    FirstPass(w, last, skip);
    MessageEnds(w.core, last[0]);
    assert NewMessage(w.core) == NewMessage(p.core.(contentLength := 0));
    var q := After(w, SwitchOn(w.core, last[0]), skip);
    EmptyRun(q, skip);
    assert last[1..] == [] && body[..n] == body && [Told(MessageComplete)] + [] == [Told(MessageComplete)];
    PrependPrepend(Singles(Body, body), n - 1, [Told(MessageComplete)], 1, Result(q, [], 0, Go));
    assert Singles(Body, body) + [Told(MessageComplete)] + [] == Singles(Body, body) + [Told(MessageComplete)];
  }

  lemma MessageEnds(c: Core, ch: byte)
    requires Inv(c) && c.state.MessageDone?
    ensures SwitchOn(c, ch) == Turn(c.(state := NewMessage(c)), Notify(MessageComplete))
  {
  }

  lemma DeliveredThenComplete(body: seq<byte>)
    ensures Delivered(Body, Singles(Body, body) + [Told(MessageComplete)]) == body
  {
    DeliveredSingles(Body, body);
    assert (Singles(Body, body) + [Told(MessageComplete)])[..|body|] == Singles(Body, body);
  }

  // What a body of N bytes reports once the bytes have been received: all of them, and at the N-th that the message is
  // complete.
  function IdentityEvents(bytes: seq<byte>, n: nat): seq<Event> {
    Singles(Body, bytes) + if |bytes| == n then [Told(MessageComplete)] else []
  }

  lemma IdentityRun(p: Parser, bytes: seq<byte>, skip: Answers)
    requires Ready(p) && p.core.state.BodyIdentity? && |bytes| <= p.core.contentLength as int
    ensures var n := p.core.contentLength as int;
            var left := p.core.(contentLength := (n - |bytes|) as uint64);
            RunsTo(p, bytes, skip, p.(core := if |bytes| < n then left else left.(state := NewMessage(left))),
                   IdentityEvents(bytes, n))
  {
    hide SwitchOn, Run, Inv;
    if |bytes| == p.core.contentLength as int {
      IdentityBodyCompletes(p, bytes, skip);
    } else {
      BodyStretch(p, bytes, |bytes|, skip);
      EmptyRun(Fewer(p, |bytes|), skip);
      assert bytes[..|bytes|] == bytes && bytes[|bytes|..] == [];
    }
  }

  // For an actual parser, over any sequence of calls and pauses: after a beginning of a body of N bytes, exactly those
  // bytes have been delivered, the remaining length is what is missing, and the message is complete if nothing is.
  method ReceiveIdentity(
    h: Execution.HttpParser, pieces: seq<seq<byte>>, policy: Execution.Policy, ghost skip: Answers)
    requires h.Valid() && h.errno.OK? && h.state.BodyIdentity? && [] !in pieces && Feeding.NeverFails(policy, skip)
    requires |Feeding.Concat(pieces)| <= h.contentLength as int
    modifies h
    ensures h.errno.OK? && h.contentLength as int + |Feeding.Concat(pieces)| == old(h.contentLength as int)
    ensures h.contentLength > 0 ==> h.state.BodyIdentity?
    ensures h.contentLength == 0 ==> h.state == NewMessage(h.Fields())
    ensures Merge(h.trace) == Merge(old(h.trace) + IdentityEvents(Feeding.Concat(pieces), old(h.contentLength as int)))
    ensures Delivered(Body, h.trace) == old(Delivered(Body, h.trace)) + Feeding.Concat(pieces)
  {
    hide Run, SwitchOn, Inv, Merge, Delivered, HeaderLimit.PastHeaders, HeaderLimit.Spared, HeadsIn, NewMessage;
    ghost var t0, bytes, n := h.trace, Feeding.Concat(pieces), h.contentLength as int;
    ghost var left := h.Fields().(contentLength := (n - |bytes|) as uint64);
    NewMessageState(left, NewMessage(left));
    IdentityRun(h.View(), bytes, skip);
    BodyPast(bytes);
    HeaderLimit.BodySpared(h.View(), bytes, skip);
    Feeding.Feed(h, pieces, policy, skip);
    IdentityTrace(t0, bytes, n, h.trace);
  }

  lemma NewMessageState(c: Core, s: State)
    ensures NewMessage(c.(state := s)) == NewMessage(c)
  {
  }

  lemma IdentityTrace(t0: seq<Event>, bytes: seq<byte>, n: nat, t: seq<Event>)
    requires Merge(t) == Merge(t0 + IdentityEvents(bytes, n))
    ensures Delivered(Body, t) == Delivered(Body, t0) + bytes
  {
    hide Merge, Delivered;
    DeliveredMerge(Body, t);
    DeliveredMerge(Body, t0 + IdentityEvents(bytes, n));
    DeliveredConcat(Body, t0, IdentityEvents(bytes, n));
    DeliveredThenComplete(bytes);
    DeliveredSingles(Body, bytes);
    assert Singles(Body, bytes) + [] == Singles(Body, bytes);
  }

  /* ---- Chunked bodies. ---- */

  function HexDigit(v: nat): (ch: byte)
    requires v < 16
    ensures Unhex(ch) == v
  {
    if v < 10 then (v + '0' as int) as char else (v - 10 + 'a' as int) as char
  }

  function Hex(n: nat): seq<byte> { if n < 16 then [HexDigit(n)] else Hex(n / 16) + [HexDigit(n % 16)] }

  lemma {:induction false} HexPrints(n: nat, k: nat)
    requires k >= 1 && n < Pow16(k)
    ensures SizeBytes(Hex(n)) && HexValue(Hex(n)) == n && 1 <= |Hex(n)| <= k
  {
    if n < 16 {
      assert Hex(n)[..0] == [];
    } else {
      HexPrints(n / 16, k - 1);
      assert Hex(n)[..|Hex(n / 16)|] == Hex(n / 16);
    }
  }

  function PrintChunk(data: seq<byte>): seq<byte> { Hex(|data|) + [CR] + [LF] + data + [CR] + [LF] }

  function PrintChunks(chunks: seq<seq<byte>>): seq<byte> {
    if chunks == [] then [] else PrintChunk(chunks[0]) + PrintChunks(chunks[1..])
  }

  // The chunks, the last-chunk and an empty trailer.
  function PrintBody(chunks: seq<seq<byte>>): seq<byte> { PrintChunks(chunks) + (['0'] + [CR] + [LF] + [CR] + [LF]) }

  predicate Chunky(chunks: seq<seq<byte>>) { forall c | c in chunks :: 0 < |c| <= MAX_LENGTH }

  // At the start of a chunk, after others.
  function AtChunk(p: Parser, length: uint64): Parser {
    p.(core := p.core.(state := ChunkSizeStart, contentLength := length), nread := 0)
  }

  lemma ChunkSizeEnds(c: Core)
    requires Inv(c) && c.state.ChunkSize?
    ensures SwitchOn(c, CR) == Turn(c.(state := ChunkSizeAlmostDone), Break)
  {
  }

  lemma ChunkHeadEnds(c: Core)
    requires Inv(c) && c.state.ChunkSizeAlmostDone?
    ensures SwitchOn(c, LF) ==
            if c.contentLength == 0 then Turn(c.(flags := c.flags.(trailing := true), state := HeaderFieldStart), Break,
                                              true)
            else Turn(c.(state := ChunkData), Break, true)
  {
  }

  lemma ChunkEnds(c: Core)
    requires Inv(c) && (c.state.ChunkDataAlmostDone? || c.state.ChunkDataDone?)
    ensures c.state.ChunkDataAlmostDone? ==>
              c.contentLength == 0 && SwitchOn(c, CR) == Turn(c.(state := ChunkDataDone), Flush(Body))
    ensures c.state.ChunkDataDone? ==> SwitchOn(c, LF) == Turn(c.(state := ChunkSizeStart), Break, true)
  {
  }

  // What may follow the size: a chunk-extension, or blanks; anything up to CR.
  predicate IsExtension(ext: seq<byte>) { ext != [] ==> (ext[0] == ';' || ext[0] == ' ') && CR !in ext }

  lemma ExtensionTurns(c: Core, ch: byte)
    requires Inv(c) && ch != CR
    ensures c.state.ChunkSize? && (ch == ';' || ch == ' ') ==>
              SwitchOn(c, ch) == Turn(c.(state := ChunkParameters), Break)
    ensures c.state.ChunkParameters? ==>
              SwitchOn(c, ch) == Turn(c, Break) && SwitchOn(c, CR) == Turn(c.(state := ChunkSizeAlmostDone), Break)
  {
    hide Sound;
  }

  lemma ExtensionByte(p: Parser, bytes: seq<byte>, r: Parser, ch: byte, skip: Answers)
    requires RunsTo(p, bytes, skip, r, []) && ch != CR && r.nread < MAX_HEADER_SIZE
    requires r.core.state.ChunkParameters? || (r.core.state.ChunkSize? && (ch == ';' || ch == ' '))
    ensures RunsTo(p, bytes + [ch], skip, r.(core := r.core.(state := ChunkParameters), nread := r.nread + 1), [])
  {
    hide Run, SwitchOn, Inv;
    RunsReady(p, bytes, skip, r, []);
    ExtensionTurns(r.core, ch);
    Silent(p, bytes, r, [], ch, skip);
    assert r.core.(state := ChunkParameters) == SwitchOn(r.core, ch).core;
  }

  // It is read over.
  lemma {:induction false} ExtensionRun(p: Parser, size: seq<byte>, q: Parser, ext: seq<byte>, skip: Answers)
    requires RunsTo(p, size, skip, q, []) && q.core.state.ChunkSize? && IsExtension(ext)
    requires q.nread + |ext| <= MAX_HEADER_SIZE
    ensures RunsTo(p, size + ext, skip,
                   q.(core := q.core.(state := if ext == [] then ChunkSize else ChunkParameters),
                      nread := q.nread + |ext|), [])
    decreases |ext|
  {
    hide RunsTo;
    if ext == [] {
      assert size + ext == size;
      assert q.core.(state := ChunkSize) == q.core;
    } else {
      var n := |ext| - 1;
      assert ext[n] != CR;
      ExtensionRun(p, size, q, ext[..n], skip);
      var r := q.(core := q.core.(state := if n == 0 then ChunkSize else ChunkParameters), nread := q.nread + n);
      hide IsExtension;
      ExtensionByte(p, size + ext[..n], r, ext[n], skip);
      assert size + ext[..n] + [ext[n]] == size + ext;
    }
  }

  // The head of a chunk, up to its data.
  lemma ChunkHead(p: Parser, size: seq<byte>, ext: seq<byte>, n: nat, skip: Answers)
    requires Ready(p) && p.core.state.ChunkSizeStart? && n <= MAX_LENGTH && IsExtension(ext)
    requires SizeBytes(size) && 0 < |size| && |size| + |ext| < MAX_HEADER_SIZE - 1 && HexValue(size) == n
    ensures var c := p.core.(contentLength := n as uint64);
            RunsTo(p, size + ext + [CR] + [LF], skip,
                   p.(core := if n == 0 then c.(flags := c.flags.(trailing := true), state := HeaderFieldStart)
                              else c.(state := ChunkData), nread := 0), [])
  {
    hide Run, SwitchOn, Inv, HexValue;
    HexRun(p, size, skip);
    var q := Sized(p, n as uint64, |size|);
    assert RunsTo(p, size, skip, q, []);
    ExtensionRun(p, size, q, ext, skip);
    var r := q.(core := q.core.(state := if ext == [] then ChunkSize else ChunkParameters), nread := q.nread + |ext|);
    RunsReady(p, size + ext, skip, r, []);
    if ext == [] { ChunkSizeEnds(r.core); } else { ExtensionTurns(r.core, ';'); }
    Silent(p, size + ext, r, [], CR, skip);
    var t := r.(core := r.core.(state := ChunkSizeAlmostDone), nread := r.nread + 1);
    ChunkHeadEnds(t.core);
    Silent(p, size + ext + [CR], t, [], LF, skip);
  }

  lemma ChunkDataRun(q: Parser, data: seq<byte>, skip: Answers)
    requires Ready(q) && q.core.state.ChunkData? && |data| == q.core.contentLength as int
    ensures RunsTo(q, data, skip, q.(core := q.core.(contentLength := 0, state := ChunkDataAlmostDone)),
                   Singles(Body, data))
  {
    hide Run, SwitchOn, Inv;
    Execution.BodyLength(q.core);
    BodyStretch(q, data, |data|, skip);
    assert data[..|data|] == data && data[|data|..] == [] && Singles(Body, data) + [] == Singles(Body, data);
    EmptyRun(Fewer(q, |data|), skip);
  }

  lemma ChunkTail(r: Parser, skip: Answers)
    requires Ready(r) && r.core.state.ChunkDataAlmostDone?
    ensures RunsTo(r, [CR] + [LF], skip, AtChunk(r, 0), [])
  {
    hide Run, SwitchOn, Inv;
    ChunkEnds(r.core);
    OnePass(r, CR, skip);
    var s := r.(core := r.core.(state := ChunkDataDone));
    ChunkEnds(s.core);
    Silent(r, [CR], s, [], LF, skip);
  }

  // Its size in hexadecimal digits, leading zeros or not, an extension or not, and its data.
  function ChunkText(size: seq<byte>, ext: seq<byte>, data: seq<byte>): seq<byte> {
    size + ext + [CR] + [LF] + data + [CR] + [LF]
  }

  // A whole chunk: exactly its data is delivered, and the parser is back where it was.
  lemma ChunkRun(p: Parser, size: seq<byte>, ext: seq<byte>, data: seq<byte>, skip: Answers)
    requires Ready(p) && p.core.state.ChunkSizeStart? && 0 < |data| <= MAX_LENGTH && IsExtension(ext)
    requires SizeBytes(size) && 0 < |size| && |size| + |ext| < MAX_HEADER_SIZE - 1 && HexValue(size) == |data|
    ensures RunsTo(p, ChunkText(size, ext, data), skip, AtChunk(p, 0), Singles(Body, data))
  {
    hide Run, SwitchOn, HexValue, Inv, Singles, RunsTo;
    var head := size + ext + [CR] + [LF];
    var q := p.(core := p.core.(contentLength := |data| as uint64, state := ChunkData), nread := 0);
    var r := q.(core := q.core.(contentLength := 0, state := ChunkDataAlmostDone));
    ChunkHead(p, size, ext, |data|, skip);
    RunsReady(p, head, skip, q, []);
    ChunkDataRun(q, data, skip);
    RunsToConcat(p, head, q, [], data, r, Singles(Body, data), skip);
    RunsReady(q, data, skip, r, Singles(Body, data));
    ChunkTail(r, skip);
    RunsToConcat(p, head + data, r, [] + Singles(Body, data), [CR] + [LF], AtChunk(r, 0), [], skip);
    assert [] + Singles(Body, data) + [] == Singles(Body, data);
    assert head + data + ([CR] + [LF]) == ChunkText(size, ext, data);
  }

  lemma PrintedRun(p: Parser, data: seq<byte>, skip: Answers)
    requires Ready(p) && p.core.state.ChunkSizeStart? && 0 < |data| <= MAX_LENGTH
    ensures RunsTo(p, PrintChunk(data), skip, AtChunk(p, 0), Singles(Body, data))
  {
    hide Run, Hex, HexValue, Inv, Singles, RunsTo, Pow16;
    SixteenDigits();
    HexPrints(|data|, 16);
    ChunkRun(p, Hex(|data|), [], data, skip);
    assert Hex(|data|) + [] == Hex(|data|);
  }

  lemma {:induction false} ChunksRun(p: Parser, chunks: seq<seq<byte>>, skip: Answers)
    requires Ready(p) && p.core.state.ChunkSizeStart? && Chunky(chunks)
    ensures var q := AtChunk(p, if chunks == [] then p.core.contentLength else 0);
            RunsTo(p, PrintChunks(chunks), skip, q, Singles(Body, Feeding.Concat(chunks)))
    decreases |chunks|
  {
    hide Run, SwitchOn, PrintChunk, Inv;
    if chunks == [] {
      EmptyRun(p, skip);
      assert AtChunk(p, p.core.contentLength) == p;
    } else {
      var q, rest := AtChunk(p, 0), chunks[1..];
      PrintedRun(p, chunks[0], skip);
      ChunksRun(q, rest, skip);
      RunsToConcat(p, PrintChunk(chunks[0]), q, Singles(Body, chunks[0]), PrintChunks(rest),
                   AtChunk(q, if rest == [] then q.core.contentLength else 0), Singles(Body, Feeding.Concat(rest)),
                     skip);
      SinglesConcat(Body, chunks[0], Feeding.Concat(rest));
    }
  }

  // After the last chunk: the fields before the trailer.
  function Trailing(p: Parser): Core {
    p.core.(contentLength := 0, flags := p.core.flags.(trailing := true), state := HeaderFieldStart)
  }

  // And at the end of the message.
  function Trailed(p: Parser): Core {
    var c := p.core.(contentLength := 0, flags := p.core.flags.(trailing := true));
    c.(state := NewMessage(c))
  }

  lemma TrailerEnds(c: Core)
    requires c.flags.trailing && (c.state.HeaderFieldStart? || c.state.HeadersAlmostDone?)
    ensures Inv(c)
    ensures c.state.HeaderFieldStart? ==> SwitchOn(c, CR) == Turn(c.(state := HeadersAlmostDone), Break)
    ensures c.state.HeadersAlmostDone? ==> SwitchOn(c, LF) == Turn(c.(state := NewMessage(c)), Notify(MessageComplete))
  {
  }

  // The chunk of size 0, its size written with any byte that is read as 0.
  lemma LastChunk(p: Parser, zero: byte, skip: Answers)
    requires Ready(p) && p.core.state.ChunkSizeStart? && Unhex(zero) == 0
    ensures RunsTo(p, [zero] + [CR] + [LF] + [CR] + [LF], skip, p.(core := Trailed(p), nread := 2),
                   [Told(MessageComplete)])
  {
    hide Run, SwitchOn, Inv;
    assert [zero][..0] == [] && HexValue([zero]) == 0;
    ChunkHead(p, [zero], [], 0, skip);
    assert [zero] + [] == [zero];
    var q := p.(core := Trailing(p), nread := 0);
    TrailerEnds(q.core);
    Silent(p, [zero] + [CR] + [LF], q, [], CR, skip);
    var r := q.(core := q.core.(state := HeadersAlmostDone), nread := 1);
    TrailerEnds(r.core);
    OnePass(r, LF, skip);
    assert NewMessage(r.core) == NewMessage(p.core.(contentLength := 0, flags := p.core.flags.(trailing := true)));
    RunsToConcat(p, [zero] + [CR] + [LF] + [CR], r, [], [LF], p.(core := Trailed(p), nread := 2),
                 [Told(MessageComplete)], skip);
  }

  // Parsing a printed chunked body delivers exactly its payloads, in order, and then completes the message once.
  lemma ChunkedRoundTrip(p: Parser, chunks: seq<seq<byte>>, skip: Answers)
    requires Ready(p) && p.core.state.ChunkSizeStart? && Chunky(chunks)
    ensures var whole := Feeding.Concat(chunks);
            RunsTo(p, PrintBody(chunks), skip, p.(core := Trailed(p), nread := 2),
                   Singles(Body, whole) + [Told(MessageComplete)])
            && Delivered(Body, Singles(Body, whole) + [Told(MessageComplete)]) == whole
  {
    hide Run, SwitchOn, Inv, PrintChunks;
    ChunksRun(p, chunks, skip);
    var q := AtChunk(p, if chunks == [] then p.core.contentLength else 0);
    LastChunk(q, '0', skip);
    RunsToConcat(p, PrintChunks(chunks), q, Singles(Body, Feeding.Concat(chunks)), ['0'] + [CR] + [LF] + [CR] + [LF],
                 q.(core := Trailed(q), nread := 2), [Told(MessageComplete)], skip);
    DeliveredThenComplete(Feeding.Concat(chunks));
  }

  // A chunked body also ends with a chunk whose size is the byte 128, no hexadecimal digit.
  lemma HighByteEnds(p: Parser, skip: Answers)
    requires Ready(p) && p.core.state.ChunkSizeStart?
    ensures var zero: byte := 128 as char;
            !IsHex(zero) && RunsTo(p, [zero] + [CR] + [LF] + [CR] + [LF], skip, p.(core := Trailed(p), nread := 2),
                                   [Told(MessageComplete)])
  {
    hide Run, SwitchOn, Inv;
    LastChunk(p, 128 as char, skip);
  }

  // Nothing in a body is handed back and counted again.
  lemma BodyPast(body: seq<byte>)
    ensures forall e | e in Singles(Body, body) + [Told(MessageComplete)] :: HeaderLimit.PastHeaders(e)
  {
  }

  // The same for an actual parser, fed the printed body in any pieces and paused anywhere.
  method ReceiveChunked(
    h: Execution.HttpParser, chunks: seq<seq<byte>>, pieces: seq<seq<byte>>, policy: Execution.Policy,
    ghost skip: Answers)
    requires h.Valid() && h.errno.OK? && h.state.ChunkSizeStart? && Chunky(chunks)
    requires [] !in pieces && Feeding.Concat(pieces) == PrintBody(chunks) && Feeding.NeverFails(policy, skip)
    modifies h
    ensures h.errno.OK? && h.Fields() == old(Trailed(h.View()))
    ensures Merge(h.trace) == Merge(old(h.trace) + Singles(Body, Feeding.Concat(chunks)) + [Told(MessageComplete)])
    ensures Delivered(Body, h.trace) == old(Delivered(Body, h.trace)) + Feeding.Concat(chunks)
  {
    hide Run, SwitchOn, Inv, PrintBody, Merge, Delivered, HeaderLimit.PastHeaders, HeaderLimit.Spared, HeadsIn;
    ghost var t0, whole := h.trace, Feeding.Concat(chunks);
    ChunkedRoundTrip(h.View(), chunks, skip);
    BodyPast(whole);
    HeaderLimit.BodySpared(h.View(), PrintBody(chunks), skip);
    Feeding.Feed(h, pieces, policy, skip);
    BodyTrace(t0, whole, h.trace);
  }

  lemma BodyTrace(t0: seq<Event>, body: seq<byte>, t: seq<Event>)
    requires Merge(t) == Merge(t0 + (Singles(Body, body) + [Told(MessageComplete)]))
    ensures Merge(t) == Merge(t0 + Singles(Body, body) + [Told(MessageComplete)])
    ensures Delivered(Body, t) == Delivered(Body, t0) + body
  {
    hide Merge, Delivered;
    var events := Singles(Body, body) + [Told(MessageComplete)];
    assert t0 + events == t0 + Singles(Body, body) + [Told(MessageComplete)];
    DeliveredMerge(Body, t);
    DeliveredMerge(Body, t0 + events);
    DeliveredConcat(Body, t0, events);
    DeliveredThenComplete(body);
  }

  /* ---- After the last message. ---- */

  lemma DeadByte(p: Parser, ch: byte, skip: Answers)
    requires Ready(p) && p.core.state.Dead? && p.nread < MAX_HEADER_SIZE
    ensures if ch == CR || ch == LF then RunsTo(p, [ch], skip, p.(nread := p.nread + 1), [])
            else Run(p, [ch], skip) == Result(p.(nread := p.nread + 1, errno := ClosedConnection), [], 0, Stop)
  {
    hide Run;
    if ch == CR || ch == LF { OnePass(p, ch, skip); } else { OneRefusal(p, ch, skip); }
  }

  // After a message that ended the connection no callback ever runs again, and only line ends are tolerated.
  lemma {:induction false} DeadStays(p: Parser, bytes: seq<byte>, skip: Answers)
    requires Ready(p) && p.core.state.Dead?
    ensures var r := Run(p, bytes, skip);
            && r.events == [] && r.parser.core == p.core && r.verdict != Out
            && (r.verdict == Go <==> LineEnds(bytes) && p.nread + |bytes| <= MAX_HEADER_SIZE)
    decreases |bytes|
  {
    hide SwitchOn, Run, Inv;
    if bytes == [] {
      EmptyRun(p, skip);
    } else {
      var ch, rest := bytes[0], bytes[1..];
      assert bytes == [ch] + rest;
      RunConcat(p, [ch], rest, skip);
      if p.nread == MAX_HEADER_SIZE {
        Exhausted(p, ch, skip);
      } else {
        DeadByte(p, ch, skip);
        if ch == CR || ch == LF {
          DeadStays(p.(nread := p.nread + 1), rest, skip);
          assert LineEnds(bytes) <==> LineEnds(rest) by {
            assert forall i | 0 <= i < |rest| :: rest[i] == bytes[i + 1];
          }
        }
      }
    }
  }

  lemma Exhausted(p: Parser, ch: byte, skip: Answers)
    requires Ready(p) && ParsingHeader(p.core.state) && p.nread == MAX_HEADER_SIZE
    ensures Run(p, [ch], skip) == Result(p.(nread := p.nread + 1, errno := HeaderOverflow), [], 0, Stop)
  {
    hide SwitchOn, Finish;
  }
}
