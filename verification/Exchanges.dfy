/** Whole messages, one after the other on a connection: well-formed responses or requests, each with a body of known
    extent, are all accepted and all reported, in order (src/http_parser.c:572-1888). */
module Exchanges {
  import opened Bytes
  import opened ParserState
  import opened Switch
  import opened Trace
  import opened Machine
  import opened Lengths
  import opened Headers
  import opened HeadEnd
  import opened HeaderBlocks
  import opened HeaderSyntax
  import opened StartLines
  import opened Framing
  import opened NextMessage
  import Execution
  import Feeding
  import HeaderLimit
  import UrlForms

  /* ---- Messages. ---- */

  datatype Start = OfAnswer(answer: Answer) | OfQuery(query: Query)

  // No body; a body of the length given; chunks, with a trailer.
  datatype Payload = Nothing | Sized(bytes: seq<byte>) | Chunks(chunks: seq<seq<byte>>, trailer: seq<Header>,
                                                                crlf: bool)

  datatype Message = Message(start: Start, headers: seq<Header>, crlf: bool, payload: Payload)

  function StartText(s: Start): seq<byte> { if s.OfAnswer? then AnswerText(s.answer) else QueryText(s.query) }

  function StartEvents(s: Start): seq<Event> { if s.OfAnswer? then AnswerEvents(s.answer) else QueryEvents(s.query) }

  ghost predicate ProperStart(s: Start) { if s.OfAnswer? then ProperAnswer(s.answer) else ProperQuery(s.query) }

  const LAST_SIZE: seq<byte> := ['0'] + [CR] + [LF]

  function PayloadText(b: Payload): seq<byte> {
    match b
    case Nothing => []
    case Sized(bytes) => bytes
    case Chunks(chunks, trailer, crlf) => PrintChunks(chunks) + (LAST_SIZE + FullHead(trailer, crlf))
  }

  // What an application gets as the body.
  function PayloadOf(b: Payload): seq<byte> {
    match b
    case Nothing => []
    case Sized(bytes) => bytes
    case Chunks(chunks, _, _) => Feeding.Concat(chunks)
  }

  function Trailer(b: Payload): seq<Header> { if b.Chunks? then b.trailer else [] }

  function MessageText(m: Message): seq<byte> {
    StartText(m.start) + FullHead(m.headers, m.crlf) + PayloadText(m.payload)
  }

  function MessageEvents(m: Message): seq<Event> {
    StartEvents(m.start) + BlockEvents(m.headers) + [Told(HeadersComplete)] + Singles(Body, PayloadOf(m.payload))
    + BlockEvents(Trailer(m.payload)) + [Told(MessageComplete)]
  }

  /* ---- Which bodies have a known extent: section 4.4 of RFC 2616. ---- */

  // A response whose status says that it has no body.
  ghost predicate BodilessStatus(s: Start)
    requires ProperStart(s)
  {
    s.OfAnswer? && var n := NumberValue(s.answer.code) as int; 100 <= n < 200 || n == 204 || n == 304
  }

  // The length the headers give, 2^64 - 1 for none.
  function GivenLength(m: Message): uint64 { LengthGiven(ULLONG_MAX, m.headers) }

  // The body is what the headers say, and its end is not that of the stream.
  ghost predicate Framed(m: Message, skips: bool)
    requires ProperStart(m.start)
  {
    if skips then m.payload.Nothing?
    else if HasChunked(m.headers) then
      && m.payload.Chunks? && Chunky(m.payload.chunks) && AllProper(m.payload.trailer) && AllAccepted(m.payload.trailer)
      && |FullHead(m.payload.trailer, m.payload.crlf)| <= MAX_HEADER_SIZE
    else if GivenLength(m) == ULLONG_MAX then m.payload.Nothing? && (m.start.OfQuery? || BodilessStatus(m.start))
    else if GivenLength(m) == 0 then m.payload.Nothing?
    else m.payload.Sized? && |m.payload.bytes| == GivenLength(m) as int
  }

  ghost predicate ProperMessage(m: Message, skips: bool) {
    && ProperStart(m.start) && AllProper(m.headers) && AllAccepted(m.headers) && !HasUpgrade(m.headers)
    && (m.start.OfQuery? ==> m.start.query.verb != CONNECT) && Framed(m, skips)
  }

  function HeadLength(m: Message): nat { |StartText(m.start)| + |FullHead(m.headers, m.crlf)| }

  // The header bytes counted at the end of the message: those of a trailer.
  function TrailerLength(b: Payload): nat { if b.Chunks? then |FullHead(b.trailer, b.crlf)| else 0 }

  ghost function MajorIn(s: Start): int
    requires ProperStart(s)
  {
    if s.OfAnswer? then NumberValue(s.answer.major) as int
    else if s.query.protocol.None? then 0
    else NumberValue(s.query.protocol.value.major) as int
  }

  ghost function MinorIn(s: Start): int
    requires ProperStart(s)
  {
    if s.OfAnswer? then NumberValue(s.answer.minor) as int
    else if s.query.protocol.None? then 9
    else NumberValue(s.query.protocol.value.minor) as int
  }

  // Whether the connection persists after the message: by its version, and the connection headers of head and trailer.
  ghost predicate Persists(m: Message)
    requires ProperStart(m.start)
  {
    Stays(MajorIn(m.start), MinorIn(m.start), Says(m.headers, "close") || Says(Trailer(m.payload), "close"),
          Says(m.headers, "keep-alive") || Says(Trailer(m.payload), "keep-alive"))
  }

  /* ---- The start line. ---- */

  ghost function StartCore(c: Core, s: Start): Core
    requires ProperStart(s)
  {
    if s.OfAnswer? then AnswerCore(c, s.answer) else QueryCore(c, s.query)
  }

  // The parser is about to read such a start line.
  ghost predicate Awaits(p: Parser, s: Start) {
    && Ready(p) && p.core.verb != CONNECT
    && (if s.OfAnswer? then p.core.state.StartRes? && p.core.kind == Response
        else p.core.state.StartReq? && p.core.kind == Request)
  }

  lemma StartRuns(p: Parser, s: Start, skip: Answers)
    requires Awaits(p, s) && ProperStart(s) && p.nread + |StartText(s)| <= MAX_HEADER_SIZE
    ensures RunsTo(p, StartText(s), skip, Moved(p, StartCore(p.core, s), |StartText(s)|), StartEvents(s))
    ensures Ready(Moved(p, StartCore(p.core, s), |StartText(s)|))
  {
    hide Run, Inv, AnswerText, QueryText, ProperAnswer, ProperQuery, AnswerCore, QueryCore, RunsTo, NumberValue;
    if s.OfAnswer? { AnswerRuns(p, s.answer, skip); } else { QueryRuns(p, s.query, skip); }
    RunsInv(p, StartText(s), StartCore(p.core, s), StartEvents(s), skip);
  }

  // What the start line leaves.
  lemma StartLeaves(c: Core, s: Start)
    requires ProperStart(s)
    ensures var d := StartCore(c, s);
            && d.state.HeaderFieldStart? && d.flags == NO_FLAGS && d.contentLength == ULLONG_MAX && d.kind == c.kind
            && d.major as int == MajorIn(s) && d.minor as int == MinorIn(s)
            && d.verb == (if s.OfQuery? then s.query.verb else c.verb)
            && (s.OfAnswer? ==> d.statusCode == NumberValue(s.answer.code))
  {
    hide NumberValue, IsNumber, UrlWhole;
  }

  /* ---- The head. ---- */

  // The fields once on_headers_complete has answered: e, when they were c before the headers.
  ghost predicate HeadLeaves(c: Core, hs: seq<Header>, skips: bool, e: Core) {
    && e == c.(index := e.index, state := HeadersDone, headerState := e.headerState, upgrade := e.upgrade,
               flags := AllGained(c.flags, hs).(skipBody := AllGained(c.flags, hs).skipBody || skips),
               contentLength := LengthGiven(c.contentLength, hs))
    && (e.upgrade <==> AllGained(c.flags, hs).upgrade || c.verb == CONNECT)
  }

  lemma HeadRuns(q: Parser, hs: seq<Header>, crlf: bool, skip: Answers) returns (e: Core)
    requires Ready(q) && q.core.state.HeaderFieldStart? && AllProper(hs) && AllAccepted(hs) && !q.core.flags.trailing
    requires q.nread + |FullHead(hs, crlf)| <= MAX_HEADER_SIZE && !AllGained(q.core.flags, hs).upgrade
    requires q.core.verb != CONNECT && !AllGained(q.core.flags, hs).trailing
    ensures HeadLeaves(q.core, hs, skip(q.heads), e) && !e.upgrade
    ensures RunsTo(q, FullHead(hs, crlf), skip, Parser(e.(state := BodyFollows(e)), 0, OK, q.heads + 1),
                   BlockEvents(hs) + HeadEvents(e))
  {
    hide Run, Inv, AllGained, LengthGiven, FullHead, BlockEvents, AllProper, AllAccepted, BodyFollows, HeadEvents;
    var b := BeforeLfTakes(q, hs, crlf, skip);
    HeadersEnd(b, skip);
    e := PastHead(b, skip).core;
    RunConcat(q, BeforeLf(hs, crlf), [LF], skip);
  }

  // Accepted headers that name another protocol, or those of a CONNECT: the message is over, and what comes after them
  // is left to that protocol.
  lemma HeadChanges(q: Parser, hs: seq<Header>, crlf: bool, skip: Answers)
    requires Ready(q) && q.core.state.HeaderFieldStart? && AllProper(hs) && AllAccepted(hs) && q.core.flags == NO_FLAGS
    requires q.nread + |FullHead(hs, crlf)| <= MAX_HEADER_SIZE
    ensures var r := Run(q, FullHead(hs, crlf), skip);
            && (r.verdict == Out <==> HasUpgrade(hs) || q.core.verb == CONNECT) && r.verdict != Stop
            && (r.verdict == Out ==> r.events == BlockEvents(hs) + [Told(HeadersComplete), Told(MessageComplete)]
                                     && r.used == |FullHead(hs, crlf)|)
  {
    hide Run, Inv, AllGained, LengthGiven, FullHead, BlockEvents, AllProper, AllAccepted, HasUpgrade;
    AllGains(q.core.flags, hs);
    var b := BeforeLfTakes(q, hs, crlf, skip);
    HeadersEnd(b, skip);
    RunConcat(q, BeforeLf(hs, crlf), [LF], skip);
    assert [Told(HeadersComplete)] + [Told(MessageComplete)] == [Told(HeadersComplete), Told(MessageComplete)];
  }

  /* ---- The body. ---- */

  // What follows the headers of a message whose body has a known extent.
  lemma Follows(m: Message, c: Core, skips: bool, e: Core)
    requires ProperMessage(m, skips)
    requires c.flags == NO_FLAGS && c.contentLength == ULLONG_MAX && HeadLeaves(c, m.headers, skips, e)
    requires c.kind == (if m.start.OfAnswer? then Response else Request)
    requires m.start.OfAnswer? ==> c.statusCode == NumberValue(m.start.answer.code)
    ensures !NeedsEof(e)
    ensures BodyFollows(e) ==
            if m.payload.Nothing? then NewMessage(e) else if m.payload.Sized? then BodyIdentity else ChunkSizeStart
    ensures m.payload.Sized? ==> e.contentLength as int == |m.payload.bytes| > 0 && e.contentLength < ULLONG_MAX
    ensures m.payload.Chunks? ==> e.flags.chunked
  {
    hide NumberValue, LengthGiven, AllGained, NewMessage, AllAccepted, AllProper, ProperStart, StartCore, HasUpgrade;
    AllGains(c.flags, m.headers);
    hide HasChunked, Says;
  }

  // The chunks, the last chunk and the trailer.
  lemma ChunksRuns(h: Parser, chunks: seq<seq<byte>>, trailer: seq<Header>, crlf: bool, skip: Answers)
    returns (c: Core)
    requires Ready(h) && h.core.state.ChunkSizeStart? && Chunky(chunks) && AllProper(trailer) && AllAccepted(trailer)
    requires |FullHead(trailer, crlf)| <= MAX_HEADER_SIZE
    ensures c.kind == h.core.kind && c.major == h.core.major && c.minor == h.core.minor && c.verb == h.core.verb
    ensures c.flags == AllGained(h.core.flags.(trailing := true), trailer) && c.state == NewMessage(c)
    ensures RunsTo(h, PrintChunks(chunks) + (LAST_SIZE + FullHead(trailer, crlf)), skip,
                   Parser(c, |FullHead(trailer, crlf)|, OK, h.heads),
                   Singles(Body, Feeding.Concat(chunks)) + (BlockEvents(trailer) + [Told(MessageComplete)]))
  {
    hide Run, Inv, AllGained, LengthGiven, FullHead, BlockEvents, AllProper, AllAccepted, NewMessage, PrintChunks;
    hide Singles, RunsTo, Ready;
    var a := AtChunk(h, if chunks == [] then h.core.contentLength else 0);
    var q := a.(core := Trailing(a), nread := 0);
    ChunksRun(h, chunks, skip);
    RunsAre(h, PrintChunks(chunks), skip, a, Singles(Body, Feeding.Concat(chunks)));
    LastSizeRuns(a, skip);
    c := TrailerRuns(q, trailer, crlf, skip);
    var z := Parser(c, |FullHead(trailer, crlf)|, OK, h.heads);
    RunsToConcat(a, LAST_SIZE, q, [], FullHead(trailer, crlf), z, BlockEvents(trailer) + [Told(MessageComplete)], skip);
    assert [] + (BlockEvents(trailer) + [Told(MessageComplete)]) == BlockEvents(trailer) + [Told(MessageComplete)];
    RunsToConcat(h, PrintChunks(chunks), a, Singles(Body, Feeding.Concat(chunks)),
                 LAST_SIZE + FullHead(trailer, crlf), z, BlockEvents(trailer) + [Told(MessageComplete)], skip);
  }

  lemma RunsAre(p: Parser, bytes: seq<byte>, skip: Answers, q: Parser, e: seq<Event>)
    requires RunsTo(p, bytes, skip, q, e)
    ensures Ready(p) && Ready(q) && q.errno.OK?
  {
    hide Run;
    RunsReady(p, bytes, skip, q, e);
  }

  lemma LastSizeRuns(a: Parser, skip: Answers)
    requires Ready(a) && a.core.state.ChunkSizeStart?
    ensures RunsTo(a, LAST_SIZE, skip, a.(core := Trailing(a), nread := 0), [])
    ensures Ready(a.(core := Trailing(a), nread := 0))
  {
    hide Run, Inv;
    assert ['0'][..0] == [] && HexValue(['0']) == 0;
    ChunkHead(a, ['0'], [], 0, skip);
    assert ['0'] + [] == ['0'];
    RunsReady(a, LAST_SIZE, skip, a.(core := Trailing(a), nread := 0), []);
  }

  lemma TrailerRuns(q: Parser, trailer: seq<Header>, crlf: bool, skip: Answers) returns (c: Core)
    requires Ready(q) && q.core.state.HeaderFieldStart? && q.core.flags.trailing && q.nread == 0
    requires AllProper(trailer) && AllAccepted(trailer) && |FullHead(trailer, crlf)| <= MAX_HEADER_SIZE
    ensures c.kind == q.core.kind && c.major == q.core.major && c.minor == q.core.minor && c.verb == q.core.verb
    ensures c.flags == AllGained(q.core.flags, trailer) && c.state == NewMessage(c)
    ensures RunsTo(q, FullHead(trailer, crlf), skip, Parser(c, |FullHead(trailer, crlf)|, OK, q.heads),
                   BlockEvents(trailer) + [Told(MessageComplete)])
  {
    hide Run, Inv, AllGained, LengthGiven, BlockEvents, AllProper, AllAccepted, Block;
    var b := BeforeLfTakes(q, trailer, crlf, skip);
    AllGains(q.core.flags, trailer);
    TrailerLf(b, skip);
    c := b.core.(state := NewMessage(b.core));
    NewMessageState(b.core, NewMessage(b.core));
    RunConcat(q, BeforeLf(trailer, crlf), [LF], skip);
    assert |BeforeLf(trailer, crlf)| + 1 == |FullHead(trailer, crlf)|;
  }

  /* ---- Whole messages. ---- */

  // The fields at the end of a message that began with c: what they say of the connection, and the state.
  ghost predicate Ends(m: Message, c: Core, d: Core) {
    && d.kind == c.kind && d.major == c.major && d.minor == c.minor && d.verb == c.verb
    && d.state == NewMessage(d) && !NeedsEof(d)
    && d.flags.close == (Says(m.headers, "close") || Says(Trailer(m.payload), "close"))
    && d.flags.keepAlive == (Says(m.headers, "keep-alive") || Says(Trailer(m.payload), "keep-alive"))
  }

  function RestEvents(m: Message): seq<Event> {
    BlockEvents(m.headers) + [Told(HeadersComplete)] + Singles(Body, PayloadOf(m.payload))
    + BlockEvents(Trailer(m.payload)) + [Told(MessageComplete)]
  }

  // After the headers: the fields e, the state that follows from them, and what has been reported.
  ghost predicate HeadRead(q: Parser, m: Message, skip: Answers, e: Core) {
    && HeadLeaves(q.core, m.headers, skip(q.heads), e) && !e.upgrade && !NeedsEof(e)
    && q.core.flags == NO_FLAGS && !HasUpgrade(m.headers)
    && RunsTo(q, FullHead(m.headers, m.crlf), skip, Parser(e.(state := BodyFollows(e)), 0, OK, q.heads + 1),
              BlockEvents(m.headers) + HeadEvents(e))
    && BodyFollows(e) == (if m.payload.Nothing? then NewMessage(e) else if m.payload.Sized? then BodyIdentity
                          else ChunkSizeStart)
  }

  lemma NothingSaid()
    ensures !Says([], "close") && !Says([], "keep-alive")
  {
  }

  lemma NothingRuns(q: Parser, m: Message, skip: Answers, e: Core)
    requires HeadRead(q, m, skip, e) && m.payload.Nothing?
    ensures var d := e.(state := NewMessage(e));
            && RunsTo(q, FullHead(m.headers, m.crlf) + PayloadText(m.payload), skip, Parser(d, 0, OK, q.heads + 1),
                      RestEvents(m))
            && Ends(m, q.core, d)
  {
    var text := FullHead(m.headers, m.crlf);
    assert text + [] == text;
    AllGains(q.core.flags, m.headers);
    NothingSaid();
    NoSingles(Body);
    NewMessageState(e, NewMessage(e));
    NoBlock();
    hide Run, Inv, FullHead, BlockEvents, AllGained, LengthGiven, NewMessage, Says, Singles, HasUpgrade, BodyFollows;
    assert BlockEvents(m.headers) + HeadEvents(e) == RestEvents(m);
  }

  lemma NoBlock()
    ensures BlockEvents([]) == []
  {
  }

  // The fields at the end of an identity body.
  function AtSizedEnd(e: Core): Core { e.(contentLength := 0, state := NewMessage(e.(contentLength := 0))) }

  lemma SizedBody(h: Parser, e: Core, bytes: seq<byte>, skip: Answers)
    requires Ready(h) && h.core == e.(state := BodyIdentity) && e.contentLength as int == |bytes|
    ensures RunsTo(h, bytes, skip, h.(core := AtSizedEnd(e)), Singles(Body, bytes) + [Told(MessageComplete)])
  {
    hide Run, Inv, Singles;
    IdentityRun(h, bytes, skip);
    LengthApart(e, BodyIdentity);
    hide NewMessage;
  }

  lemma SizedRuns(q: Parser, m: Message, skip: Answers, e: Core)
    requires HeadRead(q, m, skip, e) && m.payload.Sized? && e.contentLength as int == |m.payload.bytes| > 0
    ensures RunsTo(q, FullHead(m.headers, m.crlf) + PayloadText(m.payload), skip,
                   Parser(AtSizedEnd(e), 0, OK, q.heads + 1), RestEvents(m))
  {
    hide Run, Inv, FullHead, BlockEvents, HasUpgrade, HeadLeaves, NeedsEof, HeadEvents, NewMessage, RunsTo, BodyFollows;
    hide RestEvents, Ready, Singles;
    var h, text := Parser(e.(state := BodyIdentity), 0, OK, q.heads + 1), FullHead(m.headers, m.crlf);
    SizedHeadEvents(e);
    assert RunsTo(q, text, skip, h, BlockEvents(m.headers) + [Told(HeadersComplete)]);
    hide HeadRead;
    RunsAre(q, text, skip, h, BlockEvents(m.headers) + [Told(HeadersComplete)]);
    SizedBody(h, e, m.payload.bytes, skip);
    RunsToConcat(q, text, h, BlockEvents(m.headers) + [Told(HeadersComplete)], m.payload.bytes,
                 h.(core := AtSizedEnd(e)), Singles(Body, m.payload.bytes) + [Told(MessageComplete)], skip);
    SizedParts(m);
  }

  lemma SizedParts(m: Message)
    requires m.payload.Sized?
    ensures BlockEvents(m.headers) + [Told(HeadersComplete)]
            + (Singles(Body, m.payload.bytes) + [Told(MessageComplete)])
            == RestEvents(m)
  {
    NoBlock();
    hide BlockEvents, Singles;
    Grouped(BlockEvents(m.headers) + [Told(HeadersComplete)], Singles(Body, m.payload.bytes), [],
            [Told(MessageComplete)]);
  }

  lemma SizedEnds(q: Parser, m: Message, skip: Answers, e: Core)
    requires HeadRead(q, m, skip, e) && m.payload.Sized?
    ensures Ends(m, q.core, AtSizedEnd(e))
  {
    hide RunsTo, AllGained, LengthGiven, Says, HasUpgrade, NewMessage, BodyFollows;
    AllGains(q.core.flags, m.headers);
    NothingSaid();
    LengthApart(e, NewMessage(e.(contentLength := 0)));
  }

  // The next state does not depend on the state.
  lemma LengthApart(e: Core, s: State)
    ensures NewMessage(e.(state := s, contentLength := 0)) == NewMessage(e.(contentLength := 0))
    ensures !NeedsEof(e.(contentLength := 0))
  {
  }

  lemma SizedHeadEvents(e: Core)
    requires !e.upgrade && (BodyFollows(e).BodyIdentity? || BodyFollows(e).ChunkSizeStart?)
    ensures HeadEvents(e) == [Told(HeadersComplete)]
  {
  }

  // The chunked body, after the head.
  function ChunkedEvents(m: Message): seq<Event>
    requires m.payload.Chunks?
  {
    Singles(Body, Feeding.Concat(m.payload.chunks))
    + (BlockEvents(m.payload.trailer) + [Told(MessageComplete)])
  }

  lemma ChunkedBody(q: Parser, m: Message, skip: Answers, e: Core) returns (d: Core)
    requires HeadRead(q, m, skip, e) && m.payload.Chunks? && Chunky(m.payload.chunks) && e.flags.chunked
    requires AllProper(m.payload.trailer) && AllAccepted(m.payload.trailer)
    requires |FullHead(m.payload.trailer, m.payload.crlf)| <= MAX_HEADER_SIZE
    ensures RunsTo(Parser(e.(state := ChunkSizeStart), 0, OK, q.heads + 1), PayloadText(m.payload), skip,
                   Parser(d, TrailerLength(m.payload), OK, q.heads + 1), ChunkedEvents(m))
    ensures d.kind == e.kind && d.major == e.major && d.minor == e.minor && d.verb == e.verb
    ensures d.flags == AllGained(e.flags.(trailing := true), m.payload.trailer) && d.state == NewMessage(d)
  {
    hide Run, Inv, FullHead, BlockEvents, AllGained, LengthGiven, Singles, HasUpgrade, HeadLeaves, NeedsEof, HeadEvents;
    hide NewMessage, PrintChunks, Chunky, AllProper, AllAccepted, RunsTo, Ready, Feeding.Concat;
    var h := Parser(e.(state := ChunkSizeStart), 0, OK, q.heads + 1);
    RunsAre(q, FullHead(m.headers, m.crlf), skip, h, BlockEvents(m.headers) + HeadEvents(e));
    d := ChunksRuns(h, m.payload.chunks, m.payload.trailer, m.payload.crlf, skip);
  }

  lemma ChunkedRuns(q: Parser, m: Message, skip: Answers, e: Core, d: Core)
    requires HeadRead(q, m, skip, e) && m.payload.Chunks?
    requires RunsTo(Parser(e.(state := ChunkSizeStart), 0, OK, q.heads + 1), PayloadText(m.payload), skip,
                    Parser(d, TrailerLength(m.payload), OK, q.heads + 1), ChunkedEvents(m))
    ensures RunsTo(q, FullHead(m.headers, m.crlf) + PayloadText(m.payload), skip,
                   Parser(d, TrailerLength(m.payload), OK, q.heads + 1), RestEvents(m))
  {
    hide Run, Inv, FullHead, BlockEvents, HasUpgrade, HeadLeaves, NeedsEof, HeadEvents, NewMessage, RunsTo, BodyFollows;
    hide PayloadText, RestEvents, TrailerLength, ChunkedEvents, Ready;
    var h := Parser(e.(state := ChunkSizeStart), 0, OK, q.heads + 1);
    SizedHeadEvents(e);
    assert RunsTo(q, FullHead(m.headers, m.crlf), skip, h, BlockEvents(m.headers) + [Told(HeadersComplete)]);
    hide HeadRead;
    ChunkedParts(m);
    RunsToConcat(q, FullHead(m.headers, m.crlf), h, BlockEvents(m.headers) + [Told(HeadersComplete)],
                 PayloadText(m.payload), Parser(d, TrailerLength(m.payload), OK, q.heads + 1), ChunkedEvents(m), skip);
  }

  lemma ChunkedParts(m: Message)
    requires m.payload.Chunks?
    ensures BlockEvents(m.headers) + [Told(HeadersComplete)] + ChunkedEvents(m) == RestEvents(m)
  {
    hide BlockEvents, Singles, Feeding.Concat;
    Grouped(BlockEvents(m.headers) + [Told(HeadersComplete)], Singles(Body, Feeding.Concat(m.payload.chunks)),
            BlockEvents(m.payload.trailer), [Told(MessageComplete)]);
  }

  lemma Grouped(a: seq<Event>, b: seq<Event>, c: seq<Event>, d: seq<Event>)
    ensures a + (b + (c + d)) == a + b + c + d
    ensures a + (b + d) == a + b + [] + d
  {
  }

  lemma ChunkedEnds(q: Parser, m: Message, skip: Answers, e: Core, d: Core)
    requires HeadRead(q, m, skip, e) && m.payload.Chunks? && e.flags.chunked
    requires d.kind == e.kind && d.major == e.major && d.minor == e.minor && d.verb == e.verb
    requires d.flags == AllGained(e.flags.(trailing := true), m.payload.trailer) && d.state == NewMessage(d)
    ensures Ends(m, q.core, d)
  {
    hide RunsTo, AllGained, LengthGiven, Says, HasUpgrade, NewMessage, BodyFollows;
    AllGains(q.core.flags, m.headers);
    AllGains(e.flags.(trailing := true), m.payload.trailer);
  }

  // From the headers to the end of the message.
  lemma RestRuns(q: Parser, m: Message, skip: Answers) returns (d: Core)
    requires Ready(q) && ProperMessage(m, skip(q.heads)) && q.core.state.HeaderFieldStart?
    requires q.nread + |FullHead(m.headers, m.crlf)| <= MAX_HEADER_SIZE && q.core.verb != CONNECT
    requires q.core.flags == NO_FLAGS && q.core.contentLength == ULLONG_MAX
    requires q.core.kind == (if m.start.OfAnswer? then Response else Request)
    requires m.start.OfAnswer? ==> q.core.statusCode == NumberValue(m.start.answer.code)
    ensures RunsTo(q, FullHead(m.headers, m.crlf) + PayloadText(m.payload), skip,
                   Parser(d, TrailerLength(m.payload), OK, q.heads + 1), RestEvents(m))
    ensures Ends(m, q.core, d)
  {
    hide Run, Inv, FullHead, BlockEvents, AllGained, LengthGiven, Says, Singles, HasUpgrade, AllProper, AllAccepted;
    hide RunsTo, Ready, NewMessage, BodyFollows, PayloadText, Ends, NumberValue, ProperStart, HasChunked, Chunky;
    AllGains(q.core.flags, m.headers);
    var e := HeadRuns(q, m.headers, m.crlf, skip);
    Follows(m, q.core, skip(q.heads), e);
    hide HeadLeaves;
    if m.payload.Nothing? {
      NothingRuns(q, m, skip, e);
      d := e.(state := NewMessage(e));
    } else if m.payload.Sized? {
      SizedRuns(q, m, skip, e);
      SizedEnds(q, m, skip, e);
      d := AtSizedEnd(e);
    } else {
      d := ChunkedBody(q, m, skip, e);
      ChunkedRuns(q, m, skip, e, d);
      ChunkedEnds(q, m, skip, e, d);
    }
  }

  // Every well-formed message is accepted and reported as its parts say; and the parser is ready for the next one
  // exactly if the connection persists.
  lemma MessageRuns(p: Parser, m: Message, skip: Answers) returns (d: Core)
    requires Awaits(p, m.start) && ProperMessage(m, skip(p.heads)) && p.nread + HeadLength(m) <= MAX_HEADER_SIZE
    ensures RunsTo(p, MessageText(m), skip, Parser(d, TrailerLength(m.payload), OK, p.heads + 1), MessageEvents(m))
    ensures d.kind == p.core.kind && d.verb != CONNECT && d.state == NextState(p.core.kind, Persists(m))
  {
    hide Run, Inv, FullHead, RestEvents, RunsTo, StartText, StartEvents, ProperStart, Framed, PayloadText, StartCore;
    hide Ends, TrailerLength, AllProper, AllAccepted, HasUpgrade, NumberValue, MessageEvents;
    var c, n := StartCore(p.core, m.start), |StartText(m.start)|;
    StartRuns(p, m.start, skip);
    StartLeaves(p.core, m.start);
    var q := Moved(p, c, n);
    d := RestRuns(q, m, skip);
    EndsAs(m, q.core, d);
    hide ProperMessage, Ready;
    RunsToConcat(p, StartText(m.start), q, StartEvents(m.start), FullHead(m.headers, m.crlf) + PayloadText(m.payload),
                 Parser(d, TrailerLength(m.payload), OK, p.heads + 1), RestEvents(m), skip);
    PartsJoin(m);
  }

  lemma PartsJoin(m: Message)
    ensures StartText(m.start) + (FullHead(m.headers, m.crlf) + PayloadText(m.payload)) == MessageText(m)
    ensures StartEvents(m.start) + RestEvents(m) == MessageEvents(m)
  {
    hide FullHead, StartText, StartEvents, PayloadText, BlockEvents, Singles, PayloadOf, Trailer;
  }

  lemma EndsAs(m: Message, c: Core, d: Core)
    requires ProperStart(m.start) && Ends(m, c, d)
    requires c.major as int == MajorIn(m.start) && c.minor as int == MinorIn(m.start) && c.verb != CONNECT
    ensures d.kind == c.kind && d.verb != CONNECT && d.state == NextState(c.kind, Persists(m))
  {
    hide Says, MajorIn, MinorIn, ProperStart;
  }

  /* ---- One after the other. ---- */

  function AllText(ms: seq<Message>): seq<byte> { if ms == [] then [] else MessageText(ms[0]) + AllText(ms[1..]) }

  function AllEvents(ms: seq<Message>): seq<Event> {
    if ms == [] then [] else MessageEvents(ms[0]) + AllEvents(ms[1..])
  }

  // Messages of one kind, each but the last leaving the connection open, and heads within the limit, where n header
  // bytes are counted before the first.
  ghost predicate InTurn(ms: seq<Message>, kind: MessageKind, n: nat, heads: nat, skip: Answers) {
    ms != [] ==>
      && ProperMessage(ms[0], skip(heads)) && (ms[0].start.OfAnswer? <==> kind == Response)
      && n + HeadLength(ms[0]) <= MAX_HEADER_SIZE && (|ms| > 1 ==> Persists(ms[0]))
      && InTurn(ms[1..], kind, TrailerLength(ms[0].payload), heads + 1, skip)
  }

  // The parser awaits a message of its kind.
  ghost predicate Idle(p: Parser) {
    && Ready(p) && p.core.verb != CONNECT && (p.core.kind == Request || p.core.kind == Response)
    && p.core.state == NextState(p.core.kind, true)
  }

  // All of them are accepted and reported, in order; and after them the parser awaits another exactly if the last one
  // leaves the connection open.
  lemma {:induction false} ExchangeRuns(p: Parser, ms: seq<Message>, skip: Answers) returns (q: Parser)
    requires Idle(p) && InTurn(ms, p.core.kind, p.nread, p.heads, skip)
    ensures RunsTo(p, AllText(ms), skip, q, AllEvents(ms)) && q.heads == p.heads + |ms|
    ensures q.core.kind == p.core.kind && (ms == [] ==> q == p)
    ensures ms != [] ==> ProperStart(ms[|ms| - 1].start)
                         && q.core.state == NextState(p.core.kind, Persists(ms[|ms| - 1]))
    decreases |ms|
  {
    hide Run, Inv, MessageText, MessageEvents, RunsTo, Persists, ProperMessage, TrailerLength, Ready, HeadLength, Idle;
    hide ProperStart;
    if ms == [] {
      q := p;
      assert RunsTo(p, [], skip, p, []) by { NoRun(p, skip); }
    } else {
      var m, rest := ms[0], ms[1..];
      ItsStart(m, skip(p.heads));
      var r := IdleRuns(p, m, skip);
      if rest == [] {
        q := r;
        assert MessageText(m) + [] == MessageText(m) && MessageEvents(m) + [] == MessageEvents(m);
      } else {
        q := ExchangeRuns(r, rest, skip);
        RunsToConcat(p, MessageText(m), r, MessageEvents(m), AllText(rest), q, AllEvents(rest), skip);
      }
    }
  }

  // One of them, read by a parser that awaits it.
  lemma IdleRuns(p: Parser, m: Message, skip: Answers) returns (r: Parser)
    requires Idle(p) && ProperMessage(m, skip(p.heads)) && (m.start.OfAnswer? <==> p.core.kind == Response)
    requires p.nread + HeadLength(m) <= MAX_HEADER_SIZE && ProperStart(m.start)
    ensures RunsTo(p, MessageText(m), skip, r, MessageEvents(m)) && r.core.kind == p.core.kind
    ensures r.nread == TrailerLength(m.payload) && r.heads == p.heads + 1
    ensures r.core.state == NextState(p.core.kind, Persists(m)) && (Persists(m) ==> Idle(r))
  {
    hide Run, Inv, MessageText, MessageEvents, RunsTo, Persists, ProperMessage, TrailerLength, HeadLength, ProperStart;
    var d := MessageRuns(p, m, skip);
    r := Parser(d, TrailerLength(m.payload), OK, p.heads + 1);
    RunsAre(p, MessageText(m), skip, r, MessageEvents(m));
  }

  lemma NoRun(p: Parser, skip: Answers)
    requires Idle(p)
    ensures RunsTo(p, [], skip, p, [])
  {
    EmptyRun(p, skip);
  }

  lemma ItsStart(m: Message, skips: bool)
    requires ProperMessage(m, skips)
    ensures ProperStart(m.start)
  {
  }

  lemma InitialIdle(kind: MessageKind)
    requires kind == Request || kind == Response
    ensures Idle(Initial(kind)) && Initial(kind).nread == 0 && Initial(kind).heads == 0
  {
    InitialReady(kind);
  }

  /* ---- What an application makes of it. ---- */

  // The body bytes since the last message was complete.
  function OpenBody(t: seq<Event>): seq<byte> {
    if t == [] then []
    else
      var e, before := t[|t| - 1], OpenBody(t[..|t| - 1]);
      if e == Told(MessageComplete) then [] else if e.Data? && e.kind == Body then before + e.bytes else before
  }

  // The bodies of the messages that are complete.
  function Bodies(t: seq<Event>): seq<seq<byte>> {
    if t == [] then []
    else if t[|t| - 1] == Told(MessageComplete) then Bodies(t[..|t| - 1]) + [OpenBody(t[..|t| - 1])]
    else Bodies(t[..|t| - 1])
  }

  lemma BodiesSnoc(t: seq<Event>, e: Event)
    ensures Bodies(t + [e]) == if e == Told(MessageComplete) then Bodies(t) + [OpenBody(t)] else Bodies(t)
    ensures OpenBody(t + [e]) == if e == Told(MessageComplete) then []
            else if e.Data? && e.kind == Body then OpenBody(t) + e.bytes else OpenBody(t)
  {
    assert (t + [e])[..|t|] == t;
  }

  // Events that have nothing to do with bodies.
  predicate Aside(t: seq<Event>) {
    forall i | 0 <= i < |t| :: t[i] != Told(MessageComplete) && !(t[i].Data? && t[i].kind == Body)
  }

  lemma {:induction false} AsideBodies(a: seq<Event>, t: seq<Event>)
    requires Aside(t)
    ensures Bodies(a + t) == Bodies(a) && OpenBody(a + t) == OpenBody(a)
    decreases |t|
  {
    if t == [] {
      assert a + t == a;
    } else {
      var n := |t| - 1;
      assert a + t == a + t[..n] + [t[n]];
      AsideBodies(a, t[..n]);
      BodiesSnoc(a + t[..n], t[n]);
    }
  }

  lemma {:induction false} SinglesBodies(a: seq<Event>, bytes: seq<byte>)
    ensures Bodies(a + Singles(Body, bytes)) == Bodies(a)
    ensures OpenBody(a + Singles(Body, bytes)) == OpenBody(a) + bytes
    decreases |bytes|
  {
    if bytes == [] {
      assert a + Singles(Body, bytes) == a && OpenBody(a) + [] == OpenBody(a);
    } else {
      var n := |bytes| - 1;
      SinglesBodies(a, bytes[..n]);
      assert a + Singles(Body, bytes) == a + Singles(Body, bytes[..n]) + [Data(Body, bytes[n..])];
      BodiesSnoc(a + Singles(Body, bytes[..n]), Data(Body, bytes[n..]));
      assert OpenBody(a) + bytes[..n] + bytes[n..] == OpenBody(a) + bytes;
    }
  }

  lemma {:induction false} SinglesAside(k: Kind, bytes: seq<byte>)
    requires !k.Body?
    ensures Aside(Singles(k, bytes))
  {
    if bytes != [] { SinglesAside(k, bytes[..|bytes| - 1]); }
  }

  lemma {:induction false} PartsAside(parts: seq<Part>)
    ensures Aside(PartsEvents(parts))
    decreases |parts|
  {
    hide SkipBlanks;
    if parts != [] {
      SinglesAside(ParserState.Value, SkipBlanks(parts[0].value));
      PartsAside(parts[1..]);
      hide Singles;
    }
  }

  lemma {:induction false} BlockAside(hs: seq<Header>)
    ensures Aside(BlockEvents(hs))
    decreases |hs|
  {
    if hs != [] {
      var n := |hs| - 1;
      BlockAside(hs[..n]);
      SinglesAside(Field, hs[n].name);
      PartsAside(hs[n].parts);
      hide Singles, PartsEvents, BlockEvents;
      assert Aside(HeaderEvents(hs[n]));
      assert BlockEvents(hs) == BlockEvents(hs[..n]) + HeaderEvents(hs[n]) by { LastBlock(hs); }
    }
  }

  lemma LastBlock(hs: seq<Header>)
    requires hs != []
    ensures BlockEvents(hs) == BlockEvents(hs[..|hs| - 1]) + HeaderEvents(hs[|hs| - 1])
  {
  }

  lemma StartAside(s: Start)
    ensures Aside(StartEvents(s))
  {
    if s.OfQuery? { SinglesAside(Url, s.query.url); }
    hide Singles;
  }

  lemma MessageBodies(a: seq<Event>, m: Message)
    requires OpenBody(a) == []
    ensures Bodies(a + MessageEvents(m)) == Bodies(a) + [PayloadOf(m.payload)]
    ensures OpenBody(a + MessageEvents(m)) == []
  {
    var body, head := PayloadOf(m.payload), StartEvents(m.start) + BlockEvents(m.headers) + [Told(HeadersComplete)];
    StartAside(m.start);
    BlockAside(m.headers);
    BlockAside(Trailer(m.payload));
    hide StartEvents, BlockEvents, PayloadOf, Trailer, Singles, Bodies, OpenBody;
    assert Aside(head);
    var t := a + head + Singles(Body, body) + BlockEvents(Trailer(m.payload));
    assert a + MessageEvents(m) == t + [Told(MessageComplete)];
    AsideBodies(a, head);
    SinglesBodies(a + head, body);
    AsideBodies(a + head + Singles(Body, body), BlockEvents(Trailer(m.payload)));
    BodiesSnoc(t, Told(MessageComplete));
    assert [] + body == body;
  }

  function Payloads(ms: seq<Message>): seq<seq<byte>> {
    if ms == [] then [] else [PayloadOf(ms[0].payload)] + Payloads(ms[1..])
  }

  // The bodies an application puts together are those of the messages, one each, in order.
  lemma {:induction false} AllBodies(a: seq<Event>, ms: seq<Message>)
    requires OpenBody(a) == []
    ensures Bodies(a + AllEvents(ms)) == Bodies(a) + Payloads(ms) && OpenBody(a + AllEvents(ms)) == []
    decreases |ms|
  {
    hide MessageEvents, PayloadOf, Bodies, OpenBody;
    if ms == [] {
      assert a + [] == a && Bodies(a) + [] == Bodies(a);
    } else {
      MessageBodies(a, ms[0]);
      AllBodies(a + MessageEvents(ms[0]), ms[1..]);
      assert a + AllEvents(ms) == a + MessageEvents(ms[0]) + AllEvents(ms[1..]);
      assert Bodies(a) + [PayloadOf(ms[0].payload)] + Payloads(ms[1..])
             == Bodies(a) + ([PayloadOf(ms[0].payload)] + Payloads(ms[1..]));
    }
  }

  lemma BodiesJoin(m: seq<Event>, e: Event)
    ensures Bodies(Join(m, e)) == Bodies(m + [e]) && OpenBody(Join(m, e)) == OpenBody(m + [e])
  {
    var n := |m| - 1;
    if m != [] && m[n].Data? && e.Data? && m[n].kind == e.kind {
      var d := Data(e.kind, m[n].bytes + e.bytes);
      assert m == m[..n] + [m[n]];
      BodiesSnoc(m[..n], d);
      BodiesSnoc(m[..n], m[n]);
      BodiesSnoc(m, e);
      if e.kind == Body { assert OpenBody(m[..n]) + m[n].bytes + e.bytes == OpenBody(m[..n]) + d.bytes; }
    }
  }

  // However the data callbacks are cut, the bodies are the same.
  lemma {:induction false} BodiesMerge(t: seq<Event>)
    ensures Bodies(Merge(t)) == Bodies(t) && OpenBody(Merge(t)) == OpenBody(t)
  {
    if t != [] {
      var m, e := Merge(t[..|t| - 1]), t[|t| - 1];
      BodiesMerge(t[..|t| - 1]);
      BodiesJoin(m, e);
      assert t == t[..|t| - 1] + [e];
      BodiesSnoc(t[..|t| - 1], e);
      BodiesSnoc(m, e);
      hide Join, Bodies, OpenBody;
    }
  }

  // From the first byte: a new parser given well-formed messages in turn accepts and reports all of them, the bodies
  // one by one, and awaits another exactly if the last one leaves the connection open.
  lemma Exchange(kind: MessageKind, ms: seq<Message>, skip: Answers) returns (q: Parser)
    requires (kind == Request || kind == Response) && InTurn(ms, kind, 0, 0, skip)
    ensures RunsTo(Initial(kind), AllText(ms), skip, q, AllEvents(ms)) && Bodies(AllEvents(ms)) == Payloads(ms)
    ensures ms != [] ==> ProperStart(ms[|ms| - 1].start)
                         && q.core.state == NextState(kind, Persists(ms[|ms| - 1]))
  {
    hide RunsTo, AllText, AllEvents, InTurn, Idle;
    InitialIdle(kind);
    q := ExchangeRuns(Initial(kind), ms, skip);
    AllBodies([], ms);
    assert [] + AllEvents(ms) == AllEvents(ms) && [] + Payloads(ms) == Payloads(ms);
  }

  // The same for an actual parser, the messages cut anywhere into pieces and paused anywhere: only a stream that is not
  // spared, to an application that pauses, may end at the header limit.
  method ReceiveExchange(
    h: Execution.HttpParser, ms: seq<Message>, pieces: seq<seq<byte>>, policy: Execution.Policy, ghost skip: Answers)
    requires h.Valid() && h.errno.OK? && [] !in pieces && Feeding.NeverFails(policy, skip)
    requires Idle(h.View()) && InTurn(ms, h.View().core.kind, h.View().nread, h.View().heads, skip)
    requires OpenBody(h.trace) == [] && Feeding.Concat(pieces) == AllText(ms)
    modifies h
    ensures h.errno.OK? || h.errno.HeaderOverflow?
    ensures h.errno.HeaderOverflow? ==>
              !HeaderLimit.Spared(old(h.View()), AllText(ms), skip) && !Feeding.NeverPauses(policy)
    ensures h.errno.OK? ==>
              && Merge(h.trace) == Merge(old(h.trace) + AllEvents(ms))
              && Bodies(h.trace) == old(Bodies(h.trace)) + Payloads(ms) && OpenBody(h.trace) == []
              && (ms != [] ==> ProperStart(ms[|ms| - 1].start)
                               && h.state == NextState(old(h.kind), Persists(ms[|ms| - 1])))
  {
    hide Run, Inv, Merge, AllText, AllEvents, InTurn, Idle, HeaderLimit.Spared, HeadsIn, Bodies, OpenBody, Persists;
    ghost var v, t := h.View(), h.trace;
    ghost var q := ExchangeRuns(v, ms, skip);
    Feeding.Feed(h, pieces, policy, skip);
    AllBodies(t, ms);
    BodiesMerge(h.trace);
    BodiesMerge(t + AllEvents(ms));
  }

  /* ---- Such messages. ---- */

  const OK_TEXT: seq<byte> := ['H', 'T', 'T', 'P', '/', '1', '.', '1', ' ', '2', '0', '0', ' ', 'O', 'K', CR, LF]
  const LENGTH_NAME: seq<byte> := "Content-Length"
  const LENGTH_ZERO: seq<byte> := [' ', '0']

  function EmptyAnswer(): Message {
    Message(OfAnswer(Answer("1", "1", " ", "200", " OK", true)),
            [Header(LENGTH_NAME, true, false, [Part(LENGTH_ZERO, true)])], true, Nothing)
  }

  lemma OkLine()
    ensures ProperAnswer(EmptyAnswer().start.answer) && AnswerText(EmptyAnswer().start.answer) == OK_TEXT
    ensures MajorIn(EmptyAnswer().start) == 1 && MinorIn(EmptyAnswer().start) == 1
  {
    assert ['1'][..0] == [] && ['2', '0', '0'][..2] == ['2', '0'] && ['2', '0'][..1] == ['2'] && ['2'][..0] == [];
  }

  lemma LengthHeader()
    ensures var h := EmptyAnswer().headers[0];
            && Proper(h) && SameName(h.name, CONTENT_LENGTH) && SkipBlanks(FirstValue(h)) == ['0']
            && HeaderText(h) == LENGTH_NAME + [':', ' ', '0', CR, LF]
  {
    var h := EmptyAnswer().headers[0];
    assert LENGTH_ZERO[1..] == ['0'];
    assert SkipBlanks(LENGTH_ZERO) == ['0'];
    LengthName();
    assert h.parts[1..] == [];
    hide AllTokens, SameName;
    assert Texts(h.parts) == [' ', '0', CR, LF] by { assert h.parts[1..] == [] && Texts([]) == []; }
  }

  lemma LengthName()
    ensures AllTokens(LENGTH_NAME) && SameName(LENGTH_NAME, CONTENT_LENGTH)
  {
  }

  lemma LengthAccepted()
    ensures var h := EmptyAnswer().headers[0];
            Accepted(h) && LengthOver(ULLONG_MAX, h.parts) == 0 && !SaysChunked(h) && !SaysUpgrade(h)
            && !SaysConnection(h, "close")
  {
    var h := EmptyAnswer().headers[0];
    LengthHeader();
    assert ['0'][..0] == [] && DecValue(['0']) == 0;
    assert h.parts[1..] == [];
    assert IsLength(['0']) && Lengthy([]) && Lengthy(h.parts) && Unbroken(h.parts);
    assert |h.name| == 14 && |"transfer-encoding"| == 17 && |"upgrade"| == 7 && |"connection"| == 10;
    hide FoldAll, SkipBlanks;
  }

  // Two responses without a body on one connection: the headers say so by a length of 0.
  lemma TwoInTurn(skip: Answers)
    requires !skip(0) && !skip(1)
    ensures var m := EmptyAnswer();
            InTurn([m, m], Response, 0, 0, skip) && Persists(m)
            && MessageText(m) == OK_TEXT + (LENGTH_NAME + [':', ' ', '0', CR, LF]) + [CR, LF]
  {
    var m := EmptyAnswer();
    OneInTurn(skip);
    hide ProperMessage, Persists, HeadLength;
    assert [m, m][1..] == [m] && [m][1..] == [];
    assert InTurn([], Response, 0, 2, skip);
    assert InTurn([m], Response, 0, 1, skip);
  }

  lemma OneInTurn(skip: Answers)
    ensures var m := EmptyAnswer();
            && ProperMessage(m, false) && Persists(m) && HeadLength(m) <= 100 && TrailerLength(m.payload) == 0
            && MessageText(m) == OK_TEXT + (LENGTH_NAME + [':', ' ', '0', CR, LF]) + [CR, LF]
  {
    var m := EmptyAnswer();
    OkLine();
    LengthHeader();
    LengthAccepted();
    var h := m.headers[0];
    assert m.headers == [h] && m.headers[..0] == [];
    assert Block(m.headers) == HeaderText(h) by { assert Block([]) == [] && [] + HeaderText(h) == HeaderText(h); }
    assert GivenLength(m) == 0;
    hide Proper, Accepted, SaysChunked, SaysUpgrade, SaysConnection, HeaderText, LengthOver, ProperAnswer, AnswerText;
    hide Gained, MajorIn, MinorIn;
  }

  // And a request may have any URL of these forms.
  lemma UrlsWhole(u: UrlForms.Url, isConnect: bool)
    requires UrlForms.Written(u, isConnect)
    ensures UrlWhole(UrlForms.UrlText(u), isConnect)
  {
    hide UrlForms.Written, UrlForms.UrlText, UrlMayEnd;
    UrlForms.InRequests(u, isConnect);
    var url := UrlForms.UrlText(u);
    assert url[..|url|] == url;
  }
}
