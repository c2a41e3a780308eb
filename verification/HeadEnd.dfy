/** The empty line after the headers: on_headers_complete runs on its line feed, and the same byte decides where the
    body comes from, as section 4.4 of RFC 2616 has it (src/http_parser.c:1541-1642). */
module HeadEnd {
  import opened Bytes
  import opened ParserState
  import opened Switch
  import opened Trace
  import opened Machine

  // Where the line feed of an empty line may find the parser: after a CR, or at the start of a line.
  predicate OnEmptyLine(s: State) { s.HeaderValueLws? || s.HeaderFieldStart? || s.HeadersAlmostDone? }

  // The fields that on_headers_complete sees.
  function AtHead(c: Core): Core { c.(state := HeadersDone, upgrade := c.flags.upgrade || c.verb == CONNECT) }

  // The parser once on_headers_complete has answered, still on the line feed.
  function PastHead(p: Parser, skip: Answers): Parser {
    p.(core := Headed(AtHead(p.core), skip(p.heads)), heads := p.heads + 1)
  }

  lemma EmptyLineTurns(c: Core)
    requires Inv(c) && !c.flags.trailing
    ensures c.state.HeaderValueLws? ==> SwitchOn(c, LF) == Turn(c.(state := HeaderFieldStart), Again)
    ensures c.state.HeaderFieldStart? ==> SwitchOn(c, LF) == Turn(c.(state := HeadersAlmostDone), Again)
    ensures c.state.HeadersAlmostDone? ==> SwitchOn(c, LF) == Turn(AtHead(c), Head)
  {
    hide Sound, Token;
  }

  // The line feed of an empty line runs on_headers_complete, on those fields.
  lemma {:induction false} ReachesHead(p: Parser, bytes: seq<byte>, skip: Answers)
    requires Mid(p) && OnEmptyLine(p.core.state) && !p.core.flags.trailing && bytes != [] && bytes[0] == LF
    ensures Mid(PastHead(p, skip))
    ensures RunMid(p, bytes, skip) == Prepend([Told(HeadersComplete)], 0, RunMid(PastHead(p, skip), bytes, skip))
    decreases Rank(p.core.state)
  {
    hide SwitchOn, RunMid, Inv;
    EmptyLineTurns(p.core);
    var t := SwitchOn(p.core, LF);
    PassOn(p, bytes, skip, t);
    var q := After(p, t, skip);
    if t.act.Again? {
      ReachesHead(q, bytes, skip);
      PrependPrepend([], 0, [Told(HeadersComplete)], 0, RunMid(PastHead(p, skip), bytes, skip));
      assert AtHead(q.core) == AtHead(p.core) && [] + [Told(HeadersComplete)] == [Told(HeadersComplete)];
    }
  }

  // And nothing else does.
  lemma {:induction false} OnlyThere(p: Parser, ch: byte, skip: Answers)
    requires Mid(p) && Told(HeadersComplete) in Finish(p, ch, skip).events
    ensures OnEmptyLine(p.core.state) && !p.core.flags.trailing && ch == LF
    decreases Rank(p.core.state)
  {
    hide SwitchOn, Inv;
    var t := SwitchOn(p.core, ch);
    HeadFrom(p.core, ch);
    if t.act.Again? || t.act.FlushAgain? || t.act.LastBody? {
      OnlyThere(After(p, t, skip), ch, skip);
      AgainFrom(p.core, ch);
    }
  }

  lemma HeadFrom(c: Core, ch: byte)
    requires Inv(c)
    ensures var a := SwitchOn(c, ch).act;
            && (a.Head? ==> c.state.HeadersAlmostDone? && !c.flags.trailing && ch == LF)
            && (a.Notify? ==> !a.note.HeadersComplete?)
  {
    hide Inv, Advance, MatchField, Token, Unhex, Lower, Accumulate, LengthRefused, Sound;
    assert Sound(c, SwitchOn(c, ch));
    if SwitchOn(c, ch).act.Head? { HeadRanked(c, ch); }
    hide SwitchOn;
  }

  lemma HeadRanked(c: Core, ch: byte)
    requires Inv(c) && SwitchOn(c, ch).act.Head?
    ensures c.state.HeadersAlmostDone? && !c.flags.trailing && ch == LF
  {
  }

  lemma AgainFrom(c: Core, ch: byte)
    requires Inv(c) && Repeats(SwitchOn(c, ch).act) && OnEmptyLine(SwitchOn(c, ch).core.state)
    ensures OnEmptyLine(c.state) && SwitchOn(c, ch).core.flags == c.flags
  {
  }

  /* ---- Where the body comes from. ---- */

  // The state after the line feed, by section 4.4 of RFC 2616, of a message that does not change the protocol.
  function BodyFollows(c: Core): State {
    if c.flags.skipBody then NewMessage(c)
    else if c.flags.chunked then ChunkSizeStart
    else if c.contentLength == 0 then NewMessage(c)
    else if c.contentLength != ULLONG_MAX then BodyIdentity
    else if NeedsEof(c) then BodyIdentityEof
    else NewMessage(c)
  }

  // What the line feed reports: the end of the headers, and of the message if no body follows.
  function HeadEvents(c: Core): seq<Event> {
    [Told(HeadersComplete)] + if c.upgrade || BodyFollows(c) == NewMessage(c) then [Told(MessageComplete)] else []
  }

  lemma DoneTurn(c: Core)
    requires Inv(c) && c.state.HeadersDone?
    ensures var t := SwitchOn(c, LF);
            && t.resets && !Repeats(t.act) && !t.act.Fail? && (t.act.Leave? <==> c.upgrade)
            && t.core == c.(state := if c.upgrade then NewMessage(c) else BodyFollows(c))
            && Emits(t.act, LF) == if c.upgrade || BodyFollows(c) == NewMessage(c) then [Told(MessageComplete)] else []
  {
    hide Sound;
  }

  // The line feed of an empty line, from the fields before it: on_headers_complete and what its answer and they decide.
  lemma HeadersEnd(p: Parser, skip: Answers)
    requires Ready(p) && OnEmptyLine(p.core.state) && !p.core.flags.trailing && p.nread < MAX_HEADER_SIZE
    ensures var q := PastHead(p, skip);
            Run(p, [LF], skip) ==
            Result(q.(core := q.core.(state := if q.core.upgrade then NewMessage(q.core) else BodyFollows(q.core)),
                      nread := 0),
                   HeadEvents(q.core), 1, if q.core.upgrade then Out else Go)
  {
    hide SwitchOn, Run, RunMid, Inv, BodyFollows;
    Counted(p, [LF], skip);
    ReachesHead(Enter(p), [LF], skip);
    var e := PastHead(Enter(p), skip);
    DoneTurn(e.core);
    PassEnds(e, LF, skip, SwitchOn(e.core, LF));
    assert PastHead(p, skip).core == e.core;
  }

  // Headers giving a length, not skipped, chunked or of another protocol, lead to an identity body of that length.
  lemma LengthBegins(p: Parser, skip: Answers)
    requires Ready(p) && OnEmptyLine(p.core.state) && !p.core.flags.trailing && p.nread < MAX_HEADER_SIZE
    requires 0 < p.core.contentLength < ULLONG_MAX && !p.core.flags.chunked && !p.core.flags.skipBody && !skip(p.heads)
    requires !p.core.flags.upgrade && p.core.verb != CONNECT
    ensures RunsTo(p, [LF], skip,
                   p.(core := p.core.(state := BodyIdentity, upgrade := false), nread := 0, heads := p.heads + 1),
                   [Told(HeadersComplete)])
  {
    hide Run, Inv;
    HeadersEnd(p, skip);
  }

  // Headers with the chunked coding lead to the first chunk, whatever length they give.
  lemma ChunkedBegins(p: Parser, skip: Answers)
    requires Ready(p) && OnEmptyLine(p.core.state) && !p.core.flags.trailing && p.nread < MAX_HEADER_SIZE
    requires p.core.flags.chunked && !p.core.flags.skipBody && !skip(p.heads) && !p.core.flags.upgrade
    requires p.core.verb != CONNECT
    ensures RunsTo(p, [LF], skip,
                   p.(core := p.core.(state := ChunkSizeStart, upgrade := false), nread := 0, heads := p.heads + 1),
                   [Told(HeadersComplete)])
  {
    hide Run, Inv;
    HeadersEnd(p, skip);
  }

  // A response with neither lasts until the end of the stream, unless its status says that it has no body.
  lemma StreamBegins(p: Parser, skip: Answers)
    requires Ready(p) && OnEmptyLine(p.core.state) && !p.core.flags.trailing && p.nread < MAX_HEADER_SIZE
    requires NeedsEof(p.core) && !skip(p.heads) && !p.core.flags.upgrade && p.core.verb != CONNECT
    ensures RunsTo(p, [LF], skip,
                   p.(core := p.core.(state := BodyIdentityEof, upgrade := false), nread := 0, heads := p.heads + 1),
                   [Told(HeadersComplete)])
  {
    hide Run, Inv;
    HeadersEnd(p, skip);
  }
}
