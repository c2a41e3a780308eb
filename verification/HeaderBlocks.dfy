/** Whole blocks of header lines, and what they say about the body: section 4.4 of RFC 2616 from the lines themselves
    (src/http_parser.c:1174-1642). */
module HeaderBlocks {
  import opened Bytes
  import opened ParserState
  import opened Switch
  import opened Trace
  import opened Machine
  import opened Lengths
  import opened Headers
  import opened HeadEnd

  // A header: a name, and a value over any number of lines. Usually there is a colon, and the first line of the value
  // follows it; but the parser also takes a name that ends its line, crlf saying how, for a header without a value, and
  // the lines after it, if they start with a blank, for one.
  datatype Header = Header(name: seq<byte>, colon: bool, crlf: bool, parts: seq<Part>)

  predicate Proper(h: Header) {
    && h.name != [] && AllTokens(h.name) && (h.colon ==> h.parts != []) && Values(h.parts)
    && FoldedAll(if h.colon && h.parts != [] then h.parts[1..] else h.parts)
  }

  predicate Values(parts: seq<Part>) { forall i | 0 <= i < |parts| :: NoLineEnd(parts[i].value) }

  predicate FoldedAll(parts: seq<Part>) { forall i | 0 <= i < |parts| :: Folded(parts[i]) }

  predicate AllProper(hs: seq<Header>) { forall i | 0 <= i < |hs| :: Proper(hs[i]) }

  function Texts(parts: seq<Part>): seq<byte> { if parts == [] then [] else Text(parts[0]) + Texts(parts[1..]) }

  function HeaderText(h: Header): seq<byte> { h.name + (if h.colon then [':'] else Eol(h.crlf)) + Texts(h.parts) }

  function Block(hs: seq<Header>): seq<byte> {
    if hs == [] then [] else Block(hs[..|hs| - 1]) + HeaderText(hs[|hs| - 1])
  }

  // The first line of the value: the connection flags and the coding depend on it alone.
  function FirstValue(h: Header): seq<byte> { if h.parts == [] then [] else h.parts[0].value }

  // What the headers add to the flags, by whole-string comparison of names and values.
  function AllGained(f: Flags, hs: seq<Header>): Flags {
    if hs == [] then f
    else Gained(AllGained(f, hs[..|hs| - 1]), hs[|hs| - 1].name, FirstValue(hs[|hs| - 1]))
  }

  // The length a Content-Length over these lines leaves, modulo 2^64: every line counts anew, up to a blank one.
  function LengthOver(length: uint64, parts: seq<Part>): uint64
    decreases |parts|
  {
    if parts == [] then length
    else
      var v := SkipBlanks(parts[0].value);
      if v == [] || !SpacedDigits(v) then length else LengthOver((DecValue(v) % U64) as uint64, parts[1..])
  }

  // All those lines are numbers.
  predicate Numbers(parts: seq<Part>) {
    if parts == [] then true
    else
      var v := SkipBlanks(parts[0].value);
      v == [] || (SpacedDigits(v) && Numbers(parts[1..]))
  }

  predicate GivesLength(h: Header) { SameName(h.name, CONTENT_LENGTH) && SkipBlanks(FirstValue(h)) != [] }

  // The length the last Content-Length gives; length if there is none.
  function LengthGiven(length: uint64, hs: seq<Header>): uint64 {
    if hs == [] then length
    else
      var h, before := hs[|hs| - 1], LengthGiven(length, hs[..|hs| - 1]);
      if SameName(h.name, CONTENT_LENGTH) then LengthOver(before, h.parts) else before
  }

  // Where a line may start.
  predicate AtLineStart(s: State) { s.HeaderFieldStart? || s.HeaderValueLws? }

  function Fielded(p: Parser): Parser { p.(core := p.core.(state := HeaderFieldStart)) }

  // After a line, the next one starts as the first did, unless it continues the value.
  lemma NewLine(p: Parser, bytes: seq<byte>, skip: Answers)
    requires Ready(p) && AtLineStart(p.core.state) && bytes != [] && bytes[0] != ' ' && bytes[0] != '\t'
    requires Run(p, bytes, skip).verdict == Go
    ensures Ready(Fielded(p)) && Run(p, bytes, skip) == Run(Fielded(p), bytes, skip)
  {
    hide Run, RunMid, SwitchOn;
    WithinLimit(p, bytes, skip);
    if p.core.state.HeaderValueLws? {
      LwsTurns(p.core, bytes[0]);
      Counted(p, bytes, skip);
      Counted(Fielded(p), bytes, skip);
      var t := Turn(p.core.(state := HeaderFieldStart), Again);
      PassOn(Enter(p), bytes, skip, t);
      hide Ready, Mid, Inv;
      var s := RunMid(Enter(Fielded(p)), bytes, skip);
      assert After(Enter(p), t, skip) == Enter(Fielded(p));
      assert [] + s.events == s.events;
    }
  }

  lemma LwsTurns(c: Core, ch: byte)
    requires Inv(c) && c.state.HeaderValueLws? && ch != ' ' && ch != '\t'
    ensures SwitchOn(c, ch) == Turn(c.(state := HeaderFieldStart), Again)
  {
    hide Sound;
  }

  lemma HeaderStarts(h: Header)
    requires Proper(h)
    ensures var l := HeaderText(h); l != [] && l[0] == h.name[0] && l[0] != ' ' && l[0] != '\t'
  {
    assert Token(h.name[0]) != '\0';
  }

  /* ---- One header. ---- */

  // Nothing that follows can change the flags.
  predicate Settled(h: HeaderState) { !h.Connection? && !h.TransferEncoding? && !h.Upgrade? }

  lemma Settles(c: Core, part: Part, d: Core)
    requires AfterPart(c, part, d)
    ensures d.state.HeaderFieldStart? || (d.state.HeaderValueLws? && Settled(d.headerState))
    ensures d.headerState.ContentLength? ==> c.headerState.ContentLength?
    ensures Settled(c.headerState) ==> d.flags == c.flags
    ensures c.headerState.ContentLength? && SkipBlanks(part.value) != [] ==> d.headerState.ContentLength?
    ensures SkipBlanks(part.value) == [] ==> d.state.HeaderFieldStart? || !d.headerState.ContentLength?
  {
    hide FoldAll, SkipBlanks, DecValue, Spaced;
  }

  lemma NoBlankStart(p: Parser, ch: byte, skip: Answers)
    requires Ready(p) && p.core.state.HeaderFieldStart? && (ch == ' ' || ch == '\t')
    ensures Run(p, [ch], skip).verdict != Go
  {
    BlankFails(p.core, ch);
    hide Run, SwitchOn, Inv;
    if Run(p, [ch], skip).verdict == Go { GoByte(p, ch, skip); }
  }

  lemma BlankFails(c: Core, ch: byte)
    requires Inv(c) && c.state.HeaderFieldStart? && (ch == ' ' || ch == '\t')
    ensures SwitchOn(c, ch).act.Fail?
  {
    hide Sound;
  }

  // A folded line is not accepted at the start of a header.
  lemma OnlyAfterLws(p: Parser, part: Part, rest: seq<byte>, skip: Answers)
    requires Ready(p) && AtLineStart(p.core.state) && Folded(part) && Run(p, Text(part) + rest, skip).verdict == Go
    ensures p.core.state.HeaderValueLws?
  {
    hide Run, Inv;
    var blank := part.value[0];
    assert Text(part) + rest == [blank] + (part.value[1..] + Eol(part.crlf) + rest);
    GoParts(p, [blank], part.value[1..] + Eol(part.crlf) + rest, skip);
    if p.core.state.HeaderFieldStart? { NoBlankStart(p, blank, skip); }
  }

  // What a header, or the rest of one, may change of the fields c.
  ghost predicate Changes(c: Core, flags: Flags, length: uint64, d: Core) {
    && AtLineStart(d.state)
    && d == c.(index := d.index, state := d.state, headerState := d.headerState, flags := flags,
               contentLength := length)
  }

  // Lines that continue a value, after its first: they can only change the length.
  lemma {:induction false} MoreRun(p: Parser, parts: seq<Part>, skip: Answers)
    requires Ready(p) && Values(parts) && FoldedAll(parts) && Run(p, Texts(parts), skip).verdict == Go
    requires p.core.state.HeaderFieldStart? || (p.core.state.HeaderValueLws? && Settled(p.core.headerState))
    ensures var c, l := p.core, p.core.contentLength;
            var number := c.state.HeaderValueLws? && c.headerState.ContentLength?;
            && Changes(c, c.flags, if number then LengthOver(l, parts) else l, Run(p, Texts(parts), skip).parser.core)
            && (number ==> Numbers(parts)) && (c.state.HeaderFieldStart? ==> parts == [])
            && (number && l != ULLONG_MAX ==> LengthOver(l, parts) != ULLONG_MAX)
    ensures Quiet(p, Run(p, Texts(parts), skip))
    decreases |parts|
  {
    hide Run, SwitchOn, Inv, Quiet, SkipBlanks, AfterPart, NoLineEnd, Folded;
    if parts == [] {
      QuietEmpty(p, skip);
    } else {
      var part, rest := parts[0], parts[1..];
      OnlyAfterLws(p, part, Texts(rest), skip);
      GoParts(p, Text(part), Texts(rest), skip);
      MorePart(p, part, skip);
      var q := Run(p, Text(part), skip).parser;
      Settles(p.core, part, q.core);
      MoreRun(q, rest, skip);
      QuietParts(p, Text(part), Texts(rest), skip);
      PartLength(p.core, part, q.core);
    }
  }

  lemma PartLength(c: Core, part: Part, d: Core)
    requires AfterPart(c, part, d)
    ensures var v := SkipBlanks(part.value);
            && d.contentLength == (if c.headerState.ContentLength? && v != [] && SpacedDigits(v) then
                                     (DecValue(v) % U64) as uint64 else c.contentLength)
            && (c.headerState.ContentLength? && v != [] ==> SpacedDigits(v) && d.contentLength != ULLONG_MAX)
    ensures d == c.(index := d.index, state := d.state, headerState := d.headerState, flags := d.flags,
                    contentLength := d.contentLength)
  {
    hide SkipBlanks, DecValue, FoldAll, ValueState, GainedFlags;
  }

  // The flags after the first line of a value, by whole-string comparison.
  lemma FirstFlags(c: Core, name: seq<byte>, part: Part, d: Core)
    requires name != [] && c.headerState == NameState(FoldAll(name)) && AfterPart(c, part, d)
    ensures d.flags == Gained(c.flags, name, part.value)
  {
    hide NameState, ValueState, FoldAll, SkipBlanks, DecValue, Gained;
    LineGains(c, name, part.value);
  }

  // Up to the value: after the colon, or after a name that ends its line.
  lemma NameOrLine(p: Parser, h: Header, skip: Answers)
    requires Ready(p) && p.core.state.HeaderFieldStart? && h.name != [] && AllTokens(h.name)
    requires Run(p, h.name + (if h.colon then [':'] else Eol(h.crlf)), skip).verdict == Go
    ensures var c := Run(p, h.name + (if h.colon then [':'] else Eol(h.crlf)), skip).parser.core;
            c == p.core.(index := c.index, headerState := NameState(FoldAll(h.name)),
                         state := if h.colon then HeaderValueStart else if h.crlf then HeaderValueLws
                                  else HeaderFieldStart)
    ensures Quiet(p, Run(p, h.name + (if h.colon then [':'] else Eol(h.crlf)), skip))
  {
    hide Run, SwitchOn, Inv, Quiet, FoldAll, AllTokens;
    if h.colon {
      NamePart(p, h.name, skip);
    } else {
      GoParts(p, h.name, Eol(h.crlf), skip);
      NameRun(p, h.name, skip);
      NameStates(FoldAll(h.name));
      NameEnd(Run(p, h.name, skip).parser, h.crlf, skip);
      QuietParts(p, h.name, Eol(h.crlf), skip);
    }
  }

  lemma NameStates(low: seq<byte>)
    requires low != []
    ensures var s := NameState(low); !s.KeepAlive? && !s.Close? && !s.Chunked?
  {
  }

  // The lines of a value after the name.
  lemma ValueLines(p: Parser, h: Header, skip: Answers)
    requires Ready(p) && Proper(h) && p.core.headerState == NameState(FoldAll(h.name))
    requires if h.colon then p.core.state.HeaderValueStart? else AtLineStart(p.core.state)
    requires Run(p, Texts(h.parts), skip).verdict == Go
    ensures var number := SameName(h.name, CONTENT_LENGTH);
            && Changes(p.core, Gained(p.core.flags, h.name, FirstValue(h)),
                       if number then LengthOver(p.core.contentLength, h.parts) else p.core.contentLength,
                       Run(p, Texts(h.parts), skip).parser.core)
            && (number ==> Numbers(h.parts))
            && (GivesLength(h) ==> LengthOver(p.core.contentLength, h.parts) != ULLONG_MAX)
    ensures Quiet(p, Run(p, Texts(h.parts), skip))
  {
    hide Run, SwitchOn, Inv, Quiet, SkipBlanks, AfterPart, NoLineEnd, Folded, NameState, FoldAll, Gained;
    NameMeaning(h.name);
    if h.parts == [] {
      QuietEmpty(p, skip);
      NothingGained(p.core.flags, h.name);
    } else {
      var part, rest := h.parts[0], h.parts[1..];
      if !h.colon { OnlyAfterLws(p, part, Texts(rest), skip); }
      GoParts(p, Text(part), Texts(rest), skip);
      if h.colon { PartRun(p, part, skip); } else { MorePart(p, part, skip); }
      var q := Run(p, Text(part), skip).parser;
      Settles(p.core, part, q.core);
      FirstFlags(p.core, h.name, part, q.core);
      PartLength(p.core, part, q.core);
      MoreRun(q, rest, skip);
      QuietParts(p, Text(part), Texts(rest), skip);
    }
  }

  lemma NothingGained(f: Flags, name: seq<byte>)
    ensures Gained(f, name, []) == f && SkipBlanks([]) == []
  {
    hide FoldAll;
  }

  // Incremental matching is whole-string comparison: an accepted header adds to the flags exactly what comparing its
  // name and the first line of its value with the literals says, and leaves everything else alone but the length, which
  // only a Content-Length changes: to the number on its last line before a blank one, never 2^64 - 1.
  lemma HeaderRun(p: Parser, h: Header, skip: Answers)
    requires Ready(p) && p.core.state.HeaderFieldStart? && Proper(h) && Run(p, HeaderText(h), skip).verdict == Go
    ensures var number := SameName(h.name, CONTENT_LENGTH);
            && Changes(p.core, Gained(p.core.flags, h.name, FirstValue(h)),
                       if number then LengthOver(p.core.contentLength, h.parts) else p.core.contentLength,
                       Run(p, HeaderText(h), skip).parser.core)
            && (number ==> Numbers(h.parts))
            && (GivesLength(h) ==> LengthOver(p.core.contentLength, h.parts) != ULLONG_MAX)
    ensures Quiet(p, Run(p, HeaderText(h), skip))
  {
    hide Run, SwitchOn, Inv, Quiet, AllTokens, FoldAll, NameState, Gained, Values, FoldedAll;
    var start := h.name + (if h.colon then [':'] else Eol(h.crlf));
    GoParts(p, start, Texts(h.parts), skip);
    NameOrLine(p, h, skip);
    ValueLines(Run(p, start, skip).parser, h, skip);
    QuietParts(p, start, Texts(h.parts), skip);
  }

  /* ---- A block of headers. ---- */

  // An accepted block changes flags and length as its headers say, and nothing else that outlives a header.
  lemma {:induction false} BlockRun(p: Parser, hs: seq<Header>, skip: Answers)
    requires Ready(p) && p.core.state.HeaderFieldStart? && AllProper(hs) && Run(p, Block(hs), skip).verdict == Go
    ensures Changes(p.core, AllGained(p.core.flags, hs), LengthGiven(p.core.contentLength, hs),
                    Run(p, Block(hs), skip).parser.core)
    ensures Quiet(p, Run(p, Block(hs), skip))
    decreases |hs|
  {
    hide Run, SwitchOn, Inv, Gained, Quiet, Proper, SameName, LengthOver;
    if hs == [] {
      QuietEmpty(p, skip);
    } else {
      var n := |hs| - 1;
      var h, some := hs[n], hs[..n];
      GoParts(p, Block(some), HeaderText(h), skip);
      BlockRun(p, some, skip);
      var q := Run(p, Block(some), skip).parser;
      HeaderStarts(h);
      NewLine(q, HeaderText(h), skip);
      HeaderRun(Fielded(q), h, skip);
      QuietFrom(q, Run(q, HeaderText(h), skip));
      QuietParts(p, Block(some), HeaderText(h), skip);
    }
  }

  lemma QuietFrom(q: Parser, r: Result)
    requires Quiet(Fielded(q), r)
    ensures Quiet(q, r)
  {
  }

  /* ---- The end of the block. ---- */

  // A block and the empty line after it.
  function FullHead(hs: seq<Header>, crlf: bool): seq<byte> { Block(hs) + Eol(crlf) }

  lemma CrTurn(c: Core)
    requires Inv(c) && c.state.HeaderFieldStart?
    ensures SwitchOn(c, CR) == Turn(c.(state := HeadersAlmostDone), Break)
  {
    hide Sound, Token;
  }

  // All of it but the last line feed.
  function BeforeLf(hs: seq<Header>, crlf: bool): (s: seq<byte>)
    ensures FullHead(hs, crlf) == s + [LF]
  {
    if crlf then Block(hs) + [CR] else Block(hs)
  }

  // The parser p, its fields as the headers hs leave them, on the line feed of the empty line.
  lemma BeforeHead(p: Parser, hs: seq<Header>, crlf: bool, skip: Answers) returns (q: Parser)
    requires Ready(p) && p.core.state.HeaderFieldStart? && AllProper(hs)
    requires Run(p, FullHead(hs, crlf), skip).verdict == Go
    ensures Run(p, BeforeLf(hs, crlf), skip).verdict == Go && Quiet(p, Run(p, BeforeLf(hs, crlf), skip))
    ensures q == Run(p, BeforeLf(hs, crlf), skip).parser && Ready(q) && q.nread < MAX_HEADER_SIZE
    ensures q.core == p.core.(index := q.core.index, state := q.core.state, headerState := q.core.headerState,
                              flags := AllGained(p.core.flags, hs),
                              contentLength := LengthGiven(p.core.contentLength, hs))
    ensures OnEmptyLine(q.core.state)
    ensures Run(p, FullHead(hs, crlf), skip).parser == Run(q, [LF], skip).parser
    ensures Run(p, FullHead(hs, crlf), skip).events
            == Run(p, BeforeLf(hs, crlf), skip).events + Run(q, [LF], skip).events
  {
    hide Run, SwitchOn, Inv, Quiet, Block, AllGained, LengthGiven;
    GoParts(p, BeforeLf(hs, crlf), [LF], skip);
    if crlf {
      GoParts(p, Block(hs), [CR], skip);
      BlockRun(p, hs, skip);
      var b := Run(p, Block(hs), skip).parser;
      NewLine(b, [CR], skip);
      CrTurn(Fielded(b).core);
      GoByte(Fielded(b), CR, skip);
      QuietFrom(b, Run(b, [CR], skip));
      QuietParts(p, Block(hs), [CR], skip);
    } else {
      BlockRun(p, hs, skip);
    }
    q := Run(p, BeforeLf(hs, crlf), skip).parser;
    WithinLimit(q, [LF], skip);
  }

  // Accepted headers whose lines neither name another coding or protocol nor skip the body: after them, exactly the
  // length that the last Content-Length gives is what the body has.
  lemma HeadersGiveLength(p: Parser, hs: seq<Header>, crlf: bool, skip: Answers)
    requires Ready(p) && p.core.state.HeaderFieldStart? && AllProper(hs)
    requires Run(p, FullHead(hs, crlf), skip).verdict == Go
    requires var f := AllGained(p.core.flags, hs); !f.trailing && !f.chunked && !f.upgrade && !f.skipBody
    requires p.core.verb != CONNECT && !skip(p.heads) && 0 < LengthGiven(p.core.contentLength, hs) < ULLONG_MAX
    ensures var r := Run(p, FullHead(hs, crlf), skip);
            && r.parser.core.state.BodyIdentity? && r.parser.core.contentLength == LengthGiven(p.core.contentLength, hs)
            && r.parser.heads == p.heads + 1 && Delivered(Body, r.events) == []
  {
    hide Run, Inv, AllGained, LengthGiven, Block, Delivered;
    var q := BeforeHead(p, hs, crlf, skip);
    LengthBegins(q, skip);
    HeadDelivers(Run(p, BeforeLf(hs, crlf), skip).events);
  }

  lemma HeadDelivers(e: seq<Event>)
    requires Delivered(Body, e) == []
    ensures Delivered(Body, e + [Told(HeadersComplete)]) == []
  {
    assert (e + [Told(HeadersComplete)])[..|e|] == e;
  }

  // Accepted headers with the chunked coding lead to the first chunk, whatever length they give.
  lemma HeadersGiveChunks(p: Parser, hs: seq<Header>, crlf: bool, skip: Answers)
    requires Ready(p) && p.core.state.HeaderFieldStart? && AllProper(hs)
    requires Run(p, FullHead(hs, crlf), skip).verdict == Go
    requires var f := AllGained(p.core.flags, hs); !f.trailing && f.chunked && !f.upgrade && !f.skipBody
    requires p.core.verb != CONNECT && !skip(p.heads)
    ensures var r := Run(p, FullHead(hs, crlf), skip);
            r.parser.core.state.ChunkSizeStart? && r.parser.heads == p.heads + 1 && Delivered(Body, r.events) == []
  {
    hide Run, Inv, AllGained, LengthGiven, Block, Delivered;
    var q := BeforeHead(p, hs, crlf, skip);
    ChunkedBegins(q, skip);
    HeadDelivers(Run(p, BeforeLf(hs, crlf), skip).events);
  }

  // Accepted headers of a response that give neither: the body lasts until the end of the stream.
  lemma HeadersGiveStream(p: Parser, hs: seq<Header>, crlf: bool, skip: Answers)
    requires Ready(p) && p.core.state.HeaderFieldStart? && AllProper(hs)
    requires Run(p, FullHead(hs, crlf), skip).verdict == Go
    requires var f := AllGained(p.core.flags, hs); !f.trailing && !f.upgrade && NeedsEof(p.core.(flags := f))
    requires p.core.verb != CONNECT && !skip(p.heads) && LengthGiven(p.core.contentLength, hs) == p.core.contentLength
    ensures var r := Run(p, FullHead(hs, crlf), skip);
            r.parser.core.state.BodyIdentityEof? && r.parser.heads == p.heads + 1 && Delivered(Body, r.events) == []
  {
    hide Run, Inv, AllGained, LengthGiven, Block, Delivered;
    var q := BeforeHead(p, hs, crlf, skip);
    StreamBegins(q, skip);
    HeadDelivers(Run(p, BeforeLf(hs, crlf), skip).events);
  }
}
