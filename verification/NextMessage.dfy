/** What follows a message, from its bytes: the parser is ready for the next one exactly if the version and the
    connection headers say that the connection persists (src/http_parser.c:383-394, 1848-1888). */
module NextMessage {
  import opened Bytes
  import opened ParserState
  import opened Switch
  import opened Trace
  import opened Machine
  import opened Headers
  import opened HeadEnd
  import opened HeaderBlocks
  import opened StatusLine
  import opened StartLines
  import KeepAlive
  import UrlChars
  import Methods
  import UrlAgreement

  /* ---- What the headers say, word by word. ---- */

  predicate SaysConnection(h: Header, word: seq<byte>) {
    (SameName(h.name, "connection") || SameName(h.name, "proxy-connection")) && ValueIs(SkipBlanks(FirstValue(h)), word)
  }

  predicate Says(hs: seq<Header>, word: seq<byte>) { exists i | 0 <= i < |hs| :: SaysConnection(hs[i], word) }

  predicate SaysChunked(h: Header) {
    SameName(h.name, "transfer-encoding") && ValueIs(SkipBlanks(FirstValue(h)), "chunked")
  }

  predicate HasChunked(hs: seq<Header>) { exists i | 0 <= i < |hs| :: SaysChunked(hs[i]) }

  predicate SaysUpgrade(h: Header) { SameName(h.name, "upgrade") && SkipBlanks(FirstValue(h)) != [] }

  predicate HasUpgrade(hs: seq<Header>) { exists i | 0 <= i < |hs| :: SaysUpgrade(hs[i]) }

  lemma OneGains(f: Flags, h: Header)
    ensures var g := Gained(f, h.name, FirstValue(h));
            && g.close == (f.close || SaysConnection(h, "close"))
            && g.keepAlive == (f.keepAlive || SaysConnection(h, "keep-alive"))
            && g.chunked == (f.chunked || SaysChunked(h)) && g.upgrade == (f.upgrade || SaysUpgrade(h))
            && g.trailing == f.trailing && g.skipBody == f.skipBody
  {
    hide SkipBlanks, FoldAll;
    NotBoth(SkipBlanks(FirstValue(h)));
    Names(h.name);
    hide ValueIs, SameName;
  }

  lemma NotBoth(v: seq<byte>)
    ensures !(ValueIs(v, "keep-alive") && ValueIs(v, "close"))
  {
    assert ValueIs(v, "keep-alive") ==> Fold(v[0]) == FoldAll(v[..10])[0] == 'k';
    assert ValueIs(v, "close") ==> Fold(v[0]) == FoldAll(v[..5])[0] == 'c';
  }

  lemma Names(name: seq<byte>)
    ensures SameName(name, "transfer-encoding") ==> !SameName(name, "connection") && !SameName(name, "proxy-connection")
    ensures SameName(name, "upgrade") ==> !SameName(name, "connection") && !SameName(name, "proxy-connection")
                                          && !SameName(name, "transfer-encoding")
  {
    hide FoldAll;
    assert |"transfer-encoding"| == 17 && |"connection"| == 10 && |"proxy-connection"| == 16 && |"upgrade"| == 7;
  }

  // The flags after a block, header by header.
  lemma {:induction false} AllGains(f: Flags, hs: seq<Header>)
    ensures var g := AllGained(f, hs);
            && g.close == (f.close || Says(hs, "close")) && g.keepAlive == (f.keepAlive || Says(hs, "keep-alive"))
            && g.chunked == (f.chunked || HasChunked(hs)) && g.upgrade == (f.upgrade || HasUpgrade(hs))
            && g.trailing == f.trailing && g.skipBody == f.skipBody
  {
    hide Gained, SaysConnection, SaysChunked, SaysUpgrade;
    if hs != [] {
      var n := |hs| - 1;
      AllGains(f, hs[..n]);
      OneGains(AllGained(f, hs[..n]), hs[n]);
      SaidBefore(hs);
    }
  }

  lemma SaidBefore(hs: seq<Header>)
    requires hs != []
    ensures var n := |hs| - 1;
            && (Says(hs, "close") <==> Says(hs[..n], "close") || SaysConnection(hs[n], "close"))
            && (Says(hs, "keep-alive") <==> Says(hs[..n], "keep-alive") || SaysConnection(hs[n], "keep-alive"))
            && (HasChunked(hs) <==> HasChunked(hs[..n]) || SaysChunked(hs[n]))
            && (HasUpgrade(hs) <==> HasUpgrade(hs[..n]) || SaysUpgrade(hs[n]))
  {
    hide SaysConnection, SaysChunked, SaysUpgrade;
    var n := |hs| - 1;
    assert forall i | 0 <= i < n :: hs[..n][i] == hs[i];
    assert forall i | 0 <= i < |hs| :: i == n || hs[i] == hs[..n][i];
  }

  /* ---- After any message that is complete. ---- */

  // Whether the connection persists, by the numbers of the version and the connection headers.
  predicate Stays(major: int, minor: int, close: bool, keep: bool) { if major > 0 && minor > 0 then !close else keep }

  // The state that follows.
  function NextState(kind: MessageKind, stays: bool): State {
    if !stays then Dead else if kind == Request then StartReq else StartRes
  }

  // Everything from the headers on is accepted, and its last byte completes the message.
  ghost predicate CompletesAt(p: Parser, bytes: seq<byte>, skip: Answers)
    requires Ready(p)
  {
    && bytes != [] && Run(p, bytes, skip).verdict == Go && Told(MessageComplete) in Run(p, bytes, skip).events
    && Told(MessageComplete) !in Run(p, bytes[..|bytes| - 1], skip).events
  }

  lemma CompletesRest(p: Parser, a: seq<byte>, b: seq<byte>, skip: Answers)
    requires Ready(p) && CompletesAt(p, a + b, skip) && b != []
    ensures Run(p, a, skip).verdict == Go && CompletesAt(Run(p, a, skip).parser, b, skip)
    ensures Run(p, a + b, skip).parser == Run(Run(p, a, skip).parser, b, skip).parser
    ensures Told(MessageComplete) !in Run(p, a, skip).events
  {
    hide Run;
    var before := b[..|b| - 1];
    assert (a + b)[..|a + b| - 1] == a + before;
    assert a + b == a + before + [b[|b| - 1]];
    GoParts(p, a, b, skip);
    GoParts(p, a + before, [b[|b| - 1]], skip);
    GoParts(p, a, before, skip);
  }

  // A message whose end is that of the stream is not completed by bytes.
  lemma NeverByBytes(b: Parser, rest: seq<byte>, skip: Answers)
    requires Ready(b) && OnEmptyLine(b.core.state) && !b.core.flags.trailing && b.nread < MAX_HEADER_SIZE
    requires CompletesAt(b, [LF] + rest, skip)
    ensures !NeedsEof(PastHead(b, skip).core)
  {
    hide Run, Inv, NewMessage;
    HeadersEnd(b, skip);
    var e := PastHead(b, skip);
    GoParts(b, [LF], rest, skip);
    if NeedsEof(e.core) {
      EofFollows(e.core);
      var q := Run(b, [LF], skip).parser;
      BodyStretch(q, rest, |rest|, skip);
      EmptyRun(Fewer(q, |rest|), skip);
      assert rest[..|rest|] == rest && rest[|rest|..] == [];
      OnlyData(rest);
    }
  }

  lemma EofFollows(c: Core)
    requires NeedsEof(c)
    ensures BodyFollows(c).BodyIdentityEof? && !NewMessage(c).BodyIdentityEof?
    ensures !c.upgrade ==> Told(MessageComplete) !in HeadEvents(c)
  {
  }

  lemma {:induction false} OnlyData(bytes: seq<byte>)
    ensures Told(MessageComplete) !in Singles(Body, bytes) + []
  {
    if bytes != [] { OnlyData(bytes[..|bytes| - 1]); }
  }

  lemma HeadByteEnds(b: Parser, skip: Answers)
    requires Ready(b) && OnEmptyLine(b.core.state) && !b.core.flags.trailing && b.nread < MAX_HEADER_SIZE
    requires Run(b, [LF], skip).verdict == Go
    ensures KeepAlive.EndsHeaders(b, LF, skip)
  {
    hide Run, Inv, Byte;
    HeadersEnd(b, skip);
    KeepAlive.OneByte(b, LF, skip);
    assert Told(HeadersComplete) == HeadEvents(PastHead(b, skip).core)[0];
  }

  // After an accepted message whose headers are hs, and whose trailer, if it has one, has no connection header.
  lemma AfterHeaders(p: Parser, hs: seq<Header>, crlf: bool, rest: seq<byte>, skip: Answers)
    requires Ready(p) && p.core.state.HeaderFieldStart? && AllProper(hs) && !p.core.flags.trailing
    requires !p.core.flags.close && !p.core.flags.keepAlive && CompletesAt(p, FullHead(hs, crlf) + rest, skip)
    requires var f := Run(p, FullHead(hs, crlf) + rest, skip).parser.core.flags;
             f.close == Says(hs, "close") && f.keepAlive == Says(hs, "keep-alive")
    ensures Run(p, FullHead(hs, crlf) + rest, skip).parser.core.state
            == NextState(p.core.kind, Stays(p.core.major as int, p.core.minor as int, Says(hs, "close"),
                                            Says(hs, "keep-alive")))
  {
    hide Run, Inv, AllGained, LengthGiven, FullHead, CompletesAt, NeedsEof, Says, AllProper, Quiet;
    var before := BeforeLf(hs, crlf);
    assert FullHead(hs, crlf) + rest == before + ([LF] + rest);
    CompletesGo(p, FullHead(hs, crlf), rest, skip);
    var b := BeforeHead(p, hs, crlf, skip);
    AllGains(p.core.flags, hs);
    CompletesRest(p, before, [LF] + rest, skip);
    CompletesGo(b, [LF], rest, skip);
    HeadByteEnds(b, skip);
    Decided(b, rest, skip);
  }

  lemma CompletesGo(p: Parser, a: seq<byte>, b: seq<byte>, skip: Answers)
    requires Ready(p) && CompletesAt(p, a + b, skip)
    ensures Run(p, a, skip).verdict == Go
  {
    hide Run;
    GoParts(p, a, b, skip);
  }

  lemma Decided(b: Parser, rest: seq<byte>, skip: Answers)
    requires Ready(b) && OnEmptyLine(b.core.state) && !b.core.flags.trailing && b.nread < MAX_HEADER_SIZE
    requires CompletesAt(b, [LF] + rest, skip) && KeepAlive.EndsHeaders(b, LF, skip)
    requires var f := Run(b, [LF] + rest, skip).parser.core.flags;
             f.close == b.core.flags.close && f.keepAlive == b.core.flags.keepAlive
    ensures Run(b, [LF] + rest, skip).parser.core.state
            == NextState(b.core.kind, Stays(b.core.major as int, b.core.minor as int, b.core.flags.close,
                                            b.core.flags.keepAlive))
  {
    hide Run, Inv, KeepAlive.EndsHeaders;
    var bytes := [LF] + rest;
    NeverByBytes(b, rest, skip);
    assert bytes[0] == LF;
    KeepAlive.KeepAliveDecides(b, bytes, skip);
  }

  /* ---- Responses. ---- */

  // After an accepted response: the next state is the one for a response exactly if both numbers of its status line
  // are above 0 and no header says Connection: close, or one of them is 0 and a header says Connection: keep-alive.
  // Otherwise the connection is over.
  lemma AfterResponse(
    p: Parser, lead: seq<byte>, status: seq<byte>, hs: seq<Header>, crlf: bool, rest: seq<byte>, skip: Answers)
    requires Ready(p) && InStatusLine(p.core) && p.core.state.StartRes? && LineEnds(lead)
    requires NoLf(status) && ' ' in status && AllProper(hs)
    requires CompletesAt(p, lead + (status + [LF]) + (FullHead(hs, crlf) + rest), skip)
    requires var f := Run(p, lead + (status + [LF]) + (FullHead(hs, crlf) + rest), skip).parser.core.flags;
             f.close == Says(hs, "close") && f.keepAlive == Says(hs, "keep-alive")
    ensures Run(p, lead + (status + [LF]) + (FullHead(hs, crlf) + rest), skip).parser.core.state
            == NextState(Response, Stays(MajorOf(status), MinorOf(status), Says(hs, "close"), Says(hs, "keep-alive")))
  {
    hide Run, SwitchOn, Inv, FullHead, CompletesAt, Says, AllProper, MajorOf, MinorOf, StatusOf, InStatusLine;
    var line, tail := lead + (status + [LF]), FullHead(hs, crlf) + rest;
    SomeHead(hs, crlf, rest);
    CompletesRest(p, line, tail, skip);
    GoParts(p, lead, status + [LF], skip);
    EmptyLinesRun(p, lead, skip);
    var q := Run(p, lead, skip).parser;
    StatusExactly(q, status, skip);
    ResVersionExactly(q, status, skip);
    AfterHeaders(Run(p, line, skip).parser, hs, crlf, rest, skip);
  }

  lemma SomeHead(hs: seq<Header>, crlf: bool, rest: seq<byte>)
    ensures FullHead(hs, crlf) + rest != []
  {
    hide Block;
  }

  /* ---- Requests. ---- */

  // What stands between the URL and the end of the request line: nothing, or a space and the protocol.
  datatype Ending = Bare(cr: bool) | Versioned(text: seq<byte>)

  function EndingText(e: Ending): seq<byte> {
    match e
    case Bare(cr) => if cr then [CR] + [LF] else [LF]
    case Versioned(text) => [' '] + (text + [LF])
  }

  lemma EndOfUrl(c: Core, ch: byte)
    requires Inv(c) && InUrl(c.state) && (ch == ' ' || ch == CR || ch == LF) && !SwitchOn(c, ch).act.Fail?
    ensures SwitchOn(c, ch).act == Flush(Url)
    ensures SwitchOn(c, ch).core ==
            if ch == ' ' then c.(state := ReqHttpStart)
            else c.(major := 0, minor := 9, state := if ch == CR then ReqLineAlmostDone else HeaderFieldStart)
  {
    hide UrlChars.ParseUrlChar, Sound, Inv;
  }

  lemma EndOfUrlTurns(c: Core, ch: byte)
    requires Inv(c) && InUrl(c.state) && (ch == ' ' || ch == CR || ch == LF)
    ensures !Repeats(SwitchOn(c, ch).act) && !SwitchOn(c, ch).act.Leave?
  {
    hide UrlChars.ParseUrlChar, Sound, Inv, UrlMayEnd;
  }

  lemma UrlEndGo(p: Parser, ch: byte, skip: Answers)
    requires Ready(p) && InUrl(p.core.state) && (ch == ' ' || ch == CR || ch == LF) && Run(p, [ch], skip).verdict == Go
    ensures Run(p, [ch], skip).parser.core ==
            if ch == ' ' then p.core.(state := ReqHttpStart)
            else p.core.(major := 0, minor := 9, state := if ch == CR then ReqLineAlmostDone else HeaderFieldStart)
  {
    hide Run, SwitchOn, Inv, InUrl;
    EndOfUrlTurns(p.core, ch);
    GoByte(p, ch, skip);
    EndOfUrl(p.core, ch);
  }

  // The version an accepted request line leaves; without a protocol it is 0.9.
  lemma EndingRun(p: Parser, e: Ending, skip: Answers)
    requires Ready(p) && InUrl(p.core.state) && Run(p, EndingText(e), skip).verdict == Go
    requires e.Versioned? ==> NoLf(e.text)
    ensures var c := Run(p, EndingText(e), skip).parser.core;
            && c == p.core.(state := HeaderFieldStart, major := c.major, minor := c.minor)
            && (e.Versioned? ==> c.major as int == MajorOf(e.text) && c.minor as int == MinorOf(e.text))
            && (e.Bare? ==> c.major == 0 && c.minor == 9)
  {
    hide Run, SwitchOn, Inv, InUrl, MajorOf, MinorOf;
    if e.Versioned? {
      GoParts(p, [' '], e.text + [LF], skip);
      UrlEndGo(p, ' ', skip);
      ReqVersionExactly(Run(p, [' '], skip).parser, e.text, skip);
    } else if e.cr {
      GoParts(p, [CR], [LF], skip);
      UrlEndGo(p, CR, skip);
      var q := Run(p, [CR], skip).parser;
      NoRepeats(q.core, LF);
      GoByte(q, LF, skip);
      ReqLf(q.core);
    } else {
      UrlEndGo(p, LF, skip);
    }
  }

  // The request line up to the end of the URL.
  lemma RequestUrl(p: Parser, m: Method, name: seq<byte>, spaces: seq<byte>, url: seq<byte>, skip: Answers)
    requires Ready(p) && p.core.state.StartReq? && Methods.Spelt(m, name) && p.nread + |name| < MAX_HEADER_SIZE
    requires AllSpaces(spaces) && url != [] && UrlAgreement.NoBreak(url)
    requires Run(p, name + [' '] + (spaces + url), skip).verdict == Go
    ensures var c := Run(p, name + [' '] + (spaces + url), skip).parser.core;
            InUrl(c.state) && c == Fresh(p.core).(verb := m, index := c.index, state := c.state)
  {
    hide Run, SwitchOn, Inv, InUrl, Methods.Spelt, UrlAgreement.NoBreak;
    GoParts(p, name + [' '], spaces + url, skip);
    MethodRuns(p, m, name, skip);
    var q := Run(p, name + [' '], skip).parser;
    GoParts(q, spaces, url, skip);
    UrlAgreement.SpacesRun(q, spaces, skip);
    UrlAgreement.UrlRun(Run(q, spaces, skip).parser, url, skip);
  }

  // After an accepted request, the same for the state of the next request: the version is the one after the URL, or
  // 0.9.
  lemma AfterRequest(
    p: Parser, m: Method, name: seq<byte>, spaces: seq<byte>, url: seq<byte>, e: Ending, hs: seq<Header>, crlf: bool,
    rest: seq<byte>, skip: Answers)
    requires Ready(p) && p.core.state.StartReq? && p.core.kind == Request && Methods.Spelt(m, name)
    requires p.nread + |name| < MAX_HEADER_SIZE && AllSpaces(spaces) && url != [] && UrlAgreement.NoBreak(url)
    requires (e.Versioned? ==> NoLf(e.text)) && AllProper(hs)
    requires CompletesAt(p, name + [' '] + (spaces + url) + EndingText(e) + (FullHead(hs, crlf) + rest), skip)
    requires var f := Run(p, name + [' '] + (spaces + url) + EndingText(e) + (FullHead(hs, crlf) + rest),
                          skip).parser.core.flags;
             f.close == Says(hs, "close") && f.keepAlive == Says(hs, "keep-alive")
    ensures Run(p, name + [' '] + (spaces + url) + EndingText(e) + (FullHead(hs, crlf) + rest), skip).parser.core.state
            == NextState(Request, Stays(if e.Bare? then 0 else MajorOf(e.text), if e.Bare? then 9 else MinorOf(e.text),
                                        Says(hs, "close"), Says(hs, "keep-alive")))
  {
    hide Run, SwitchOn, Inv, FullHead, CompletesAt, Says, AllProper, MajorOf, MinorOf, EndingText, InUrl;
    hide Methods.Spelt, UrlAgreement.NoBreak, AllSpaces;
    var start, tail := name + [' '] + (spaces + url), FullHead(hs, crlf) + rest;
    SomeHead(hs, crlf, rest);
    CompletesRest(p, start + EndingText(e), tail, skip);
    GoParts(p, start, EndingText(e), skip);
    RequestUrl(p, m, name, spaces, url, skip);
    var q := Run(p, start, skip).parser;
    EndingRun(q, e, skip);
    AfterHeaders(Run(p, start + EndingText(e), skip).parser, hs, crlf, rest, skip);
  }
}
