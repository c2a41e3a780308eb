/** One pass through the switch of `http_parser_execute` (src/http_parser.c:644-1815), as a function of the persistent
    fields and the byte under the pointer. The three body states are given here one byte at a time; the pointer jumps
    of the source are in module Execution, proved equivalent. The source's assertions appear as `assert`s. */
module Switch {
  import opened Options
  import opened Bytes
  import opened ParserState
  import opened UrlChars

  // What a pass does besides updating the fields.
  datatype Action =
    | Break                  // break: the byte is consumed
    | Again                  // goto reexecute_byte
    | Fail(error: Errno)     // SET_ERRNO; goto error (Unknown for a bare goto error)
    | Notify(note: Note)     // CALLBACK_NOTIFY; break
    | Leave                  // CALLBACK_NOTIFY(message_complete); return, another protocol follows
    | Mark(kind: Kind)       // MARK; break
    | Keep(kind: Kind)       // break, the byte extends a marked run
    | Flush(kind: Kind)      // CALLBACK_DATA; break
    | MarkFlush(kind: Kind)  // MARK; CALLBACK_DATA; break
    | FlushAgain(kind: Kind) // CALLBACK_DATA_NOADVANCE; goto reexecute_byte
    | Head                   // on_headers_complete; goto reexecute_byte
    | LastBody               // the last byte of an identity body: deliver, goto reexecute_byte

  // `resets` says that the pass stores 0 in `nread`.
  datatype Turn = Turn(core: Core, act: Action, resets: bool := false)

  predicate Repeats(a: Action) { a.Again? || a.FlushAgain? || a.Head? || a.LastBody? }

  // The kind of data the byte under the pointer would extend.
  function KindAt(s: State): Option<Kind> {
    if s.HeaderField? then Some(Field)
    else if s.HeaderValue? then Some(Value)
    else if InUrl(s) then Some(Url)
    else if InBodyRun(s) then Some(Body)
    else None
  }

  predicate InBodyRun(s: State) { s.BodyIdentity? || s.BodyIdentityEof? || s.ChunkData? || s.ChunkDataAlmostDone? }

  // The states whose bytes the source takes in bulk.
  predicate TakesBody(s: State) { s.BodyIdentity? || s.BodyIdentityEof? || s.ChunkData? }

  // What a pass does to the kinds of mark.
  ghost predicate MovesMarks(s: State, a: Action, r: State) {
    var k, l := KindAt(s), KindAt(r);
    if a.Fail? then true
    else if a.Keep? then k == l == Some(a.kind) && a.kind != Body
    else if a.Mark? then if a.kind == Body then TakesBody(s) && l == Some(Body) else k == None && l == Some(a.kind)
    else if a.Flush? then k == Some(a.kind) && l == None
    else if a.FlushAgain? then k == Some(a.kind) && a.kind != Body && l == None
    else if a.MarkFlush? then k == None && a.kind != Body && l == None
    else if a.LastBody? then k == Some(Body) && l == None
    else k == None && (l == None || (l == Some(Body) && a.Break?))
  }

  // The errors the switch itself raises.
  predicate IsSyntax(e: Errno) {
    !e.OK? && !e.Paused? && !e.HeaderOverflow? && !e.InvalidEofState? && !e.CbNotify? && !e.CbData?
  }

  ghost predicate Sound(c: Core, t: Turn) {
    && (if t.act.Fail? then IsSyntax(t.act.error) else Inv(t.core))
    && (t.act.Head? ==> t.core.state.HeadersDone? && !t.resets)
    && (t.act.Notify? ==> !t.act.note.HeadersComplete?)
    && MovesMarks(c.state, t.act, t.core.state)
    && (Repeats(t.act) ==> Rank(t.core.state) < Rank(c.state) && !t.core.state.ChunkSizeStart?)
    && (t.core.state.ChunkSizeStart? && !t.act.Fail? ==> t.resets)
  }

  // States about which Inv says nothing.
  predicate Plain(s: State) {
    !s.ReqMethod? && !s.HeaderField? && !s.HeaderValue? && !s.BodyIdentity? && !s.MessageDone? && !s.BodyIdentityEof?
    && !InChunk(s)
  }

  // A pass over the fields c that leaves the fields d in such a state and consumes the byte.
  function Pass(c: Core, d: Core, a: Action): (t: Turn)
    requires Plain(d.state) && !Repeats(a) && !a.Fail? && (a.Notify? ==> !a.note.HeadersComplete?)
    requires MovesMarks(c.state, a, d.state)
    ensures Sound(c, t) && t == Turn(d, a)
  {
    Turn(d, a)
  }

  // The same into any state, given what Inv asks of it.
  function Into(c: Core, d: Core, a: Action, resets: bool := false): (t: Turn)
    requires Inv(d) && !Repeats(a) && !a.Fail? && (d.state.ChunkSizeStart? ==> resets)
    requires MovesMarks(c.state, a, d.state)
    requires a.Notify? ==> !a.note.HeadersComplete?
    ensures Sound(c, t) && t == Turn(d, a, resets)
  {
    Turn(d, a, resets)
  }

  function Stay(c: Core): (t: Turn)
    requires Plain(c.state) && KindAt(c.state) == None
    ensures Sound(c, t) && t == Turn(c, Break)
  {
    Turn(c, Break)
  }

  function Goto(c: Core, s: State): (t: Turn)
    requires Plain(s) && KindAt(c.state) == KindAt(s) == None
    ensures Sound(c, t) && t == Turn(c.(state := s), Break)
  {
    Turn(c.(state := s), Break)
  }

  function Bad(c: Core, d: Core, e: Errno): (t: Turn)
    requires IsSyntax(e)
    ensures Sound(c, t) && t == Turn(d, Fail(e))
  {
    Turn(d, Fail(e))
  }

  function Expect(c: Core, ch: byte, want: byte, s: State): (t: Turn)
    requires Plain(s) && KindAt(c.state) == KindAt(s) == None
    ensures Sound(c, t)
  {
    if ch != want then Bad(c, c, Strict) else Goto(c, s)
  }

  /* ---- Message start and status line (src/http_parser.c:647-871). ---- */

  // A new message forgets the flags and the length of the one before.
  function Fresh(c: Core): Core { c.(flags := NO_FLAGS, contentLength := ULLONG_MAX) }

  function StartTurn(c: Core, ch: byte): (t: Turn)
    requires Inv(c) && (c.state.Dead? || c.state.StartReqOrRes? || c.state.ResOrRespH?)
    ensures Sound(c, t)
  {
    if c.state.Dead? then (if ch == CR || ch == LF then Stay(c) else Bad(c, c, ClosedConnection))
    else if c.state.StartReqOrRes? then
      if ch == CR || ch == LF then Stay(c)
      else if ch == 'H' then Pass(c, Fresh(c).(state := ResOrRespH), Notify(MessageBegin))
      else Turn(Fresh(c).(kind := Request, state := StartReq), Again)
    else if ch == 'T' then Pass(c, c.(kind := Response, state := ResHT), Break)
    else if ch != 'E' then Bad(c, c, InvalidConstant)
    else Turn(c.(kind := Request, verb := HEAD, index := 2, state := ReqMethod), Break)
  }

  function StartResTurn(c: Core, ch: byte): (t: Turn)
    requires Inv(c) && c.state.StartRes?
    ensures Sound(c, t)
  {
    hide Inv, Sound;
    if ch == 'H' then Pass(c, Fresh(c).(state := ResH), Notify(MessageBegin))
    else if ch == CR || ch == LF then Pass(c, Fresh(c), Notify(MessageBegin))
    else Bad(c, Fresh(c), InvalidConstant)
  }

  function StartReqTurn(c: Core, ch: byte): (t: Turn)
    requires Inv(c) && c.state.StartReq?
    ensures Sound(c, t)
  {
    hide Sound;
    if ch == CR || ch == LF then Stay(c)
    else if !IsAlpha(ch) then Bad(c, Fresh(c), InvalidMethod)
    else
      match FirstLetter(ch)
      case None => Bad(c, Fresh(c).(verb := DELETE, index := 1), InvalidMethod)
      case Some(m) => Into(c, Fresh(c).(verb := m, index := 1, state := ReqMethod), Notify(MessageBegin))
  }

  function FirstLetter(ch: byte): Option<Method> {
    match ch
    case 'C' => Some(CONNECT) case 'D' => Some(DELETE) case 'G' => Some(GET) case 'H' => Some(HEAD)
    case 'L' => Some(LOCK) case 'M' => Some(MKCOL) case 'N' => Some(NOTIFY) case 'O' => Some(OPTIONS)
    case 'P' => Some(POST) case 'R' => Some(REPORT) case 'S' => Some(SUBSCRIBE) case 'T' => Some(TRACE)
    case 'U' => Some(UNLOCK) case _ => None
  }

  predicate InResVersion(s: State) {
    s.ResH? || s.ResHT? || s.ResHTT? || s.ResHTTP? || s.ResFirstHttpMajor? || s.ResHttpMajor? || s.ResFirstHttpMinor?
    || s.ResHttpMinor?
  }

  function ResVersionTurn(c: Core, ch: byte): (t: Turn)
    requires Inv(c) && InResVersion(c.state)
    ensures Sound(c, t)
  {
    hide Inv, Sound;
    if c.state.ResH? then Expect(c, ch, 'T', ResHT)
    else if c.state.ResHT? then Expect(c, ch, 'T', ResHTT)
    else if c.state.ResHTT? then Expect(c, ch, 'P', ResHTTP)
    else if c.state.ResHTTP? then Expect(c, ch, '/', ResFirstHttpMajor)
    else if c.state.ResFirstHttpMajor? then
      if !IsNum(ch) then Bad(c, c, InvalidVersion)
        else Pass(c, c.(major := DigitOf(ch) as uint16, state := ResHttpMajor), Break)
    else if c.state.ResHttpMajor? then if ch == '.' then Goto(c, ResFirstHttpMinor) else MajorDigit(c, ch)
    else if c.state.ResFirstHttpMinor? then
      if !IsNum(ch) then Bad(c, c, InvalidVersion)
        else Pass(c, c.(minor := DigitOf(ch) as uint16, state := ResHttpMinor), Break)
    else if ch == ' ' then Goto(c, ResFirstStatusCode)
    else MinorDigit(c, ch)
  }

  predicate InStatus(s: State) { s.ResFirstStatusCode? || s.ResStatusCode? || s.ResStatus? || s.ResLineAlmostDone? }

  function StatusTurn(c: Core, ch: byte): (t: Turn)
    requires Inv(c) && InStatus(c.state)
    ensures Sound(c, t)
  {
    hide Inv, Sound;
    if c.state.ResFirstStatusCode? then
      if !IsNum(ch) then (if ch == ' ' then Stay(c) else Bad(c, c, InvalidStatus))
      else Pass(c, c.(statusCode := DigitOf(ch) as uint16, state := ResStatusCode), Break)
    else if c.state.ResStatusCode? then
      if !IsNum(ch) then
        if ch == ' ' then Goto(c, ResStatus)
        else if ch == CR then Goto(c, ResLineAlmostDone)
        else if ch == LF then Goto(c, HeaderFieldStart)
        else Bad(c, c, InvalidStatus)
      else
        var d := c.(statusCode := TimesTen(c.statusCode, ch));
        if d.statusCode > 999 then Bad(c, d, InvalidStatus) else Pass(c, d, Break)
    else if c.state.ResStatus? then
      if ch == CR then Goto(c, ResLineAlmostDone) else if ch == LF then Goto(c, HeaderFieldStart) else Stay(c)
    else
      if ch != LF then Bad(c, c, Strict) else Pass(c, c.(state := HeaderFieldStart), Notify(StatusComplete))
  }

  // unsigned short arithmetic: n *= 10; n += ch - '0'
  function TimesTen(n: uint16, ch: byte): uint16
    requires IsNum(ch)
  {
    ((n as int * 10 % 0x1_0000 + DigitOf(ch)) % 0x1_0000) as uint16
  }

  function MajorDigit(c: Core, ch: byte): (t: Turn)
    requires Plain(c.state) && KindAt(c.state) == None
    ensures Sound(c, t)
  {
    hide Inv;
    if !IsNum(ch) then Bad(c, c, InvalidVersion)
    else
      var d := c.(major := TimesTen(c.major, ch));
      if d.major > 999 then Bad(c, d, InvalidVersion) else Pass(c, d, Break)
  }

  function MinorDigit(c: Core, ch: byte): (t: Turn)
    requires Plain(c.state) && KindAt(c.state) == None
    ensures Sound(c, t)
  {
    hide Inv;
    if !IsNum(ch) then Bad(c, c, InvalidVersion)
    else
      var d := c.(minor := TimesTen(c.minor, ch));
      if d.minor > 999 then Bad(c, d, InvalidVersion) else Pass(c, d, Break)
  }

  /* ---- Request line (src/http_parser.c:873-1172). ---- */

  function MethodTurn(c: Core, ch: byte): (t: Turn)
    requires Inv(c) && c.state.ReqMethod?
    ensures Sound(c, t)
  {
    if ch == '\0' then Bad(c, c, InvalidMethod)
    else
      MethodStringLength(c.verb);
      var want := At(MethodString(c.verb), c.index);
      var next := c.(index := c.index + 1);
      if ch == ' ' && want == '\0' then Goto(next, ReqSpacesBeforeUrl)
      else if ch == want then Turn(next, Break)
      else
        var a := Alternative(c.verb, c.index, ch);
        match a
        case Other(m) => Turn(next.(verb := m), Break)
        case Wrong(e) => Bad(c, c, e)
  }

  datatype Alternate = Other(verb: Method) | Wrong(error: Errno)

  function Alternative(m: Method, i: int, ch: byte): (a: Alternate)
    ensures a.Other? ==> i + 1 <= MethodLength(a.verb)
  {
    if m == CONNECT then
      if i == 1 && ch == 'H' then Other(CHECKOUT) else if i == 2 && ch == 'P' then Other(COPY) else Wrong(Unknown)
    else if m == MKCOL then
      if i == 1 && ch == 'O' then Other(MOVE) else if i == 1 && ch == 'E' then Other(MERGE)
      else if i == 1 && ch == '-' then Other(MSEARCH) else if i == 2 && ch == 'A' then Other(MKACTIVITY)
        else Wrong(Unknown)
    else if m == SUBSCRIBE then
      if i == 1 && ch == 'E' then Other(SEARCH) else Wrong(Unknown)
    else if i == 1 && m == POST then
      if ch == 'R' then Other(PROPFIND) else if ch == 'U' then Other(PUT) else if ch == 'A' then Other(PATCH)
        else Wrong(Unknown)
    else if i == 2 then
      if m == PUT && ch == 'R' then Other(PURGE) else if m == UNLOCK && ch == 'S' then Other(UNSUBSCRIBE) else Other(m)
    else if i == 4 && m == PROPFIND && ch == 'P' then Other(PROPPATCH)
    else Wrong(InvalidMethod)
  }

  function UrlStartTurn(c: Core, ch: byte): (t: Turn)
    requires Inv(c) && c.state.ReqSpacesBeforeUrl?
    ensures Sound(c, t)
  {
    hide Inv, Sound;
    if ch == ' ' then Stay(c)
    else
      var s := ParseUrlChar(if c.verb == CONNECT then ReqServerStart else c.state, ch);
      if s.Dead? then Bad(c, c.(state := Dead), InvalidUrl) else Pass(c, c.(state := s), Mark(Url))
  }

  // Whitespace may not follow the scheme, its slashes or the start of the server part.
  predicate UrlMayEnd(s: State) { !s.ReqSchema? && !s.ReqSchemaSlash? && !s.ReqSchemaSlashSlash? && !s.ReqServerStart? }

  function UrlTurn(c: Core, ch: byte): (t: Turn)
    requires Inv(c) && InUrl(c.state)
    ensures Sound(c, t)
  {
    hide Inv, Sound;
    if ch == ' ' || ch == CR || ch == LF then
      if !UrlMayEnd(c.state) then Bad(c, c, InvalidUrl)
      else if ch == ' ' then Pass(c, c.(state := ReqHttpStart), Flush(Url))
      else Pass(c, c.(major := 0, minor := 9, state := if ch == CR then ReqLineAlmostDone else HeaderFieldStart),
                Flush(Url))
    else
      var s := ParseUrlChar(c.state, ch);
      if s.Dead? then Bad(c, c.(state := Dead), InvalidUrl) else Pass(c, c.(state := s), Keep(Url))
  }

  predicate InReqHttp(s: State) { s.ReqHttpStart? || s.ReqHttpH? || s.ReqHttpHT? || s.ReqHttpHTT? || s.ReqHttpHTTP? }

  function ReqHttpTurn(c: Core, ch: byte): (t: Turn)
    requires Inv(c) && InReqHttp(c.state)
    ensures Sound(c, t)
  {
    hide Inv, Sound;
    if c.state.ReqHttpStart? then
      if ch == 'H' then Goto(c, ReqHttpH) else if ch == ' ' then Stay(c) else Bad(c, c, InvalidConstant)
    else if c.state.ReqHttpH? then Expect(c, ch, 'T', ReqHttpHT)
    else if c.state.ReqHttpHT? then Expect(c, ch, 'T', ReqHttpHTT)
    else if c.state.ReqHttpHTT? then Expect(c, ch, 'P', ReqHttpHTTP)
    else Expect(c, ch, '/', ReqFirstHttpMajor)
  }

  predicate InReqVersion(s: State) {
    s.ReqFirstHttpMajor? || s.ReqHttpMajor? || s.ReqFirstHttpMinor? || s.ReqHttpMinor? || s.ReqLineAlmostDone?
  }

  function ReqVersionTurn(c: Core, ch: byte): (t: Turn)
    requires Inv(c) && InReqVersion(c.state)
    ensures Sound(c, t)
  {
    hide Inv, Sound;
    if c.state.ReqFirstHttpMajor? then
      if ch < '1' || ch > '9' then Bad(c, c, InvalidVersion)
      else Pass(c, c.(major := DigitOf(ch) as uint16, state := ReqHttpMajor), Break)
    else if c.state.ReqHttpMajor? then if ch == '.' then Goto(c, ReqFirstHttpMinor) else MajorDigit(c, ch)
    else if c.state.ReqFirstHttpMinor? then
      if !IsNum(ch) then Bad(c, c, InvalidVersion)
        else Pass(c, c.(minor := DigitOf(ch) as uint16, state := ReqHttpMinor), Break)
    else if c.state.ReqHttpMinor? then
      if ch == CR then Goto(c, ReqLineAlmostDone) else if ch == LF then Goto(c, HeaderFieldStart) else MinorDigit(c, ch)
    else if ch != LF then Bad(c, c, LfExpected)
    else Goto(c, HeaderFieldStart)
  }

  /* ---- Header lines (src/http_parser.c:1174-1551). ---- */

  // One more character of a literal that is being matched.
  function Advance(c: Core, lit: seq<byte>, b: byte, done: HeaderState): (d: Core)
    requires 0 <= c.index < |lit|
    ensures d == c.(index := c.index + 1, headerState := d.headerState)
    ensures d.headerState == General || d.headerState == done
            || (d.headerState == c.headerState && d.index != |lit| - 1)
  {
    var i := c.index + 1;
    if i > |lit| || b != At(lit, i) then c.(index := i, headerState := General)
    else if i == |lit| - 1 then c.(index := i, headerState := done)
    else c.(index := i)
  }

  function FirstOfField(b: byte): HeaderState {
    if b == 'c' then HC
    else if b == 'p' then MatchingProxyConnection
    else if b == 't' then MatchingTransferEncoding
    else if b == 'u' then MatchingUpgrade
    else General
  }

  function FieldStartTurn(c: Core, ch: byte): (t: Turn)
    requires Inv(c) && c.state.HeaderFieldStart?
    ensures Sound(c, t)
  {
    if ch == CR then Goto(c, HeadersAlmostDone)
    else if ch == LF then Turn(c.(state := HeadersAlmostDone), Again)
    else if Token(ch) == '\0' then Bad(c, c, InvalidHeaderToken)
    else Turn(c.(index := 0, state := HeaderField, headerState := FirstOfField(Token(ch))), Mark(Field))
  }

  function FieldTurn(c: Core, ch: byte): (t: Turn)
    requires Inv(c) && c.state.HeaderField?
    ensures Sound(c, t)
  {
    hide Inv, Sound;
    if Token(ch) != '\0' then FieldCharTurn(c, ch)
    else if ch == ':' then Pass(c, c.(state := HeaderValueStart), Flush(Field))
    else if ch == CR then Pass(c, c.(state := HeaderAlmostDone), Flush(Field))
    else if ch == LF then Pass(c, c.(state := HeaderFieldStart), Flush(Field))
    else Bad(c, c, InvalidHeaderToken)
  }

  function FieldCharTurn(c: Core, ch: byte): (t: Turn)
    requires Inv(c) && c.state.HeaderField? && Token(ch) != '\0'
    ensures Sound(c, t)
  {
    Turn(MatchField(c, ch), Keep(Field))
  }

  function MatchField(c: Core, ch: byte): (d: Core)
    requires Inv(c) && c.state.HeaderField? && Token(ch) != '\0'
    ensures FieldMatch(d.headerState, d.index)
    ensures d == c.(headerState := d.headerState, index := d.index)
  {
    var b := Token(ch);
    if c.headerState.General? then c
    else if c.headerState.HC? then c.(index := c.index + 1, headerState := if b == 'o' then HCO else General)
    else if c.headerState.HCO? then c.(index := c.index + 1, headerState := if b == 'n' then HCON else General)
    else if c.headerState.HCON? then
      c.(index := c.index + 1,
         headerState := if b == 'n' then MatchingConnection else if b == 't' then MatchingContentLength else General)
    else if c.headerState.MatchingConnection? then Advance(c, CONNECTION, b, Connection)
    else if c.headerState.MatchingProxyConnection? then Advance(c, PROXY_CONNECTION, b, Connection)
    else if c.headerState.MatchingContentLength? then Advance(c, CONTENT_LENGTH, b, ContentLength)
    else if c.headerState.MatchingTransferEncoding? then Advance(c, TRANSFER_ENCODING, b, TransferEncoding)
    else if c.headerState.MatchingUpgrade? then Advance(c, UPGRADE, b, Upgrade)
    else if c.headerState.Connection? then if ch != ' ' then c.(headerState := General) else c
    else if c.headerState.ContentLength? then if ch != ' ' then c.(headerState := General) else c
    else if c.headerState.TransferEncoding? then if ch != ' ' then c.(headerState := General) else c
    else if c.headerState.Upgrade? then if ch != ' ' then c.(headerState := General) else c
    else assert false; c // "Unknown header_state"
  }

  function ValueStartTurn(c: Core, ch: byte): (t: Turn)
    requires Inv(c) && c.state.HeaderValueStart?
    ensures Sound(c, t)
  {
    if ch == ' ' || ch == '\t' then Turn(c, Break)
    else
      var d := c.(index := 0, state := HeaderValue);
      if ch == CR then Turn(d.(headerState := General, state := HeaderAlmostDone), MarkFlush(Value))
      else if ch == LF then Turn(d.(state := HeaderFieldStart), MarkFlush(Value))
      else
        if c.headerState.Upgrade? then Turn(d.(flags := c.flags.(upgrade := true), headerState := General), Mark(Value))
        else if c.headerState.TransferEncoding? then
          Turn(d.(headerState := if Lower(ch) == 'c' then MatchingChunked else General), Mark(Value))
        else if c.headerState.ContentLength? then
          if !IsNum(ch) then Bad(c, d, InvalidContentLength)
            else Turn(d.(contentLength := DigitOf(ch) as uint64), Mark(Value))
        else if c.headerState.Connection? then
          Turn(d.(headerState := if Lower(ch) == 'k' then MatchingKeepAlive
                                 else if Lower(ch) == 'c' then MatchingClose else General), Mark(Value))
        else Turn(d.(headerState := General), Mark(Value))
  }

  // uint64_t t = length; t *= base; t += digit: the wrapped sum.
  function Accumulate(length: uint64, base: nat, digit: nat): uint64 {
    ((length as int * base % U64 + digit) % U64) as uint64
  }

  predicate LengthRefused(length: uint64, t: uint64) { t < length || t == ULLONG_MAX }

  function ValueTurn(c: Core, ch: byte): (t: Turn)
    requires Inv(c) && c.state.HeaderValue?
    ensures Sound(c, t)
  {
    if ch == CR then Turn(c.(state := HeaderAlmostDone), Flush(Value))
    else if ch == LF then Turn(c.(state := HeaderAlmostDone), FlushAgain(Value))
    else
      if c.headerState.General? then Turn(c, Keep(Value))
      else if c.headerState.Connection? then assert false; Turn(c, Keep(Value))       // "Shouldn't get here."
      else if c.headerState.TransferEncoding? then assert false; Turn(c, Keep(Value)) // "Shouldn't get here."
      else if c.headerState.ContentLength? then
        if ch == ' ' then Turn(c, Keep(Value))
        else if !IsNum(ch) then Bad(c, c, InvalidContentLength)
        else
          var t := Accumulate(c.contentLength, 10, DigitOf(ch));
          if LengthRefused(c.contentLength, t) then Bad(c, c, InvalidContentLength)
          else Turn(c.(contentLength := t), Keep(Value))
      else if c.headerState.MatchingChunked? then Turn(Advance(c, CHUNKED, Lower(ch), Chunked), Keep(Value))
      else if c.headerState.MatchingKeepAlive? then Turn(Advance(c, KEEP_ALIVE, Lower(ch), KeepAlive), Keep(Value))
      else if c.headerState.MatchingClose? then Turn(Advance(c, CLOSE, Lower(ch), Close), Keep(Value))
      else Turn(if ch != ' ' then c.(headerState := General) else c, Keep(Value))
  }

  function GainedFlags(f: Flags, h: HeaderState): Flags {
    if h.KeepAlive? then f.(keepAlive := true)
    else if h.Close? then f.(close := true)
    else if h.Chunked? then f.(chunked := true)
    else f
  }

  function LineEndTurn(c: Core, ch: byte): (t: Turn)
    requires Inv(c) && c.state.HeaderAlmostDone?
    ensures Sound(c, t)
  {
    hide Inv, Sound;
    if ch != LF then Bad(c, c, Strict)
    else Pass(c, c.(state := HeaderValueLws, flags := GainedFlags(c.flags, c.headerState)), Break)
  }

  function LwsTurn(c: Core, ch: byte): (t: Turn)
    requires Inv(c) && c.state.HeaderValueLws?
    ensures Sound(c, t)
  {
    if ch == ' ' || ch == '\t' then Goto(c, HeaderValueStart) else Turn(c.(state := HeaderFieldStart), Again)
  }

  /* ---- End of headers (src/http_parser.c:1553-1642). ---- */

  function Completed(c: Core, resets: bool := false): (t: Turn)
    requires KindAt(c.state) == None
    ensures Sound(c, t) && t == Turn(c.(state := NewMessage(c)), Notify(MessageComplete), resets)
  {
    Turn(c.(state := NewMessage(c)), Notify(MessageComplete), resets)
  }

  function HeadersAlmostDoneTurn(c: Core, ch: byte): (t: Turn)
    requires Inv(c) && c.state.HeadersAlmostDone?
    ensures Sound(c, t)
  {
    if ch != LF then Bad(c, c, Strict)
    else if c.flags.trailing then Completed(c)
    else Turn(c.(state := HeadersDone, upgrade := c.flags.upgrade || c.verb == CONNECT), Head)
  }

  function HeadersDoneTurn(c: Core, ch: byte): (t: Turn)
    requires Inv(c) && c.state.HeadersDone?
    ensures Sound(c, t)
  {
    hide Sound;
    if ch != LF then Bad(c, c, Strict)
    else if c.upgrade then Into(c, c.(state := NewMessage(c)), Leave, true)
    else if c.flags.skipBody then Completed(c, true)
    else if c.flags.chunked then Into(c, c.(state := ChunkSizeStart), Break, true)
    else if c.contentLength == 0 then Completed(c, true)
    else if c.contentLength != ULLONG_MAX then Into(c, c.(state := BodyIdentity), Break, true)
    else if c.kind == Request || !NeedsEof(c) then Completed(c, true)
    else Into(c, c.(state := BodyIdentityEof), Break, true)
  }

  /* ---- Bodies (src/http_parser.c:1644-1808). ---- */

  function BodyTurn(c: Core, ch: byte): (t: Turn)
    requires Inv(c) && (c.state.BodyIdentity? || c.state.BodyIdentityEof? || c.state.MessageDone?)
    ensures Sound(c, t)
  {
    if c.state.BodyIdentity? then
      assert c.contentLength != 0 && c.contentLength != ULLONG_MAX;
      if c.contentLength == 1 then Turn(c.(contentLength := 0, state := MessageDone), LastBody)
      else Turn(c.(contentLength := c.contentLength - 1), Mark(Body))
    else if c.state.BodyIdentityEof? then Turn(c, Mark(Body))
    else Completed(c)
  }

  predicate InChunkHead(s: State) { s.ChunkSizeStart? || s.ChunkSize? || s.ChunkParameters? || s.ChunkSizeAlmostDone? }

  function ChunkSizeTurn(c: Core, ch: byte): (t: Turn)
    requires Inv(c) && c.state.ChunkSize?
    ensures Sound(c, t)
  {
    hide Sound;
    assert c.flags.chunked;
    if ch == CR then Into(c, c.(state := ChunkSizeAlmostDone), Break)
    else if Unhex(ch) == -1 then
      if ch == ';' || ch == ' ' then Into(c, c.(state := ChunkParameters), Break) else Bad(c, c, InvalidChunkSize)
    else
      var t := Accumulate(c.contentLength, 16, Unhex(ch));
      if LengthRefused(c.contentLength, t) then Bad(c, c, InvalidContentLength)
      else Into(c, c.(contentLength := t), Break)
  }

  function ChunkSizeStartTurn(c: Core, ch: byte): (t: Turn)
    requires Inv(c) && c.state.ChunkSizeStart?
    ensures Sound(c, t)
  {
    hide Sound;
    if Unhex(ch) == -1 then Bad(c, c, InvalidChunkSize)
    else Into(c, c.(contentLength := Unhex(ch) as uint64, state := ChunkSize), Break)
  }

  function ChunkHeadTurn(c: Core, ch: byte): (t: Turn)
    requires Inv(c) && InChunkHead(c.state)
    ensures Sound(c, t)
  {
    hide Sound;
    assert c.flags.chunked;
    if c.state.ChunkSizeStart? then ChunkSizeStartTurn(c, ch)
    else if c.state.ChunkSize? then ChunkSizeTurn(c, ch)
    else if c.state.ChunkParameters? then
      if ch == CR then Into(c, c.(state := ChunkSizeAlmostDone), Break) else Into(c, c, Break)
    else if ch != LF then Bad(c, c, Strict)
    else if c.contentLength == 0 then
      Into(c, c.(flags := c.flags.(trailing := true), state := HeaderFieldStart), Break, true)
    else Into(c, c.(state := ChunkData), Break, true)
  }

  function ChunkDataTurn(c: Core, ch: byte): (t: Turn)
    requires Inv(c) && InChunk(c.state) && !InChunkHead(c.state)
    ensures Sound(c, t)
  {
    hide Sound;
    assert c.flags.chunked;
    if c.state.ChunkData? then
      assert c.contentLength != 0 && c.contentLength != ULLONG_MAX;
      Into(c, c.(contentLength := c.contentLength - 1,
                 state := if c.contentLength == 1 then ChunkDataAlmostDone else ChunkData),
           Mark(Body))
    else if c.state.ChunkDataAlmostDone? then
      assert c.contentLength == 0;
      if ch != CR then Bad(c, c, Strict) else Into(c, c.(state := ChunkDataDone), Flush(Body))
    else if ch != LF then Bad(c, c, Strict)
    else Into(c, c.(state := ChunkSizeStart), Break, true)
  }

  // switch (parser->state): every state has its arm, so "unhandled state" is never reached.
  function SwitchOn(c: Core, ch: byte): (t: Turn)
    requires Inv(c)
    ensures Sound(c, t)
  {
    if c.state.Dead? then StartTurn(c, ch)
    else if c.state.StartReqOrRes? then StartTurn(c, ch)
    else if c.state.ResOrRespH? then StartTurn(c, ch)
    else if c.state.StartRes? then StartResTurn(c, ch)
    else if c.state.StartReq? then StartReqTurn(c, ch)
    else if c.state.ReqMethod? then MethodTurn(c, ch)
    else if c.state.HeaderFieldStart? then FieldStartTurn(c, ch)
    else if c.state.HeaderField? then FieldTurn(c, ch)
    else if c.state.HeaderValueStart? then ValueStartTurn(c, ch)
    else if c.state.HeaderValue? then ValueTurn(c, ch)
    else if c.state.HeaderAlmostDone? then LineEndTurn(c, ch)
    else if c.state.HeaderValueLws? then LwsTurn(c, ch)
    else if c.state.HeadersAlmostDone? then HeadersAlmostDoneTurn(c, ch)
    else if c.state.HeadersDone? then HeadersDoneTurn(c, ch)
    else if c.state.BodyIdentity? then BodyTurn(c, ch)
    else if c.state.BodyIdentityEof? then BodyTurn(c, ch)
    else if c.state.MessageDone? then BodyTurn(c, ch)
    else
      if InChunkHead(c.state) then ChunkHeadTurn(c, ch)
      else if InChunk(c.state) then ChunkDataTurn(c, ch)
      else if InResVersion(c.state) then ResVersionTurn(c, ch)
      else if InStatus(c.state) then StatusTurn(c, ch)
      else if InReqHttp(c.state) then ReqHttpTurn(c, ch)
      else if InReqVersion(c.state) then ReqVersionTurn(c, ch)
      else if c.state.ReqSpacesBeforeUrl? then UrlStartTurn(c, ch)
      else UrlTurn(c, ch)
  }
}
