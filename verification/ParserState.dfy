/** The parser's enumerations and persistent fields (src/http_parser.c:235-339, src/http_parser.h:104-229). */
module ParserState {
  import opened Bytes

  datatype State =
    | Dead
    | StartReqOrRes | ResOrRespH | StartRes
    | ResH | ResHT | ResHTT | ResHTTP
    | ResFirstHttpMajor | ResHttpMajor | ResFirstHttpMinor | ResHttpMinor
    | ResFirstStatusCode | ResStatusCode | ResStatus | ResLineAlmostDone
    | StartReq | ReqMethod | ReqSpacesBeforeUrl
    | ReqSchema | ReqSchemaSlash | ReqSchemaSlashSlash | ReqServerStart
    | ReqServer | ReqServerWithAt | ReqPath
    | ReqQueryStringStart | ReqQueryString | ReqFragmentStart | ReqFragment
    | ReqHttpStart | ReqHttpH | ReqHttpHT | ReqHttpHTT | ReqHttpHTTP
    | ReqFirstHttpMajor | ReqHttpMajor | ReqFirstHttpMinor | ReqHttpMinor | ReqLineAlmostDone
    | HeaderFieldStart | HeaderField | HeaderValueStart | HeaderValue | HeaderValueLws | HeaderAlmostDone
    | ChunkSizeStart | ChunkSize | ChunkParameters | ChunkSizeAlmostDone
    | HeadersAlmostDone | HeadersDone
    | ChunkData | ChunkDataAlmostDone | ChunkDataDone
    | BodyIdentity | BodyIdentityEof | MessageDone

  // PARSING_HEADER: every state up to and including s_headers_done.
  predicate ParsingHeader(s: State) {
    !s.ChunkData? && !s.ChunkDataAlmostDone? && !s.ChunkDataDone? && !s.BodyIdentity? && !s.BodyIdentityEof?
    && !s.MessageDone?
  }

  // The states in which the byte under the pointer belongs to the request URL.
  predicate InUrl(s: State) {
    s.ReqSchema? || s.ReqSchemaSlash? || s.ReqSchemaSlashSlash? || s.ReqServerStart? || s.ReqServer?
    || s.ReqServerWithAt?
    || s.ReqPath? || s.ReqQueryStringStart? || s.ReqQueryString? || s.ReqFragmentStart? || s.ReqFragment?
  }

  datatype HeaderState =
    | General | HC | HCO | HCON
    | MatchingConnection | MatchingProxyConnection | MatchingContentLength | MatchingTransferEncoding | MatchingUpgrade
    | Connection | ContentLength | TransferEncoding | Upgrade
    | MatchingChunked | MatchingKeepAlive | MatchingClose
    | Chunked | KeepAlive | Close

  const CONNECTION: seq<byte> := "connection"
  const PROXY_CONNECTION: seq<byte> := "proxy-connection"
  const CONTENT_LENGTH: seq<byte> := "content-length"
  const TRANSFER_ENCODING: seq<byte> := "transfer-encoding"
  const UPGRADE: seq<byte> := "upgrade"
  const CHUNKED: seq<byte> := "chunked"
  const KEEP_ALIVE: seq<byte> := "keep-alive"
  const CLOSE: seq<byte> := "close"

  datatype Method =
    | DELETE | GET | HEAD | POST | PUT | CONNECT | OPTIONS | TRACE | COPY | LOCK | MKCOL | MOVE | PROPFIND | PROPPATCH
    | SEARCH | UNLOCK | REPORT | MKACTIVITY | CHECKOUT | MERGE | MSEARCH | NOTIFY | SUBSCRIBE | UNSUBSCRIBE | PATCH
    | PURGE

  function MethodLength(m: Method): nat {
    match m
    case GET => 3 case PUT => 3
    case HEAD => 4 case POST => 4 case COPY => 4 case LOCK => 4 case MOVE => 4
    case TRACE => 5 case MKCOL => 5 case MERGE => 5 case PATCH => 5 case PURGE => 5
    case DELETE => 6 case SEARCH => 6 case UNLOCK => 6 case REPORT => 6 case NOTIFY => 6
    case CONNECT => 7 case OPTIONS => 7
    case PROPFIND => 8 case CHECKOUT => 8 case MSEARCH => 8
    case PROPPATCH => 9 case SUBSCRIBE => 9
    case MKACTIVITY => 10
    case UNSUBSCRIBE => 11
  }

  function MethodString(m: Method): seq<byte> {
    match m
    case DELETE => "DELETE" case GET => "GET" case HEAD => "HEAD" case POST => "POST" case PUT => "PUT"
    case CONNECT => "CONNECT" case OPTIONS => "OPTIONS" case TRACE => "TRACE" case COPY => "COPY" case LOCK => "LOCK"
    case MKCOL => "MKCOL" case MOVE => "MOVE" case PROPFIND => "PROPFIND" case PROPPATCH => "PROPPATCH"
    case SEARCH => "SEARCH" case UNLOCK => "UNLOCK" case REPORT => "REPORT" case MKACTIVITY => "MKACTIVITY"
    case CHECKOUT => "CHECKOUT" case MERGE => "MERGE" case MSEARCH => "M-SEARCH" case NOTIFY => "NOTIFY"
    case SUBSCRIBE => "SUBSCRIBE" case UNSUBSCRIBE => "UNSUBSCRIBE" case PATCH => "PATCH" case PURGE => "PURGE"
  }

  lemma MethodStringLength(m: Method)
    ensures |MethodString(m)| == MethodLength(m)
  {
  }

  // Reading a C string literal: index |lit| is the terminating NUL, anything beyond is out of range.
  function At(lit: seq<byte>, i: nat): byte
    requires i <= |lit|
  {
    if i == |lit| then '\0' else lit[i]
  }

  datatype MessageKind = Request | Response | Both

  datatype Flags = Flags(chunked: bool, keepAlive: bool, close: bool, trailing: bool, upgrade: bool, skipBody: bool)

  const NO_FLAGS := Flags(false, false, false, false, false, false)

  datatype Note = MessageBegin | StatusComplete | HeadersComplete | MessageComplete

  datatype Kind = Url | Field | Value | Body

  datatype Errno =
    | OK | CbNotify(note: Note) | CbData(kind: Kind)
    | InvalidEofState | HeaderOverflow | ClosedConnection | InvalidVersion | InvalidStatus | InvalidMethod | InvalidUrl
    | LfExpected | InvalidHeaderToken | InvalidContentLength | InvalidChunkSize | InvalidConstant | Strict | Paused
    | Unknown

  // The fields that the switch reads and writes; `nread` and `http_errno` are kept apart.
  datatype Core = Core(
    kind: MessageKind, flags: Flags, state: State, headerState: HeaderState, index: int, contentLength: uint64,
    major: uint16, minor: uint16, statusCode: uint16, verb: Method, upgrade: bool)

  predicate NeedsEof(c: Core) {
    if c.kind == Request then false
    else if c.statusCode / 100 == 1 || c.statusCode == 204 || c.statusCode == 304 || c.flags.skipBody then false
    else if c.flags.chunked || c.contentLength != ULLONG_MAX then false
    else true
  }

  predicate ShouldKeepAlive(c: Core) {
    if c.major > 0 && c.minor > 0 then
      if c.flags.close then false else !NeedsEof(c)
    else
      if !c.flags.keepAlive then false else !NeedsEof(c)
  }

  // NEW_MESSAGE in strict mode.
  function NewMessage(c: Core): (s: State)
    ensures s.Dead? || s.StartReq? || s.StartRes?
  {
    if !ShouldKeepAlive(c) then Dead else if c.kind == Request then StartReq else StartRes
  }

  /* ---- What every reachable state satisfies. ---- */

  ghost predicate FieldMatch(h: HeaderState, i: int) {
    if h.General? then true
    else if h.HC? then i == 0
    else if h.HCO? then i == 1
    else if h.HCON? then i == 2
    else if h.MatchingConnection? then 3 <= i < 9
    else if h.MatchingProxyConnection? then 0 <= i < 15
    else if h.MatchingContentLength? then 3 <= i < 13
    else if h.MatchingTransferEncoding? then 0 <= i < 16
    else if h.MatchingUpgrade? then 0 <= i < 6
    else if h.Connection? then true
    else if h.ContentLength? then true
    else if h.TransferEncoding? then true
    else if h.Upgrade? then true
    else false
  }

  ghost predicate ValueMatch(h: HeaderState, i: int, length: uint64) {
    if h.General? then true
    else if h.ContentLength? then length != ULLONG_MAX
    else if h.MatchingChunked? then 0 <= i < 6
    else if h.MatchingKeepAlive? then 0 <= i < 9
    else if h.MatchingClose? then 0 <= i < 4
    else if h.Chunked? then true
    else if h.KeepAlive? then true
    else if h.Close? then true
    else false
  }

  predicate InChunk(s: State) {
    s.ChunkSizeStart? || s.ChunkSize? || s.ChunkParameters? || s.ChunkSizeAlmostDone? || s.ChunkData?
    || s.ChunkDataAlmostDone?
    || s.ChunkDataDone?
  }

  ghost predicate Inv(c: Core) {
    if c.state.ReqMethod? then 1 <= c.index <= MethodLength(c.verb)
    else if c.state.HeaderField? then FieldMatch(c.headerState, c.index)
    else if c.state.HeaderValue? then ValueMatch(c.headerState, c.index, c.contentLength)
    else if c.state.BodyIdentity? then 0 < c.contentLength < ULLONG_MAX
    else if c.state.MessageDone? then c.contentLength == 0
    else if c.state.BodyIdentityEof? then NeedsEof(c)
    else if InChunk(c.state) then
      && c.flags.chunked
      && (c.state.ChunkSize? || c.state.ChunkParameters? || c.state.ChunkSizeAlmostDone? ==>
          c.contentLength != ULLONG_MAX)
      && (c.state.ChunkData? ==> 0 < c.contentLength < ULLONG_MAX)
      && (c.state.ChunkDataAlmostDone? ==> c.contentLength == 0)
    else true
  }

  // How many more times the byte under the pointer can go round the switch.
  function Rank(s: State): nat {
    if s.HeaderValueLws? then 3
    else if s.HeaderFieldStart? then 2
    else if s.HeadersAlmostDone? then 1
    else if s.StartReqOrRes? then 1
    else if s.HeaderValue? then 1
    else if s.BodyIdentity? then 1
    else 0
  }
}
