/** `http_parser_parse_url` accepts exactly the well-formed URLs: every URL that both automata accept can be written
    from parts (src/http_parser.c:424-570, 1921-2156). */
module UrlGrammar {
  import opened Options
  import opened Bytes
  import opened ParserState
  import opened UrlChars
  import opened ParseUrl
  import opened UrlForms

  /* ---- The character loop, read backwards. ---- */

  // What has been read, the host part as it stands.
  datatype Prefix = Prefix(schema: seq<byte>, host: seq<byte>, path: seq<byte>, query: Option<seq<byte>>,
                           fragment: Option<seq<byte>>)

  // What stands between the schema and the host part in state s.
  function Colon(s: State, r: Prefix): seq<byte> {
    if s.ReqSpacesBeforeUrl? || s.ReqSchema? then []
    else if s.ReqSchemaSlash? then [':']
    else if s.ReqSchemaSlashSlash? then [':', '/']
    else if r.schema != [] then [':', '/', '/'] else []
  }

  function QueryOf(r: Prefix): seq<byte> { if r.query.Some? then ['?'] + r.query.value else [] }

  function FragmentOf(r: Prefix): seq<byte> { if r.fragment.Some? then ['#'] + r.fragment.value else [] }

  function Rest(r: Prefix): seq<byte> { r.host + r.path + QueryOf(r) + FragmentOf(r) }

  function TextOf(s: State, r: Prefix): seq<byte> { r.schema + Colon(s, r) + Rest(r) }

  predicate InHost(c: byte) { ForServer(c) || c == '@' }

  predicate Bytewise(r: Prefix) {
    && (forall i | 0 <= i < |r.schema| :: IsLetter(r.schema[i])) && (forall i | 0 <= i < |r.host| :: InHost(r.host[i]))
    && (forall i | 0 <= i < |r.path| :: ForPath(r.path[i]))
    && (r.query.Some? ==> forall i | 0 <= i < |r.query.value| :: ForQuery(r.query.value[i]))
    && (r.fragment.Some? ==> forall i | 0 <= i < |r.fragment.value| :: ForFragment(r.fragment.value[i]))
  }

  predicate NoTail(r: Prefix) { r.path == [] && r.query.None? && r.fragment.None? }

  // From the host part on.
  predicate Begun(r: Prefix, isConnect: bool) {
    && (r.host == [] && r.schema == [] && !isConnect ==> r.path != [])
    && (isConnect ==> r.schema == []) && (r.host != [] && !isConnect ==> r.schema != [])
    && (r.path != [] ==> r.path[0] == '/' || (r.path[0] == '*' && r.host == []))
    && (r.path == [] && r.fragment.Some? ==> r.query.Some?)
  }

  // What has been read when the automaton is in state s.
  predicate Reads(s: State, r: Prefix, isConnect: bool) {
    if s.ReqSpacesBeforeUrl? then !isConnect && r.schema == [] && r.host == [] && NoTail(r)
    else if s.ReqSchema? || s.ReqSchemaSlash? || s.ReqSchemaSlashSlash? then
      !isConnect && r.schema != [] && r.host == [] && NoTail(r)
    else if s.ReqServerStart? then (isConnect <==> r.schema == []) && r.host == [] && NoTail(r)
    else
      && Begun(r, isConnect)
      && if s.ReqServer? || s.ReqServerWithAt? then r.host != [] && NoTail(r)
         else if s.ReqPath? then r.path != [] && r.query.None? && r.fragment.None?
         else if s.ReqQueryStringStart? then r.query == Some([]) && r.fragment.None?
         else if s.ReqQueryString? then r.query.Some? && r.query.value != [] && r.fragment.None?
         else if s.ReqFragmentStart? then r.fragment.Some? && Signs(r.fragment.value) == |r.fragment.value|
         else s.ReqFragment? && r.fragment.Some?
  }

  // Where the host part is.
  function HostOf(r: Prefix): Option<Span> {
    if r.host == [] then None else Some(Span(if r.schema == [] then 0 else |r.schema| + 3, |r.host|))
  }

  ghost predicate Noted(buf: seq<byte>, isConnect: bool, p: nat, r: Prefix)
    requires p <= |buf|
  {
    && HostPart(buf, isConnect, p) == HostOf(r)
    && (r.schema != [] ==> p > 0 && FieldAt(buf, isConnect, 0) == Some(Schema))
  }

  // One more byte.
  function Extended(s: State, r: Prefix, ch: byte, t: State): Prefix {
    if t.ReqSchema? then r.(schema := r.schema + [ch])
    else if t.ReqServer? || t.ReqServerWithAt? then r.(host := r.host + [ch])
    else if t.ReqPath? then r.(path := r.path + [ch])
    else if t.ReqQueryStringStart? then r.(query := Some([]))
    else if t.ReqQueryString? && r.query.Some? then r.(query := Some(r.query.value + [ch]))
    else if (t.ReqFragmentStart? || t.ReqFragment?) && r.fragment.Some? then
      r.(fragment := Some(r.fragment.value + [ch]))
    else if t.ReqFragmentStart? then r.(fragment := Some([]))
    else r
  }

  // What it takes to get from s to t.
  lemma Steps(s: State, ch: byte)
    requires !ParseUrlChar(s, ch).Dead?
    ensures var t := ParseUrlChar(s, ch);
            && (t.ReqSchema? ==> (s.ReqSpacesBeforeUrl? || s.ReqSchema?) && IsLetter(ch))
            && (t.ReqSchemaSlash? ==> s.ReqSchema? && ch == ':')
            && (t.ReqSchemaSlashSlash? ==> s.ReqSchemaSlash? && ch == '/')
            && (t.ReqServerStart? ==> s.ReqSchemaSlashSlash? && ch == '/')
            && (t.ReqServer? || t.ReqServerWithAt? ==> s.ReqServerStart? || s.ReqServer? || s.ReqServerWithAt?)
            && (t.ReqServer? ==> ForServer(ch)) && (t.ReqServerWithAt? ==> ch == '@')
            && (t.ReqPath? ==> ForPath(ch))
            && (t.ReqPath? && !s.ReqPath? ==>
                  || (s.ReqSpacesBeforeUrl? && (ch == '/' || ch == '*'))
                  || ((s.ReqServerStart? || s.ReqServer? || s.ReqServerWithAt?) && ch == '/'))
            && (t.ReqQueryStringStart? ==>
                  ch == '?' && (s.ReqServerStart? || s.ReqServer? || s.ReqServerWithAt? || s.ReqPath?))
            && (t.ReqQueryString? ==> ForQuery(ch) && (s.ReqQueryStringStart? || s.ReqQueryString?))
            && (t.ReqFragmentStart? ==>
                  ch == '#' && (s.ReqPath? || s.ReqQueryStringStart? || s.ReqQueryString? || s.ReqFragmentStart?))
            && (t.ReqFragment? ==> ForFragment(ch) && (s.ReqFragmentStart? || s.ReqFragment?))
            && InUrl(t)
  {
    Classes(ch);
    hide IsUrlChar, IsUserinfoChar, IsAlpha;
  }

  lemma {:induction false} MoreSigns(v: seq<byte>)
    requires Signs(v) == |v|
    ensures Signs(v + ['#']) == |v| + 1
  {
    if v != [] {
      MoreSigns(v[1..]);
      assert (v + ['#'])[1..] == v[1..] + ['#'];
    }
  }

  lemma StepReads(s: State, r: Prefix, ch: byte, isConnect: bool)
    requires Reads(s, r, isConnect) && !ParseUrlChar(s, ch).Dead?
    ensures Reads(ParseUrlChar(s, ch), Extended(s, r, ch, ParseUrlChar(s, ch)), isConnect)
  {
    hide ParseUrlChar, ForServer, ForPath, ForQuery, ForFragment, IsLetter;
    Steps(s, ch);
    if ParseUrlChar(s, ch).ReqFragmentStart? && r.fragment.Some? && Signs(r.fragment.value) == |r.fragment.value| {
      MoreSigns(r.fragment.value);
    }
    hide Signs;
  }

  lemma StepBytes(s: State, r: Prefix, ch: byte, isConnect: bool)
    requires Reads(s, r, isConnect) && Bytewise(r) && !ParseUrlChar(s, ch).Dead?
    ensures Bytewise(Extended(s, r, ch, ParseUrlChar(s, ch)))
  {
    assert ForFragment('#');
    hide ParseUrlChar, ForServer, ForPath, ForQuery, ForFragment, IsLetter, Signs;
    Steps(s, ch);
    assert ForFragment('#');
  }

  lemma StepRest(s: State, r: Prefix, ch: byte, isConnect: bool)
    requires Reads(s, r, isConnect) && !ParseUrlChar(s, ch).Dead?
    ensures var t := ParseUrlChar(s, ch);
            !t.ReqSchema? && !t.ReqSchemaSlash? && !t.ReqSchemaSlashSlash? && !t.ReqServerStart? ==>
              Rest(Extended(s, r, ch, t)) == Rest(r) + [ch] && Extended(s, r, ch, t).schema == r.schema
  {
    hide ParseUrlChar, ForServer, ForPath, ForQuery, ForFragment, IsLetter, Signs;
    Steps(s, ch);
  }

  lemma StepText(s: State, r: Prefix, ch: byte, isConnect: bool)
    requires Reads(s, r, isConnect) && !ParseUrlChar(s, ch).Dead?
    ensures TextOf(ParseUrlChar(s, ch), Extended(s, r, ch, ParseUrlChar(s, ch))) == TextOf(s, r) + [ch]
  {
    hide ParseUrlChar, ForServer, ForPath, ForQuery, ForFragment, IsLetter, Signs;
    Steps(s, ch);
    StepRest(s, r, ch, isConnect);
    var t := ParseUrlChar(s, ch);
    var u := Extended(s, r, ch, t);
    if t.ReqSchema? || t.ReqSchemaSlash? || t.ReqSchemaSlashSlash? || t.ReqServerStart? {
      assert Rest(u) == [] == Rest(r);
    } else {
      hide Rest, Extended;
      assert Colon(t, u) == Colon(s, r);
      assert r.schema + Colon(s, r) + (Rest(r) + [ch]) == r.schema + Colon(s, r) + Rest(r) + [ch];
    }
  }

  lemma StepHost(s: State, r: Prefix, ch: byte, isConnect: bool)
    requires Reads(s, r, isConnect) && !ParseUrlChar(s, ch).Dead?
    ensures var t, p, h := ParseUrlChar(s, ch), |TextOf(s, r)|, HostOf(r);
            HostOf(Extended(s, r, ch, t))
            == (if FieldOf(t) != Some(Host) then h
                else Some(if h.None? then Span(p, 1) else Span(h.value.off, h.value.len + 1)))
  {
    hide ParseUrlChar, ForServer, ForPath, ForQuery, ForFragment, IsLetter, Signs;
    Steps(s, ch);
  }

  lemma StepSchema(s: State, r: Prefix, ch: byte, isConnect: bool)
    requires Reads(s, r, isConnect) && !ParseUrlChar(s, ch).Dead?
    ensures var t := ParseUrlChar(s, ch);
            Extended(s, r, ch, t).schema != [] && r.schema == [] ==>
              t.ReqSchema? && TextOf(s, r) == []
  {
    hide ParseUrlChar, ForServer, ForPath, ForQuery, ForFragment, IsLetter, Signs;
    Steps(s, ch);
  }

  lemma StepNoted(buf: seq<byte>, isConnect: bool, p: nat, r: Prefix)
    requires p < |buf| && Noted(buf, isConnect, p, r) && Reads(StateAt(buf, isConnect, p), r, isConnect)
    requires |TextOf(StateAt(buf, isConnect, p), r)| == p && !StateAt(buf, isConnect, p + 1).Dead?
    ensures Noted(buf, isConnect, p + 1,
                  Extended(StateAt(buf, isConnect, p), r, buf[p], StateAt(buf, isConnect, p + 1)))
  {
    NextUrlState(buf, isConnect, p);
    hide ParseUrlChar, SeesAt, FieldAt, Reads, TextOf, Extended, HostOf, UrlState;
    StepHost(StateAt(buf, isConnect, p), r, buf[p], isConnect);
    StepSchema(StateAt(buf, isConnect, p), r, buf[p], isConnect);
  }

  // What a prefix consists of.
  ghost predicate ReadAs(buf: seq<byte>, isConnect: bool, p: nat, r: Prefix)
    requires p <= |buf|
  {
    && TextOf(StateAt(buf, isConnect, p), r) == buf[..p] && Reads(StateAt(buf, isConnect, p), r, isConnect)
    && Bytewise(r) && Noted(buf, isConnect, p, r)
  }

  lemma NothingRead(buf: seq<byte>, isConnect: bool)
    ensures ReadAs(buf, isConnect, 0, Prefix([], [], [], None, None))
  {
    StartsAt(buf, isConnect);
    hide StateAt, UrlState;
  }

  lemma OneMoreRead(buf: seq<byte>, isConnect: bool, p: nat, r: Prefix)
    requires UrlAccepted(buf, isConnect) && p < |buf| && ReadAs(buf, isConnect, p, r)
    ensures ReadAs(buf, isConnect, p + 1,
                   Extended(StateAt(buf, isConnect, p), r, buf[p], StateAt(buf, isConnect, p + 1)))
  {
    hide ParseUrlChar, StateAt, UrlAccepted, Reads, TextOf, Extended, Bytewise, Reached, Noted, FieldAt, UrlState;
    var s, t := StateAt(buf, isConnect, p), StateAt(buf, isConnect, p + 1);
    StepTo(buf, isConnect, p);
    Step(buf, isConnect, p);
    assert !t.Dead?;
    assert buf[..p + 1] == buf[..p] + [buf[p]] && |buf[..p]| == p;
    StepText(s, r, buf[p], isConnect);
    StepReads(s, r, buf[p], isConnect);
    StepBytes(s, r, buf[p], isConnect);
    StepNoted(buf, isConnect, p, r);
  }

  lemma {:induction false} ReadBack(buf: seq<byte>, isConnect: bool, p: nat) returns (r: Prefix)
    requires UrlAccepted(buf, isConnect) && p <= |buf|
    ensures ReadAs(buf, isConnect, p, r)
    decreases p
  {
    hide ReadAs, UrlAccepted, StateAt, Extended;
    if p == 0 {
      NothingRead(buf, isConnect);
      r := Prefix([], [], [], None, None);
    } else {
      var was := ReadBack(buf, isConnect, p - 1);
      OneMoreRead(buf, isConnect, p - 1, was);
      r := Extended(StateAt(buf, isConnect, p - 1), was, buf[p - 1], StateAt(buf, isConnect, p));
    }
  }

  /* ---- The host loop, read backwards. ---- */

  function UserText(s: HostState, v: Server): seq<byte> {
    if v.user.None? then [] else if s.InUserinfo? then v.user.value else v.user.value + ['@']
  }

  function PortText(s: HostState, v: Server): seq<byte> { if s.PortStart? || s.InPort? then [':'] + v.port else [] }

  // The text of what has been read in state s.
  function ServerSoFar(s: HostState, v: Server): seq<byte> { UserText(s, v) + NameText(s, v) }

  function NameText(s: HostState, v: Server): seq<byte> {
    (if v.v6 then ['['] else []) + v.host + (if v.v6 && !s.V6Start? && !s.InV6? then [']'] else []) + PortText(s, v)
  }

  predicate ServerBytes(v: Server) {
    && (v.user.Some? ==> forall i | 0 <= i < |v.user.value| :: ForUser(v.user.value[i]))
    && (forall i | 0 <= i < |v.host| :: if v.v6 then ForV6(v.host[i]) else ForHost(v.host[i])) && Digits(v.port)
  }

  predicate NoName(v: Server) { v.host == [] && v.port == [] }

  // What has been read when the automaton is in state s.
  predicate ServerReads(s: HostState, s0: HostState, v: Server) {
    if s.UserinfoStart? then s0.UserinfoStart? && v == Server(None, false, [], [])
    else
      && (v.user.Some? <==> s0.UserinfoStart?)
      && if s.InUserinfo? then v.user.Some? && !v.v6 && NoName(v)
         else if s.HostStart? then !v.v6 && NoName(v)
         else if s.V6Start? then v.v6 && NoName(v)
         else if s.InHost? then !v.v6 && v.host != [] && v.port == []
         else if s.InV6? || s.V6End? then v.v6 && v.host != [] && v.port == []
         else if s.PortStart? then v.host != [] && v.port == []
         else s.InPort? && v.host != [] && v.port != []
  }

  function ServerExtended(v: Server, ch: byte, t: HostState): Server {
    if t.InUserinfo? then v.(user := Some(UserOf(v) + [ch]))
    else if t.HostStart? then v.(user := Some(UserOf(v)))
    else if t.V6Start? then v.(v6 := true)
    else if t.InHost? || t.InV6? then v.(host := v.host + [ch])
    else if t.InPort? then v.(port := v.port + [ch])
    else v
  }

  lemma ServerSteps(s: HostState, ch: byte)
    requires !ParseHostChar(s, ch).HDead?
    ensures var t := ParseHostChar(s, ch);
            && HostReached(s, ch, t) && (t.InUserinfo? ==> ForUser(ch)) && (t.InHost? ==> ForHost(ch))
            && (t.InV6? ==> ForV6(ch)) && (t.InPort? ==> IsNum(ch))
  {
    Classes(ch);
    HostReaches(s, ch);
    hide IsUserinfoChar, IsHostChar, IsHex, IsNum, ForUser, ForHost, ForV6, HostReached;
  }

  lemma MoreServerBytes(s: HostState, s0: HostState, v: Server, ch: byte)
    requires ServerReads(s, s0, v) && ServerBytes(v) && !ParseHostChar(s, ch).HDead?
    ensures ServerBytes(ServerExtended(v, ch, ParseHostChar(s, ch)))
  {
    hide ParseHostChar, ForUser, ForHost, ForV6;
    ServerSteps(s, ch);
  }

  lemma MoreServer(s: HostState, s0: HostState, v: Server, ch: byte)
    requires ServerReads(s, s0, v) && !ParseHostChar(s, ch).HDead?
    ensures var t := ParseHostChar(s, ch); ServerReads(t, s0, ServerExtended(v, ch, t))
  {
    hide ParseHostChar, ForUser, ForHost, ForV6;
    ServerSteps(s, ch);
  }

  lemma MoreName(s: HostState, s0: HostState, v: Server, ch: byte)
    requires ServerReads(s, s0, v) && !ParseHostChar(s, ch).HDead?
    ensures var t := ParseHostChar(s, ch);
            !t.InUserinfo? && !t.HostStart? ==>
              && NameText(t, ServerExtended(v, ch, t)) == NameText(s, v) + [ch]
              && UserText(t, ServerExtended(v, ch, t)) == UserText(s, v)
  {
    hide ParseHostChar, ForUser, ForHost, ForV6;
    ServerSteps(s, ch);
  }

  lemma MoreUser(s: HostState, s0: HostState, v: Server, ch: byte)
    requires ServerReads(s, s0, v) && !ParseHostChar(s, ch).HDead?
    requires ParseHostChar(s, ch).InUserinfo? || ParseHostChar(s, ch).HostStart?
    ensures var t := ParseHostChar(s, ch);
            && NameText(s, v) == [] == NameText(t, ServerExtended(v, ch, t))
            && UserText(t, ServerExtended(v, ch, t)) == UserText(s, v) + [ch]
  {
    hide ParseHostChar, ForUser, ForHost, ForV6;
    ServerSteps(s, ch);
  }

  lemma MoreText(s: HostState, s0: HostState, v: Server, ch: byte)
    requires ServerReads(s, s0, v) && !ParseHostChar(s, ch).HDead?
    ensures var t := ParseHostChar(s, ch); ServerSoFar(t, ServerExtended(v, ch, t)) == ServerSoFar(s, v) + [ch]
  {
    hide ParseHostChar, ForUser, ForHost, ForV6, PortText;
    ServerSteps(s, ch);
    MoreName(s, s0, v, ch);
    var t := ParseHostChar(s, ch);
    if t.InUserinfo? || t.HostStart? {
      MoreUser(s, s0, v, ch);
    } else {
      hide NameText, UserText, ServerExtended;
      assert UserText(s, v) + (NameText(s, v) + [ch]) == UserText(s, v) + NameText(s, v) + [ch];
    }
  }

  ghost predicate ServerReadAs(text: seq<byte>, s0: HostState, v: Server) {
    var s := HostRun(s0, text); ServerSoFar(s, v) == text && ServerReads(s, s0, v) && ServerBytes(v)
  }

  lemma NoServerRead(s0: HostState)
    requires s0.UserinfoStart? || s0.HostStart?
    ensures ServerReadAs([], s0, Server(None, false, [], []))
  {
  }

  lemma LastHostByte(text: seq<byte>, s0: HostState)
    requires text != [] && !HostRun(s0, text).HDead?
    ensures var n := |text| - 1;
            && !HostRun(s0, text[..n]).HDead? && text == text[..n] + [text[n]]
            && HostRun(s0, text) == ParseHostChar(HostRun(s0, text[..n]), text[n])
  {
  }

  lemma {:induction false} ServerBack(text: seq<byte>, s0: HostState) returns (v: Server)
    requires (s0.UserinfoStart? || s0.HostStart?) && !HostRun(s0, text).HDead?
    ensures ServerReadAs(text, s0, v)
    decreases |text|
  {
    hide ServerReads, ServerSoFar, ServerBytes, HostRun, ParseHostChar, ServerExtended;
    if text == [] {
      NoServerRead(s0);
      v := Server(None, false, [], []);
    } else {
      LastHostByte(text, s0);
      var n := |text| - 1;
      var s := HostRun(s0, text[..n]);
      var was := ServerBack(text[..n], s0);
      MoreServer(s, s0, was, text[n]);
      MoreText(s, s0, was, text[n]);
      MoreServerBytes(s, s0, was, text[n]);
      v := ServerExtended(was, text[n], HostRun(s0, text));
    }
  }

  /* ---- URLs that are accepted. ---- */

  lemma WholeText(s: HostState, s0: HostState, v: Server)
    requires ServerReads(s, s0, v) && (s.InHost? || s.V6End? || s.InPort?)
    ensures ServerText(v) == ServerSoFar(s, v)
  {
    var a, b, c := UserText(s, v), if v.v6 then ['['] else [], if v.v6 then [']'] else [];
    var d := if v.port != [] then [':'] + v.port else [];
    assert PortText(s, v) == d;
    assert a + b + v.host + c + d == a + (b + v.host + c + d);
  }

  lemma WholeForm(s: HostState, s0: HostState, v: Server)
    requires ServerReads(s, s0, v) && (s.InHost? || s.V6End? || s.InPort?) && ServerBytes(v)
    ensures ProperServer(v)
  {
    hide ForUser, ForHost, ForV6, Digits;
  }

  lemma ServerWhole(text: seq<byte>, s0: HostState) returns (v: Server)
    requires s0.UserinfoStart? || s0.HostStart?
    requires !HostRun(s0, text).HDead? && !HostUnfinished(HostRun(s0, text))
    ensures ProperServer(v) && ServerText(v) == text
  {
    hide HostRun, ServerReads, ServerBytes, ProperServer, ServerText, ServerSoFar;
    v := ServerBack(text, s0);
    WholeText(HostRun(s0, text), s0, v);
    WholeForm(HostRun(s0, text), s0, v);
  }

  lemma HostInside(s: State, r: Prefix, isConnect: bool)
    requires Reads(s, r, isConnect) && r.host != []
    ensures var h, text := HostOf(r).value, TextOf(s, r); h.End() <= |text| && text[h.off..h.End()] == r.host
  {
    hide QueryOf, FragmentOf, Signs;
  }

  function UrlOf(r: Prefix, v: Option<Server>): Url { Url.Url(r.schema, v, r.path, r.query, r.fragment) }

  lemma SameText(s: State, r: Prefix, isConnect: bool, v: Option<Server>)
    requires Reads(s, r, isConnect) && HostText(UrlOf(r, v)) == r.host && (r.host != [] || r.path != [])
    ensures UrlText(UrlOf(r, v)) == TextOf(s, r)
  {
    hide ServerText, Signs;
    var a, b, c, d, e := SchemaText(UrlOf(r, v)), r.host, r.path, QueryOf(r), FragmentOf(r);
    assert a == r.schema + Colon(s, r);
    assert a + b + c + d + e == a + (b + c + d + e);
  }

  lemma SameForm(s: State, r: Prefix, isConnect: bool, v: Option<Server>)
    requires Reads(s, r, isConnect) && Bytewise(r) && (v.Some? ==> ProperServer(v.value))
    requires if v.Some? then r.host != [] else r.host == [] && r.schema == [] && !isConnect && r.path != []
    ensures Written(UrlOf(r, v), isConnect)
  {
    hide ProperServer, ForServer, ForPath, ForQuery, ForFragment, IsLetter, Signs;
  }

  lemma SomePath(s: State, r: Prefix)
    requires Reads(s, r, false) && r.host == [] && r.schema == [] && TextOf(s, r) != []
    ensures r.path != []
  {
    hide Signs;
  }

  // Every URL that both automata accept is written from parts.
  lemma Parts(buf: seq<byte>, isConnect: bool) returns (u: Url)
    requires UrlAccepted(buf, isConnect) && HostAccepted(buf, isConnect) && buf != []
    requires isConnect ==> Shows(buf, isConnect, Host)
    ensures Written(u, isConnect) && UrlText(u) == buf
  {
    var r := ReadBack(buf, isConnect, |buf|);
    var s := StateAt(buf, isConnect, |buf|);
    assert buf[..|buf|] == buf;
    if HostPart(buf, isConnect, |buf|).None? { NoHostShown(buf, isConnect); } else { HostShown(buf, isConnect, |buf|); }
    hide UrlAccepted, StateAt, Reads, TextOf, Bytewise, HostPart, UrlState, Written, FieldAt, SeesAt, HostRun;
    if r.host == [] {
      assert r.schema == [];
      SomePath(s, r);
      u := UrlOf(r, None);
      SameText(s, r, isConnect, None);
      SameForm(s, r, isConnect, None);
    } else {
      HostInside(s, r, isConnect);
      var v := ServerWhole(r.host, HostFirst(SeesAt(buf, isConnect, |buf|)));
      u := UrlOf(r, Some(v));
      SameText(s, r, isConnect, Some(v));
      SameForm(s, r, isConnect, Some(v));
    }
  }

  lemma {:induction false} HostShown(buf: seq<byte>, isConnect: bool, p: nat)
    requires p <= |buf| && HostPart(buf, isConnect, p).Some?
    ensures Shows(buf, isConnect, Host)
    decreases p
  {
    hide FieldAt;
    if FieldAt(buf, isConnect, p - 1) != Some(Host) { HostShown(buf, isConnect, p - 1); }
  }

  /* ---- Exactly these. ---- */

  ghost predicate WellFormed(buf: seq<byte>, isConnect: bool) {
    exists u: Url :: ProperUrl(u, isConnect) && UrlText(u) == buf
  }

  lemma StraightNear(u: Url, isConnect: bool, was: Span)
    requires Written(u, isConnect) && Straight(UrlText(u), isConnect, was)
    ensures Near(u)
  {
    hide UrlText, HostPart, ServerText;
    HostSeen(u, isConnect);
    HostBounds(u, isConnect);
  }

  // A host and a port are all there is when no other field is set.
  lemma NothingElse(u: Url, set': set<UrlField>, d: Fields)
    requires Written(u, true) && CutAt(u, set', d) && set' == {Host, Port}
    ensures OnlyServer(u)
  {
    assert PartSpan(u, Userinfo).None? && PartSpan(u, Path).None? && PartSpan(u, Query).None?;
    assert PartSpan(u, Fragment).None? && PartSpan(u, Port).Some?;
    hide ProperServer, HostOff, PathOff, QueryOff, FragmentOff, NameOff, ColonOff;
  }

  // The port of a URL that was cut.
  lemma PortLimit(u: Url, isConnect: bool, set': set<UrlField>, now: Fields, d: Fields)
    requires Written(u, isConnect) && CutAt(u, set', d) && Cut(UrlText(u), isConnect, set', now, d) && u.server.Some?
    ensures Digits(u.server.value.port)
    ensures Port in set' <==> u.server.value.port != []
    ensures if Port in set' then Port in now && StrToUl(UrlText(u), now[Port].off, 0) == Decimal(u.server.value.port)
            else Decimal(u.server.value.port) == 0
  {
    hide UrlText, PortValue, Written, HostCut, Layout, Placed, Decimal;
    if PartSpan(u, Port).Some? {
      PortThere(u);
      PortIs(u, isConnect, d);
    } else {
      NoPort(u, isConnect);
    }
  }

  // What http_parser_parse_url asks for before it returns 0, and what it has found by then.
  ghost predicate Succeeds(buf: seq<byte>, isConnect: bool, was: Span, set': set<UrlField>, now: Fields) {
    && UrlAccepted(buf, isConnect) && HostPasses(buf, isConnect, was) && (isConnect ==> set' == {Host, Port})
    && Total(now) && (Port in set' ==> StrToUl(buf, now[Port].off, 0) <= 0xffff)
  }

  ghost predicate Found(buf: seq<byte>, isConnect: bool, was: Span, set': set<UrlField>, now: Fields, d: Fields) {
    && Straight(buf, isConnect, was) && Total(now)
    && (UrlAccepted(buf, isConnect) && HostPasses(buf, isConnect, was) ==>
          && Cut(buf, isConnect, set', now, d) && forall f :: f in set' <==> Sets(buf, isConnect, was, f))
  }

  // A URL that is written from parts and was cut succeeds if its port and its parts allow it.
  lemma CutSucceeds(u: Url, isConnect: bool, was: Span, set': set<UrlField>, now: Fields, d: Fields)
    requires Written(u, isConnect) && Found(UrlText(u), isConnect, was, set', now, d)
    ensures Succeeds(UrlText(u), isConnect, was, set', now) <==> ProperUrl(u, isConnect)
  {
    hide UrlText, UrlAccepted, HostAccepted, HostPasses, Straight, FinalAt, Owner, PartSpan, Written, Near, Decimal;
    hide Cut, StrToUl, Shows, Sets, OnlyServer, CutAt;
    StraightNear(u, isConnect, was);
    Read(u, isConnect, was);
    StraightPasses(UrlText(u), isConnect, was);
    CutIs(u, isConnect, set', now, d);
    if u.server.Some? { PortLimit(u, isConnect, set', now, d); } else { NoPortSet(u, set', d); }
    if isConnect {
      if set' == {Host, Port} { NothingElse(u, set', d); }
      if ProperUrl(u, true) { ConnectSets(u, set', d); }
    }
  }

  lemma NoPortSet(u: Url, set': set<UrlField>, d: Fields)
    requires CutAt(u, set', d) && u.server.None?
    ensures Port !in set'
  {
    assert PartSpan(u, Port).None?;
  }

  lemma EmptyUrl(isConnect: bool, was: Span)
    ensures UrlAccepted([], isConnect) && HostPasses([], isConnect, was)
    ensures forall f :: !Sets([], isConnect, was, f)
    ensures !WellFormed([], isConnect)
  {
    hide HostEnds, HostShows, HostSpan;
    forall u: Url | ProperUrl(u, isConnect)
      ensures UrlText(u) != []
    {
      hide ProperUrl;
      InRequests(u, isConnect);
    }
  }

  lemma ExactlyWellFormed(buf: seq<byte>, isConnect: bool, was: Span, set': set<UrlField>, now: Fields, d: Fields)
    requires Found(buf, isConnect, was, set', now, d)
    ensures Succeeds(buf, isConnect, was, set', now) <==> WellFormed(buf, isConnect) || (buf == [] && !isConnect)
  {
    hide UrlText, UrlAccepted, HostAccepted, HostPasses, Cut, StrToUl, Shows, OnlyServer, ProperUrl, Sets;
    hide Written;
    if buf == [] {
      hide WellFormed;
      EmptyUrl(isConnect, was);
    } else {
      if WellFormed(buf, isConnect) {
        var u: Url :| ProperUrl(u, isConnect) && UrlText(u) == buf;
        Limits(u, isConnect);
        CutSucceeds(u, isConnect, was, set', now, d);
      }
      hide WellFormed;
      if Succeeds(buf, isConnect, was, set', now) {
        StraightPasses(buf, isConnect, was);
        if isConnect { HostSet(buf, isConnect, was); }
        hide Straight;
        var u := Parts(buf, isConnect);
        CutSucceeds(u, isConnect, was, set', now, d);
        IsWellFormed(u, isConnect);
      }
    }
  }

  lemma IsWellFormed(u: Url, isConnect: bool)
    requires ProperUrl(u, isConnect)
    ensures WellFormed(UrlText(u), isConnect)
  {
    hide ProperUrl, UrlText;
  }

  lemma HostSet(buf: seq<byte>, isConnect: bool, was: Span)
    requires Sets(buf, isConnect, was, Host)
    ensures Shows(buf, isConnect, Host)
  {
  }

  // Where the host ends within 16 bits and is not left over from another use, http_parser_parse_url succeeds exactly
  // for the well-formed URLs; and, CONNECT apart, for the empty one.
  method ParseExactly(p: ParsedUrl, buf: seq<byte>, isConnect: bool) returns (r: int)
    requires Total(p.fieldData) && Fits(p.fieldData) && Straight(buf, isConnect, p.fieldData[Host])
    requires Shows(buf, isConnect, Schema) && !Shows(buf, isConnect, Host) ==> p.fieldData[Host].End() <= |buf|
    modifies p
    ensures (r == 0 || r == 1) && Total(p.fieldData)
    ensures r == 0 <==> WellFormed(buf, isConnect) || (buf == [] && !isConnect)
  {
    hide UrlAccepted, HostAccepted, HostPasses, Straight, Short, Delimited, OuterStored, Cut, StrToUl, Shows, Sets;
    hide WellFormed;
    ghost var was := p.fieldData[Host];
    StraightPasses(buf, isConnect, was);
    ghost var d;
    r, d := p.ParseUrl(buf, isConnect);
    ExactlyWellFormed(buf, isConnect, was, p.fieldSet, p.fieldData, d);
  }
}
