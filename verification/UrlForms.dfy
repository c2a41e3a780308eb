/** Every well-formed URL is accepted by `http_parser_parse_url`, and cut into exactly the parts it was put together
    from: paths, absolute URLs and the targets of CONNECT (src/http_parser.c:424-570, 1921-2156). */
module UrlForms {
  import opened Options
  import opened Bytes
  import opened ParserState
  import opened UrlChars
  import opened ParseUrl
  import Switch

  /* ---- URLs from their parts. ---- */

  // A part that is missing is None, or empty where it may not be there and empty. A fragment may begin with further
  // number signs, which are not part of the field.
  datatype Server = Server(user: Option<seq<byte>>, v6: bool, host: seq<byte>, port: seq<byte>)

  datatype Url = Url(schema: seq<byte>, server: Option<Server>, path: seq<byte>, query: Option<seq<byte>>,
                     fragment: Option<seq<byte>>)

  function ServerText(s: Server): seq<byte> {
    (if s.user.Some? then s.user.value + ['@'] else []) + (if s.v6 then ['['] else []) + s.host
    + (if s.v6 then [']'] else []) + (if s.port != [] then [':'] + s.port else [])
  }

  function UserOf(s: Server): seq<byte> { if s.user.Some? then s.user.value else [] }

  // The number signs at the beginning.
  function Signs(v: seq<byte>): (n: nat)
    ensures n <= |v|
  {
    if v != [] && v[0] == '#' then 1 + Signs(v[1..]) else 0
  }

  function SchemaText(u: Url): seq<byte> { if u.schema != [] then u.schema + [':', '/', '/'] else [] }

  function HostText(u: Url): seq<byte> { if u.server.Some? then ServerText(u.server.value) else [] }

  function QueryText(u: Url): seq<byte> { if u.query.Some? then ['?'] + u.query.value else [] }

  function FragmentText(u: Url): seq<byte> { if u.fragment.Some? then ['#'] + u.fragment.value else [] }

  function UrlText(u: Url): seq<byte> { SchemaText(u) + HostText(u) + u.path + QueryText(u) + FragmentText(u) }

  // Where the host part, the path, the query and the fragment begin, delimiters included.
  function HostOff(u: Url): nat { |SchemaText(u)| }
  function PathOff(u: Url): nat { HostOff(u) + |HostText(u)| }
  function QueryOff(u: Url): nat { PathOff(u) + |u.path| }
  function FragmentOff(u: Url): nat { QueryOff(u) + |QueryText(u)| }

  // Where the number signs of the fragment end.
  function SignsEnd(u: Url): nat {
    FragmentOff(u) + if u.fragment.Some? then 1 + Signs(u.fragment.value) else 0
  }

  // And the parts of the host part, from its beginning.
  function BareOff(s: Server): nat { if s.user.Some? then |s.user.value| + 1 else 0 }
  function NameOff(s: Server): nat { if s.v6 then BareOff(s) + 1 else BareOff(s) }
  function NameEnd(s: Server): nat { NameOff(s) + |s.host| }
  function ColonOff(s: Server): nat { if s.v6 then NameEnd(s) + 1 else NameEnd(s) }

  /* ---- Which characters a part may have. ---- */

  // Printable ASCII but '#'.
  predicate ForQuery(c: byte) { 33 <= c as int <= 126 && c != '#' }

  predicate ForPath(c: byte) { ForQuery(c) && c != '?' }

  predicate ForFragment(c: byte) { 33 <= c as int <= 126 }

  predicate IsDigit(c: byte) { '0' <= c <= '9' }

  predicate ForHost(c: byte) { IsLetter(c) || IsDigit(c) || c == '.' || c == '-' }

  predicate ForV6(c: byte) { IsDigit(c) || 'a' <= c <= 'f' || 'A' <= c <= 'F' || c == ':' || c == '.' }

  predicate ForUser(c: byte) {
    IsLetter(c) || IsDigit(c)
    || c in {'-', '_', '.', '!', '~', '*', '\'', '(', ')', '%', ';', ':', '&', '=', '+', '$', ','}
  }

  predicate ProperServer(s: Server) {
    && s.host != [] && (s.user.Some? ==> forall i | 0 <= i < |s.user.value| :: ForUser(s.user.value[i]))
    && (forall i | 0 <= i < |s.host| :: if s.v6 then ForV6(s.host[i]) else ForHost(s.host[i]))
    && Digits(s.port)
  }

  // A path, or an absolute URL; or what follows the schema of one.
  predicate Written(u: Url, isConnect: bool) {
    && (u.server.Some? ==> ProperServer(u.server.value))
    && (isConnect ==> u.server.Some? && u.schema == [])
    && (!isConnect ==> (u.server.Some? <==> u.schema != []))
    && (forall i | 0 <= i < |u.schema| :: IsLetter(u.schema[i]))
    && (forall i | 0 <= i < |u.path| :: ForPath(u.path[i]))
    && (u.path != [] ==> u.path[0] == '/' || (u.path[0] == '*' && u.server.None?))
    && (u.path == [] ==> u.server.Some? && (u.fragment.Some? ==> u.query.Some?))
    && (u.query.Some? ==> forall i | 0 <= i < |u.query.value| :: ForQuery(u.query.value[i]))
    && (u.fragment.Some? ==> forall i | 0 <= i < |u.fragment.value| :: ForFragment(u.fragment.value[i]))
  }

  // What there is for CONNECT are a host and a port; anything else is empty.
  predicate OnlyServer(u: Url) {
    && u.server.Some? && UserOf(u.server.value) == [] && u.server.value.port != [] && u.path == []
    && (u.query.Some? ==> u.query.value == [])
    && (u.fragment.Some? ==> Signs(u.fragment.value) == |u.fragment.value|)
  }

  predicate ProperUrl(u: Url, isConnect: bool) {
    && Written(u, isConnect) && (isConnect ==> OnlyServer(u))
    && (u.server.Some? ==> Decimal(u.server.value.port) <= 0xffff)
  }

  lemma Classes(c: byte)
    ensures ForPath(c) <==> IsUrlChar(c)
    ensures ForQuery(c) <==> IsUrlChar(c) || c == '?'
    ensures ForFragment(c) <==> IsUrlChar(c) || c == '?' || c == '#'
    ensures ForHost(c) <==> IsHostChar(c)
    ensures ForUser(c) <==> IsUserinfoChar(c)
    ensures ForV6(c) <==> IsHex(c) || c == ':' || c == '.'
    ensures IsLetter(c) <==> IsAlpha(c)
    ensures IsDigit(c) <==> IsNum(c)
  {
  }

  /* ---- The states of the character loop. ---- */

  lemma Step(buf: seq<byte>, isConnect: bool, p: nat)
    requires p < |buf|
    ensures StateAt(buf, isConnect, p + 1) == ParseUrlChar(StateAt(buf, isConnect, p), buf[p])
    ensures FieldAt(buf, isConnect, p) == FieldOf(StateAt(buf, isConnect, p + 1))
  {
    hide ParseUrlChar;
    NextUrlState(buf, isConnect, p);
  }

  // A stretch of bytes that keep the automaton in one state.
  lemma {:induction false} Stretch(buf: seq<byte>, isConnect: bool, a: nat, b: nat, r: State)
    requires a < b <= |buf| && ParseUrlChar(StateAt(buf, isConnect, a), buf[a]) == r
    requires forall i | a < i < b :: ParseUrlChar(r, buf[i]) == r
    ensures forall k | a < k <= b :: StateAt(buf, isConnect, k) == r
    decreases b
  {
    hide ParseUrlChar, StateAt;
    Step(buf, isConnect, b - 1);
    if a < b - 1 { Stretch(buf, isConnect, a, b - 1, r); }
  }

  lemma PathStep(s: State, c: byte)
    requires ForPath(c)
    ensures ParseUrlChar(ReqPath, c) == ReqPath
    ensures s.ReqSpacesBeforeUrl? && (c == '/' || c == '*') ==> ParseUrlChar(s, c) == ReqPath
    ensures (s.ReqServer? || s.ReqServerWithAt?) && c == '/' ==> ParseUrlChar(s, c) == ReqPath
  {
    Classes(c);
    hide IsUrlChar, IsUserinfoChar, IsAlpha;
  }

  lemma QueryStep(s: State, c: byte)
    ensures s.ReqPath? || s.ReqServer? || s.ReqServerWithAt? ==> ParseUrlChar(s, '?') == ReqQueryStringStart
    ensures (s.ReqQueryStringStart? || s.ReqQueryString?) && ForQuery(c) ==> ParseUrlChar(s, c) == ReqQueryString
  {
    Classes(c);
    assert !IsUrlChar('?');
    hide IsUrlChar, IsUserinfoChar, IsAlpha;
  }

  lemma FragmentStep(s: State, c: byte)
    ensures s.ReqPath? || s.ReqQueryStringStart? || s.ReqQueryString? ==> ParseUrlChar(s, '#') == ReqFragmentStart
    ensures s.ReqFragmentStart? ==> ParseUrlChar(s, '#') == ReqFragmentStart
    ensures s.ReqFragmentStart? && ForFragment(c) && c != '#' ==> ParseUrlChar(s, c) == ReqFragment
    ensures s.ReqFragment? && ForFragment(c) ==> ParseUrlChar(s, c) == ReqFragment
  {
    Classes(c);
    assert !IsUrlChar('#');
    hide IsUrlChar, IsUserinfoChar, IsAlpha;
  }

  // What the host part is made of, as far as the character loop looks.
  predicate ForServer(c: byte) { ForUser(c) || c == '[' || c == ']' }

  lemma ServerStep(s: State, c: byte)
    requires s.ReqServerStart? || s.ReqServer? || s.ReqServerWithAt?
    ensures ForServer(c) ==> ParseUrlChar(s, c) == ReqServer
    ensures c == '@' && !s.ReqServerWithAt? ==> ParseUrlChar(s, c) == ReqServerWithAt
  {
    Classes(c);
    NoServer(c);
    hide IsUserinfoChar, ForUser;
  }

  lemma NoServer(c: byte)
    ensures ForUser(c) ==> c != '/' && c != '?' && c != '@' && c != ' ' && c != '\r' && c != '\n' && c != '\t'
                           && c as int != 12
  {
  }

  // The host part: an at-sign, if any, in its middle only.
  predicate Serves(t: seq<byte>, at: Option<nat>) {
    (at.Some? ==> at.value < |t|) && forall i | 0 <= i < |t| :: if Some(i) == at then t[i] == '@' else ForServer(t[i])
  }

  lemma {:induction false} ServerStates(buf: seq<byte>, isConnect: bool, o: nat, e: nat, at: Option<nat>, k: nat)
    requires o < k <= e <= |buf| && StateAt(buf, isConnect, o).ReqServerStart? && Serves(buf[o..e], at)
    ensures StateAt(buf, isConnect, k) == if at.Some? && k == o + at.value + 1 then ReqServerWithAt else ReqServer
    decreases k
  {
    hide ParseUrlChar, StateAt, ForServer;
    Step(buf, isConnect, k - 1);
    assert buf[k - 1] == buf[o..e][k - 1 - o];
    if k - 1 > o { ServerStates(buf, isConnect, o, e, at, k - 1); }
    ServerStep(StateAt(buf, isConnect, k - 1), buf[k - 1]);
  }

  /* ---- The text, part by part. ---- */

  lemma Pieces(u: Url)
    ensures var buf := UrlText(u);
            && |buf| == FragmentOff(u) + |FragmentText(u)|
            && buf[..HostOff(u)] == SchemaText(u) && buf[HostOff(u)..PathOff(u)] == HostText(u)
            && buf[PathOff(u)..QueryOff(u)] == u.path && buf[QueryOff(u)..FragmentOff(u)] == QueryText(u)
            && buf[FragmentOff(u)..] == FragmentText(u)
  {
    hide SchemaText, HostText, QueryText, FragmentText;
  }

  // Byte k of a slice.
  lemma Slice(buf: seq<byte>, a: nat, b: nat, t: seq<byte>)
    requires a <= b <= |buf| && buf[a..b] == t
    ensures |t| == b - a && forall i | a <= i < b :: buf[i] == t[i - a]
  {
    forall i | a <= i < b ensures buf[i] == t[i - a] { assert buf[i] == buf[a..b][i - a]; }
  }

  lemma SchemaStretch(buf: seq<byte>, n: nat)
    requires 0 < n && n + 3 <= |buf| && (forall i | 0 <= i < n :: IsLetter(buf[i]))
    requires buf[n] == ':' && buf[n + 1] == '/' && buf[n + 2] == '/'
    ensures forall k | 0 < k <= n :: StateAt(buf, false, k).ReqSchema?
    ensures StateAt(buf, false, n + 1).ReqSchemaSlash? && StateAt(buf, false, n + 2).ReqSchemaSlashSlash?
    ensures StateAt(buf, false, n + 3).ReqServerStart?
  {
    StartsAt(buf, false);
    AfterSchema();
    hide ParseUrlChar, StateAt;
    forall i | 0 <= i < n
      ensures ParseUrlChar(UrlStart(false), buf[i]) == ReqSchema == ParseUrlChar(ReqSchema, buf[i])
    {
      LetterStep(buf[i]);
    }
    Stretch(buf, false, 0, n, ReqSchema);
    Step(buf, false, n);
    Step(buf, false, n + 1);
    Step(buf, false, n + 2);
  }

  lemma SchemaRegion(u: Url, isConnect: bool)
    requires Written(u, isConnect)
    ensures var buf, n := UrlText(u), |u.schema|;
            && HostOff(u) <= |buf|
            && StateAt(buf, isConnect, HostOff(u))
               == (if isConnect || n > 0 then ReqServerStart else ReqSpacesBeforeUrl)
            && (n > 0 ==> && (forall k | 0 < k <= n :: StateAt(buf, isConnect, k).ReqSchema?)
                          && StateAt(buf, isConnect, n + 1).ReqSchemaSlash?
                          && StateAt(buf, isConnect, n + 2).ReqSchemaSlashSlash?)
  {
    var buf, n := UrlText(u), |u.schema|;
    Pieces(u);
    Slice(buf, 0, HostOff(u), SchemaText(u));
    hide UrlText, StateAt;
    StartsAt(buf, isConnect);
    if n > 0 {
      assert forall i | 0 <= i < n :: buf[i] == u.schema[i];
      SchemaStretch(buf, n);
    }
  }

  lemma LetterStep(c: byte)
    requires IsLetter(c)
    ensures ParseUrlChar(UrlStart(false), c) == ReqSchema == ParseUrlChar(ReqSchema, c)
  {
    Classes(c);
    hide IsUserinfoChar, IsUrlChar;
  }

  function AtOff(u: Url): Option<nat> {
    if u.server.Some? && u.server.value.user.Some? then Some(|u.server.value.user.value|) else None
  }

  lemma ServerServes(s: Server)
    requires ProperServer(s)
    ensures Serves(ServerText(s), if s.user.Some? then Some(|s.user.value|) else None)
  {
    var t, at := ServerText(s), if s.user.Some? then Some(|s.user.value|) else None;
    forall i | 0 <= i < |t|
      ensures if Some(i) == at then t[i] == '@' else ForServer(t[i])
    {
      ServerByte(s, i);
      PartServes(t[i]);
    }
  }

  // What byte i of the host part is.
  lemma ServerByte(s: Server, i: nat)
    requires i < |ServerText(s)|
    ensures var c := ServerText(s)[i];
            if i < |UserOf(s)| then c == UserOf(s)[i]
            else if i < BareOff(s) then c == '@'
            else if i < NameOff(s) then c == '['
            else if i < NameEnd(s) then c == s.host[i - NameOff(s)]
            else if i < ColonOff(s) then c == ']'
            else s.port != [] && if i == ColonOff(s) then c == ':' else c == s.port[i - ColonOff(s) - 1]
    ensures |ServerText(s)| == ColonOff(s) + if s.port != [] then 1 + |s.port| else 0
  {
  }

  lemma PartServes(c: byte)
    ensures ForHost(c) || ForV6(c) || IsDigit(c) || c == ':' ==> ForUser(c)
    ensures IsNum(c) <==> IsDigit(c)
  {
  }

  lemma ServerRegion(u: Url, isConnect: bool)
    requires Written(u, isConnect)
    ensures var buf := UrlText(u);
            && PathOff(u) <= |buf|
            && forall k | HostOff(u) < k <= PathOff(u) ::
                 StateAt(buf, isConnect, k)
                   == if AtOff(u).Some? && k == HostOff(u) + AtOff(u).value + 1 then ReqServerWithAt else ReqServer
  {
    var buf, o, e := UrlText(u), HostOff(u), PathOff(u);
    Pieces(u);
    SchemaRegion(u, isConnect);
    if u.server.Some? {
      ServerServes(u.server.value);
      hide UrlText, StateAt, ServerText;
      forall k | o < k <= e
        ensures StateAt(buf, isConnect, k)
                == if AtOff(u).Some? && k == o + AtOff(u).value + 1 then ReqServerWithAt else ReqServer
      {
        ServerStates(buf, isConnect, o, e, AtOff(u), k);
      }
    }
  }

  // After the host part, or at the start without one.
  predicate BeforePath(s: State) { s.ReqSpacesBeforeUrl? || s.ReqServer? || s.ReqServerWithAt? }

  lemma AtPath(u: Url, isConnect: bool)
    requires Written(u, isConnect)
    ensures PathOff(u) <= |UrlText(u)|
    ensures var s := StateAt(UrlText(u), isConnect, PathOff(u));
            BeforePath(s) && (s.ReqSpacesBeforeUrl? <==> u.server.None?)
  {
    SchemaRegion(u, isConnect);
    ServerRegion(u, isConnect);
    if u.server.Some? { SomeServer(u.server.value); }
    hide UrlText, StateAt;
  }

  lemma SomeServer(s: Server)
    requires ProperServer(s)
    ensures |ServerText(s)| > 0
  {
  }

  lemma PathStretch(buf: seq<byte>, isConnect: bool, a: nat, b: nat)
    requires a < b <= |buf| && (forall i | a <= i < b :: ForPath(buf[i]))
    requires var s := StateAt(buf, isConnect, a);
             if s.ReqSpacesBeforeUrl? then buf[a] == '/' || buf[a] == '*' else BeforePath(s) && buf[a] == '/'
    ensures forall k | a < k <= b :: StateAt(buf, isConnect, k).ReqPath?
  {
    hide ForPath, ParseUrlChar, StateAt;
    var s := StateAt(buf, isConnect, a);
    forall i | a <= i < b
      ensures ParseUrlChar(ReqPath, buf[i]) == ReqPath && (i == a ==> ParseUrlChar(s, buf[i]) == ReqPath)
    {
      PathStep(s, buf[i]);
    }
    Stretch(buf, isConnect, a, b, ReqPath);
  }

  lemma PathRegion(u: Url, isConnect: bool)
    requires Written(u, isConnect)
    ensures var buf := UrlText(u);
            && QueryOff(u) <= |buf|
            && forall k | PathOff(u) < k <= QueryOff(u) :: StateAt(buf, isConnect, k).ReqPath?
  {
    var buf, a, b := UrlText(u), PathOff(u), QueryOff(u);
    Pieces(u);
    Slice(buf, a, b, u.path);
    hide UrlText, StateAt, HostText, SchemaText, PathOff, ForPath;
    AtPath(u, isConnect);
    if u.path != [] { PathStretch(buf, isConnect, a, b); }
  }

  lemma QueryStretch(buf: seq<byte>, isConnect: bool, a: nat, b: nat)
    requires a < b <= |buf| && buf[a] == '?' && forall i | a < i < b :: ForQuery(buf[i])
    requires var s := StateAt(buf, isConnect, a); s.ReqPath? || s.ReqServer? || s.ReqServerWithAt?
    ensures StateAt(buf, isConnect, a + 1).ReqQueryStringStart?
    ensures forall k | a + 1 < k <= b :: StateAt(buf, isConnect, k).ReqQueryString?
  {
    hide ForQuery, ParseUrlChar, StateAt;
    QueryStep(StateAt(buf, isConnect, a), '?');
    Step(buf, isConnect, a);
    forall i | a < i < b
      ensures ParseUrlChar(ReqQueryStringStart, buf[i]) == ReqQueryString == ParseUrlChar(ReqQueryString, buf[i])
    {
      QueryStep(ReqQueryStringStart, buf[i]);
      QueryStep(ReqQueryString, buf[i]);
    }
    if a + 1 < b { Stretch(buf, isConnect, a + 1, b, ReqQueryString); }
  }

  lemma QueryRegion(u: Url, isConnect: bool)
    requires Written(u, isConnect) && u.query.Some?
    ensures var buf := UrlText(u);
            && QueryOff(u) + 1 <= FragmentOff(u) <= |buf|
            && StateAt(buf, isConnect, QueryOff(u) + 1).ReqQueryStringStart?
            && forall k | QueryOff(u) + 1 < k <= FragmentOff(u) :: StateAt(buf, isConnect, k).ReqQueryString?
  {
    hide UrlText, StateAt, FragmentOff, QueryOff, ForQuery, Written;
    QueryBytes(u, isConnect);
    AtQuery(u, isConnect);
    QueryStretch(UrlText(u), isConnect, QueryOff(u), FragmentOff(u));
  }

  lemma QueryBytes(u: Url, isConnect: bool)
    requires Written(u, isConnect) && u.query.Some?
    ensures var buf, a, b := UrlText(u), QueryOff(u), FragmentOff(u);
            a < b <= |buf| && buf[a] == '?' && forall i | a < i < b :: ForQuery(buf[i])
  {
    var buf, a, b := UrlText(u), QueryOff(u), FragmentOff(u);
    Pieces(u);
    Slice(buf, a, b, QueryText(u));
    hide UrlText, HostText, SchemaText, QueryOff, ForQuery;
    assert forall i | a < i < b :: buf[i] == u.query.value[i - a - 1];
  }

  lemma NoPath(u: Url, isConnect: bool)
    requires Written(u, isConnect)
    ensures u.path == [] ==> u.server.Some?
  {
  }

  lemma AtQuery(u: Url, isConnect: bool)
    requires Written(u, isConnect)
    ensures QueryOff(u) <= |UrlText(u)|
    ensures var s := StateAt(UrlText(u), isConnect, QueryOff(u)); s.ReqPath? || s.ReqServer? || s.ReqServerWithAt?
  {
    hide Written, UrlText, StateAt, HostText, SchemaText, PathOff;
    NoPath(u, isConnect);
    PathRegion(u, isConnect);
    AtPath(u, isConnect);
  }

  // Before the fragment.
  lemma AtFragment(u: Url, isConnect: bool)
    requires Written(u, isConnect) && u.fragment.Some?
    ensures FragmentOff(u) <= |UrlText(u)|
    ensures var s := StateAt(UrlText(u), isConnect, FragmentOff(u));
            s.ReqPath? || s.ReqQueryStringStart? || s.ReqQueryString?
  {
    PathRegion(u, isConnect);
    if u.query.Some? { QueryRegion(u, isConnect); }
    hide UrlText, StateAt, HostText;
  }

  lemma {:induction false} SignsAre(v: seq<byte>)
    ensures forall i | 0 <= i < Signs(v) :: v[i] == '#'
    ensures Signs(v) < |v| ==> v[Signs(v)] != '#'
  {
    if v != [] && v[0] == '#' {
      SignsAre(v[1..]);
      assert forall i | 0 < i < Signs(v) :: v[i] == v[1..][i - 1];
    }
  }

  lemma FragmentStretch(buf: seq<byte>, isConnect: bool, a: nat, b: nat)
    requires a < b <= |buf| && (forall i | a <= i < b :: buf[i] == '#')
    requires (forall i | b <= i < |buf| :: ForFragment(buf[i])) && (b < |buf| ==> buf[b] != '#')
    requires var s := StateAt(buf, isConnect, a); s.ReqPath? || s.ReqQueryStringStart? || s.ReqQueryString?
    ensures forall k | a < k <= b :: StateAt(buf, isConnect, k).ReqFragmentStart?
    ensures forall k | b < k <= |buf| :: StateAt(buf, isConnect, k).ReqFragment?
  {
    hide ForFragment, ParseUrlChar, StateAt;
    FragmentStep(StateAt(buf, isConnect, a), '#');
    FragmentStep(ReqFragmentStart, '#');
    Stretch(buf, isConnect, a, b, ReqFragmentStart);
    forall i | b <= i < |buf|
      ensures ParseUrlChar(ReqFragment, buf[i]) == ReqFragment
      ensures i == b ==> ParseUrlChar(ReqFragmentStart, buf[i]) == ReqFragment
    {
      FragmentStep(ReqFragmentStart, buf[i]);
      FragmentStep(ReqFragment, buf[i]);
    }
    if b < |buf| { Stretch(buf, isConnect, b, |buf|, ReqFragment); }
  }

  lemma FragmentRegion(u: Url, isConnect: bool)
    requires Written(u, isConnect) && u.fragment.Some?
    ensures var buf := UrlText(u);
            && FragmentOff(u) < SignsEnd(u) <= |buf|
            && (forall k | FragmentOff(u) < k <= SignsEnd(u) :: StateAt(buf, isConnect, k).ReqFragmentStart?)
            && (forall k | SignsEnd(u) < k <= |buf| :: StateAt(buf, isConnect, k).ReqFragment?)
  {
    var buf, a, v := UrlText(u), FragmentOff(u), u.fragment.value;
    Pieces(u);
    Slice(buf, a, |buf|, FragmentText(u));
    SignsAre(v);
    assert forall i | a < i < |buf| :: buf[i] == v[i - a - 1];
    hide UrlText, StateAt, HostText, SchemaText, QueryText, FragmentOff, ForFragment, Signs;
    AtFragment(u, isConnect);
    FragmentStretch(buf, isConnect, a, SignsEnd(u));
  }

  /* ---- Whose byte is it? ---- */

  // By the parts, the host part as one.
  function OuterOwner(u: Url, i: nat): Option<UrlField> {
    if i < |u.schema| then Some(Schema)
    else if HostOff(u) <= i < PathOff(u) then Some(Host)
    else if PathOff(u) <= i < QueryOff(u) then Some(Path)
    else if QueryOff(u) < i < FragmentOff(u) then Some(Query)
    else if i >= SignsEnd(u) then Some(Fragment)
    else None
  }

  predicate IsAt(u: Url, k: nat) { AtOff(u).Some? && k == HostOff(u) + AtOff(u).value + 1 }

  lemma Regions(u: Url, isConnect: bool, k: nat)
    requires Written(u, isConnect) && 0 < k <= |UrlText(u)|
    ensures var s := StateAt(UrlText(u), isConnect, k);
            InUrl(s) && FieldOf(s) == OuterOwner(u, k - 1) && (s.ReqServerWithAt? <==> IsAt(u, k))
  {
    hide UrlText, StateAt, Written, HostText, QueryText, FragmentText;
    TextEnds(u);
    AtInside(u);
    if k <= HostOff(u) {
      SchemaRegion(u, isConnect);
    } else if k <= PathOff(u) {
      ServerRegion(u, isConnect);
    } else if k <= QueryOff(u) {
      PathRegion(u, isConnect);
    } else if k <= FragmentOff(u) {
      QueryRegion(u, isConnect);
    } else {
      FragmentRegion(u, isConnect);
    }
  }

  lemma TextEnds(u: Url)
    ensures |UrlText(u)| == FragmentOff(u) + |FragmentText(u)|
    ensures u.query.None? ==> FragmentOff(u) == QueryOff(u)
    ensures u.fragment.None? ==> |UrlText(u)| == FragmentOff(u)
    ensures |u.schema| == 0 ==> HostOff(u) == 0
    ensures |u.schema| > 0 ==> HostOff(u) == |u.schema| + 3
  {
    hide HostText;
  }

  lemma AtInside(u: Url)
    ensures AtOff(u).Some? ==> AtOff(u).value < |HostText(u)|
  {
  }

  lemma OuterOwned(u: Url, isConnect: bool)
    requires Written(u, isConnect)
    ensures var buf := UrlText(u);
            && UrlAccepted(buf, isConnect) && (SeesAt(buf, isConnect, |buf|) <==> AtOff(u).Some?)
            && forall i | 0 <= i < |buf| :: FieldAt(buf, isConnect, i) == OuterOwner(u, i)
  {
    var buf := UrlText(u);
    hide UrlText, Written, FieldOf, InUrl, OuterOwner, FieldAt, UrlState;
    forall k | 0 < k <= |buf|
      ensures InUrl(UrlState(UrlStart(isConnect), buf[..k]))
      ensures UrlState(UrlStart(isConnect), buf[..k]).ReqServerWithAt? <==> IsAt(u, k)
    {
      Regions(u, isConnect, k);
    }
    if AtOff(u).Some? {
      AtInside(u);
      Pieces(u);
      var k := HostOff(u) + AtOff(u).value + 1;
      assert IsAt(u, k) && 0 < k <= |buf|;
      assert UrlState(UrlStart(isConnect), buf[..k]).ReqServerWithAt?;
    }
    forall i | 0 <= i < |buf|
      ensures FieldAt(buf, isConnect, i) == OuterOwner(u, i)
    {
      Regions(u, isConnect, i + 1);
      Step(buf, isConnect, i);
    }
  }

  // The host part of the URL is where it was put.
  lemma {:induction false} HostPartIs(buf: seq<byte>, isConnect: bool, o: nat, e: nat, p: nat)
    requires o <= e && p <= |buf| && forall i | 0 <= i < |buf| ::
             FieldAt(buf, isConnect, i) == Some(Host) <==> o <= i < e
    ensures HostPart(buf, isConnect, p) == if p <= o || o == e then None
            else Some(Span(o, (if p < e then p else e) - o))
    decreases p
  {
    hide FieldAt;
    if p > 0 { HostPartIs(buf, isConnect, o, e, p - 1); }
  }

  /* ---- The host automaton. ---- */

  // The states it visits on the text t.
  function HostStateAt(t: seq<byte>, s0: HostState, p: nat): HostState
    requires p <= |t|
  {
    HostRun(s0, t[..p])
  }

  lemma HostStepOn(t: seq<byte>, s0: HostState, p: nat)
    requires p < |t|
    ensures HostStateAt(t, s0, p + 1) == ParseHostChar(HostStateAt(t, s0, p), t[p]) && HostStateAt(t, s0, 0) == s0
  {
    assert t[..p + 1][..p] == t[..p];
    hide ParseHostChar;
  }

  lemma {:induction false} HostStretch(t: seq<byte>, s0: HostState, a: nat, b: nat, r: HostState)
    requires a < b <= |t| && ParseHostChar(HostStateAt(t, s0, a), t[a]) == r
    requires forall i | a < i < b :: ParseHostChar(r, t[i]) == r
    ensures forall k | a < k <= b :: HostStateAt(t, s0, k) == r
    decreases b
  {
    hide ParseHostChar, HostStateAt;
    HostStepOn(t, s0, b - 1);
    if a < b - 1 { HostStretch(t, s0, a, b - 1, r); }
  }

  lemma HostSteps(c: byte)
    ensures ForUser(c) ==> ParseHostChar(UserinfoStart, c) == InUserinfo == ParseHostChar(InUserinfo, c)
    ensures ParseHostChar(UserinfoStart, '@') == HostStart == ParseHostChar(InUserinfo, '@')
    ensures ParseHostChar(HostStart, '[') == V6Start
    ensures ForHost(c) ==> ParseHostChar(HostStart, c) == InHost == ParseHostChar(InHost, c)
    ensures ForV6(c) ==> ParseHostChar(V6Start, c) == InV6 == ParseHostChar(InV6, c)
    ensures ParseHostChar(InV6, ']') == V6End
    ensures ParseHostChar(V6End, ':') == PortStart == ParseHostChar(InHost, ':')
    ensures IsNum(c) ==> ParseHostChar(PortStart, c) == InPort == ParseHostChar(InPort, c)
  {
    Classes(c);
    HostLimits(c);
    assert !IsHostChar(':') && !IsHex(']') && !IsUserinfoChar('@') && !IsHostChar('[');
    hide IsUserinfoChar, IsHostChar, IsHex, ForUser, ForHost, ForV6;
  }

  lemma HostLimits(c: byte)
    ensures ForUser(c) ==> c != '@'
    ensures ForHost(c) ==> c != '['
    ensures ForV6(c) ==> c != ']'
  {
  }

  function FirstState(s: Server): HostState { if s.user.Some? then UserinfoStart else HostStart }

  lemma UserRegion(s: Server)
    requires ProperServer(s)
    ensures var t := ServerText(s);
            && BareOff(s) <= |t| && HostStateAt(t, FirstState(s), BareOff(s)).HostStart?
            && forall k | 0 < k <= |UserOf(s)| :: HostStateAt(t, FirstState(s), k).InUserinfo?
  {
    var t, s0, n := ServerText(s), FirstState(s), |UserOf(s)|;
    ServerByte(s, 0);
    HostStepOn(t, s0, 0);
    if s.user.Some? {
      ServerByte(s, n);
      hide ServerText, HostStateAt;
      forall i | 0 <= i < n
        ensures ParseHostChar(UserinfoStart, t[i]) == InUserinfo == ParseHostChar(InUserinfo, t[i])
      {
        ServerByte(s, i);
        HostSteps(t[i]);
      }
      HostSteps('@');
      hide ParseHostChar;
      if n > 0 { HostStretch(t, s0, 0, n, InUserinfo); }
      HostStepOn(t, s0, n);
    }
  }

  lemma BracketRegion(s: Server)
    requires ProperServer(s)
    ensures var t := ServerText(s);
            && NameOff(s) < |t|
            && HostStateAt(t, FirstState(s), NameOff(s)) == (if s.v6 then V6Start else HostStart)
  {
    var t, s0 := ServerText(s), FirstState(s);
    UserRegion(s);
    ServerByte(s, 0);
    hide ServerText, HostStateAt;
    if s.v6 {
      ServerByte(s, BareOff(s));
      HostSteps('[');
      hide ParseHostChar;
      HostStepOn(t, s0, BareOff(s));
    }
  }

  function NameState(s: Server): HostState { if s.v6 then InV6 else InHost }

  lemma NameRegion(s: Server)
    requires ProperServer(s)
    ensures var t := ServerText(s);
            && NameEnd(s) <= ColonOff(s) <= |t|
            && (forall k | NameOff(s) < k <= NameEnd(s) :: HostStateAt(t, FirstState(s), k) == NameState(s))
            && HostStateAt(t, FirstState(s), ColonOff(s)) == (if s.v6 then V6End else InHost)
  {
    var t, s0, a, b := ServerText(s), FirstState(s), NameOff(s), NameEnd(s);
    BracketRegion(s);
    ServerByte(s, 0);
    hide ServerText, HostStateAt;
    forall i | a <= i < b
      ensures ParseHostChar(if s.v6 then V6Start else HostStart, t[i]) == NameState(s)
      ensures ParseHostChar(NameState(s), t[i]) == NameState(s)
    {
      ServerByte(s, i);
      HostSteps(t[i]);
    }
    HostSteps(']');
    hide ParseHostChar;
    HostStretch(t, s0, a, b, NameState(s));
    if s.v6 {
      ServerByte(s, b);
      HostStepOn(t, s0, b);
    }
  }

  lemma PortRegion(s: Server)
    requires ProperServer(s) && s.port != []
    ensures var t, c := ServerText(s), ColonOff(s);
            && c + 1 < |t| && HostStateAt(t, FirstState(s), c + 1).PortStart?
            && forall k | c + 1 < k <= |t| :: HostStateAt(t, FirstState(s), k).InPort?
  {
    var t, s0, c := ServerText(s), FirstState(s), ColonOff(s);
    NameRegion(s);
    ServerByte(s, 0);
    ServerByte(s, c);
    hide ServerText, HostStateAt;
    HostSteps(':');
    forall i | c < i < |t|
      ensures ParseHostChar(PortStart, t[i]) == InPort == ParseHostChar(InPort, t[i])
    {
      ServerByte(s, i);
      HostSteps(t[i]);
    }
    hide ParseHostChar;
    HostStepOn(t, s0, c);
    HostStretch(t, s0, c + 1, |t|, InPort);
  }

  // Whose byte of the host part it is.
  function InnerOwner(s: Server, i: nat): Option<UrlField> {
    if i < |UserOf(s)| then Some(Userinfo)
    else if NameOff(s) <= i < NameEnd(s) then Some(Host)
    else if i > ColonOff(s) then Some(Port)
    else None
  }

  lemma InnerRegions(s: Server, k: nat)
    requires ProperServer(s) && 0 < k <= |ServerText(s)|
    ensures PartOf(HostStateAt(ServerText(s), FirstState(s), k)) == InnerOwner(s, k - 1)
  {
    hide ServerText, HostStateAt, ProperServer;
    ServerByte(s, 0);
    if k <= BareOff(s) {
      UserRegion(s);
    } else if k <= NameOff(s) {
      BracketRegion(s);
    } else if k <= ColonOff(s) {
      NameRegion(s);
    } else {
      PortRegion(s);
    }
  }

  // The host automaton accepts it, and every byte belongs where it was put.
  lemma InnerOwned(s: Server)
    requires ProperServer(s)
    ensures var t, e := ServerText(s), HostRun(FirstState(s), ServerText(s));
            && !e.HDead? && !HostUnfinished(e) && t != []
            && forall i | 0 <= i < |t| :: PartOf(HostRun(FirstState(s), t[..i + 1])) == InnerOwner(s, i)
  {
    var t := ServerText(s);
    assert t[..|t|] == t;
    ServerByte(s, 0);
    NameRegion(s);
    if s.port != [] { PortRegion(s); }
    var e := HostStateAt(t, FirstState(s), |t|);
    assert e == HostRun(FirstState(s), t) && (e.InPort? || e.InHost? || e.V6End?);
    hide ServerText, ProperServer, HostRun, InnerOwner;
    forall i | 0 <= i < |t|
      ensures PartOf(HostRun(FirstState(s), t[..i + 1])) == InnerOwner(s, i)
    {
      InnerRegions(s, i + 1);
    }
  }

  /* ---- The cut. ---- */

  // The span of a part, or None if it is missing.
  function PartSpan(u: Url, f: UrlField): Option<Span> {
    var s := if u.server.Some? then u.server.value else Server(None, false, [], []);
    var o := HostOff(u);
    match f
    case Schema => Here(0, u.schema)
    case Userinfo => Here(o, UserOf(s))
    case Host => Here(o + NameOff(s), s.host)
    case Port => Here(o + ColonOff(s) + 1, s.port)
    case Path => Here(PathOff(u), u.path)
    case Query => if u.query.Some? then Here(QueryOff(u) + 1, u.query.value) else None
    case Fragment =>
      if u.fragment.None? then None
      else
        var v, n := u.fragment.value, Signs(u.fragment.value);
        Here(FragmentOff(u) + 1 + n, v[n..])
  }

  function Here(off: nat, part: seq<byte>): Option<Span> { if part == [] then None else Some(Span(off, |part|)) }

  // The fields set are the parts that are not missing, and their entries say where they are.
  ghost predicate CutAt(u: Url, set': set<UrlField>, d: Fields) {
    forall f: UrlField ::
      (f in set' <==> PartSpan(u, f).Some?) && (f in set' ==> f in d && PartSpan(u, f) == Some(d[f]))
  }

  // Whose byte it is in the end.
  function Owner(u: Url, i: nat): Option<UrlField> {
    if u.server.Some? && HostOff(u) <= i < PathOff(u) then InnerOwner(u.server.value, i - HostOff(u))
    else OuterOwner(u, i)
  }

  // How long the texts are.
  lemma TextLengths(u: Url)
    ensures u.server.Some? ==> |HostText(u)| == ColonOff(u.server.value)
                                                + (if u.server.value.port != [] then 1 + |u.server.value.port| else 0)
    ensures u.server.None? ==> |HostText(u)| == 0
    ensures |SchemaText(u)| == if u.schema == [] then 0 else |u.schema| + 3
    ensures |QueryText(u)| == if u.query.Some? then 1 + |u.query.value| else 0
    ensures |FragmentText(u)| == if u.fragment.Some? then 1 + |u.fragment.value| else 0
    ensures |UrlText(u)| == FragmentOff(u) + |FragmentText(u)|
  {
  }

  lemma OuterSpan(u: Url, i: nat, f: UrlField)
    requires i < |UrlText(u)| && !(u.server.Some? && HostOff(u) <= i < PathOff(u))
    ensures OuterOwner(u, i) == Some(f) <==> PartSpan(u, f).Some? && PartSpan(u, f).value.Has(i)
  {
    TextLengths(u);
    hide UrlText, HostText, SchemaText, QueryText, FragmentText;
  }

  lemma InnerSpan(u: Url, i: nat, f: UrlField)
    requires u.server.Some? && HostOff(u) <= i < PathOff(u)
    ensures InnerOwner(u.server.value, i - HostOff(u)) == Some(f)
            <==> PartSpan(u, f).Some? && PartSpan(u, f).value.Has(i)
  {
    TextLengths(u);
    hide UrlText, HostText, SchemaText, QueryText, FragmentText;
  }

  lemma OwnerSpan(u: Url, i: nat, f: UrlField)
    requires i < |UrlText(u)|
    ensures Owner(u, i) == Some(f) <==> PartSpan(u, f).Some? && PartSpan(u, f).value.Has(i)
  {
    hide UrlText, PartSpan, InnerOwner, OuterOwner, PathOff, HostOff;
    if u.server.Some? && HostOff(u) <= i < PathOff(u) { InnerSpan(u, i, f); } else { OuterSpan(u, i, f); }
  }

  lemma SpanInside(u: Url, f: UrlField)
    ensures PartSpan(u, f).Some? ==> 0 < PartSpan(u, f).value.len && PartSpan(u, f).value.End() <= |UrlText(u)|
  {
    TextLengths(u);
    hide UrlText, HostText, SchemaText, QueryText, FragmentText;
  }

  // The host ends where 16 bits reach.
  predicate Near(u: Url) { PathOff(u) < 0x1_0000 }

  lemma HostBounds(u: Url, isConnect: bool)
    requires Written(u, isConnect)
    ensures HostOff(u) <= PathOff(u) <= |UrlText(u)| && PathOff(u) == HostOff(u) + |HostText(u)|
    ensures u.server.Some? <==> HostOff(u) < PathOff(u)
  {
    TextEnds(u);
    if u.server.Some? { ServerProper(u, isConnect); }
    hide UrlText, Written, ServerText, SchemaText;
  }

  lemma HostOnly(u: Url, isConnect: bool)
    requires Written(u, isConnect)
    ensures forall i | 0 <= i < |UrlText(u)| ::
              FieldAt(UrlText(u), isConnect, i) == Some(Host) <==> HostOff(u) <= i < PathOff(u)
  {
    OuterOwned(u, isConnect);
    OuterHost(u);
    hide UrlText, FieldAt, HostOff, PathOff, OuterOwner, Written, UrlAccepted, SeesAt;
  }

  // The host part, as the character loop sees it.
  lemma HostSeen(u: Url, isConnect: bool)
    requires Written(u, isConnect)
    ensures var buf := UrlText(u);
            && HostPart(buf, isConnect, |buf|)
               == (if u.server.Some? then Some(Span(HostOff(u), |HostText(u)|)) else None)
            && (u.server.None? ==> !Shows(buf, isConnect, Schema) && !Shows(buf, isConnect, Host))
  {
    hide UrlText, FieldAt, HostOff, PathOff, Written, Shows, HostText;
    HostOnly(u, isConnect);
    HostBounds(u, isConnect);
    if u.server.None? {
      OuterOwned(u, isConnect);
      NoSchemaShown(u, isConnect);
    }
    HostPartIs(UrlText(u), isConnect, HostOff(u), PathOff(u), |UrlText(u)|);
  }

  // Its bytes, as the host automaton sees them.
  lemma HostSorted(u: Url, isConnect: bool, i: nat)
    requires Written(u, isConnect) && u.server.Some? && HostOff(u) <= i < PathOff(u) <= |UrlText(u)|
    ensures PartAt(UrlText(u), HostOff(u), FirstState(u.server.value), i) == InnerOwner(u.server.value, i - HostOff(u))
  {
    hide UrlText, ServerText, HostText, HostOff, PathOff, HostRun, InnerOwner, Written, ProperServer, HostUnfinished;
    var buf, s, o, e := UrlText(u), u.server.value, HostOff(u), PathOff(u);
    ServerProper(u, isConnect);
    HostPlace(u);
    InnerOwned(s);
    PartAtIs(buf, o, e, FirstState(s), i);
  }

  // The host automaton starts as there is user information or not.
  lemma HostFirstIs(u: Url, isConnect: bool)
    requires Written(u, isConnect) && u.server.Some?
    ensures HostFirst(SeesAt(UrlText(u), isConnect, |UrlText(u)|)) == FirstState(u.server.value)
  {
    OuterOwned(u, isConnect);
    hide UrlText, Written, SeesAt, UrlAccepted, FieldAt, OuterOwner;
  }

  // It accepts the host part.
  lemma HostTaken(u: Url, isConnect: bool)
    requires Written(u, isConnect)
    ensures HostAccepted(UrlText(u), isConnect)
  {
    hide Written, UrlText, HostText, ServerText, HostOff, PathOff, HostRun, SeesAt, Shows, HostPart, InnerOwner;
    hide ProperServer, HostUnfinished, HostFirst, FirstState, HostEnds;
    HostSeen(u, isConnect);
    if u.server.Some? { HostSpanEnds(u, isConnect); }
  }

  lemma HostSpanEnds(u: Url, isConnect: bool)
    requires Written(u, isConnect) && u.server.Some?
    ensures HostEnds(UrlText(u), isConnect, Span(HostOff(u), |HostText(u)|))
  {
    hide Written, UrlText, HostText, ServerText, HostOff, PathOff, HostRun, SeesAt, InnerOwner, ProperServer;
    hide HostUnfinished, HostFirst, FirstState;
    HostBounds(u, isConnect);
    ServerProper(u, isConnect);
    InnerOwned(u.server.value);
    HostPlace(u);
    HostFirstIs(u, isConnect);
  }

  lemma OuterAt(u: Url, isConnect: bool, i: nat)
    requires Written(u, isConnect) && i < |UrlText(u)|
    ensures FieldAt(UrlText(u), isConnect, i) == OuterOwner(u, i)
  {
    hide UrlText, FieldAt, OuterOwner, Written, UrlAccepted, SeesAt;
    OuterOwned(u, isConnect);
  }

  lemma FinalOwned(u: Url, isConnect: bool, i: nat)
    requires Written(u, isConnect) && i < |UrlText(u)|
    ensures FinalAt(UrlText(u), isConnect, i) == Owner(u, i)
  {
    hide UrlText, HostText, HostOff, PathOff, SeesAt, Shows, HostPart, Written, FieldAt, PartAt, HostAccepted;
    hide InnerOwner, OuterOwner, HostFirst, FirstState;
    HostSeen(u, isConnect);
    HostOnly(u, isConnect);
    HostBounds(u, isConnect);
    OuterAt(u, isConnect, i);
    if u.server.Some? { HostFirstIs(u, isConnect); }
    if u.server.Some? && HostOff(u) <= i < PathOff(u) { HostSorted(u, isConnect, i); }
  }

  // What the two automata make of the URL.
  lemma Read(u: Url, isConnect: bool, was: Span)
    requires Written(u, isConnect) && Near(u)
    ensures var buf := UrlText(u);
            && UrlAccepted(buf, isConnect) && HostAccepted(buf, isConnect) && Straight(buf, isConnect, was)
            && forall i | 0 <= i < |buf| :: FinalAt(buf, isConnect, i) == Owner(u, i)
  {
    OuterOwned(u, isConnect);
    HostSeen(u, isConnect);
    HostBounds(u, isConnect);
    HostTaken(u, isConnect);
    hide UrlText, UrlAccepted, HostAccepted, FinalAt, Owner, HostOff, PathOff, HostText, Shows, HostPart, Written;
    hide FieldAt, SeesAt, OuterOwner, HostFirst, FirstState;
    forall i | 0 <= i < |UrlText(u)|
      ensures FinalAt(UrlText(u), isConnect, i) == Owner(u, i)
    {
      FinalOwned(u, isConnect, i);
    }
  }

  lemma PartAtIs(buf: seq<byte>, o: nat, e: nat, s0: HostState, i: nat)
    requires o <= i < e <= |buf|
    ensures PartAt(buf, o, s0, i) == PartOf(HostRun(s0, buf[o..e][..i - o + 1]))
  {
    hide HostRun;
    assert buf[o..i + 1] == buf[o..e][..i - o + 1];
  }

  lemma ServerProper(u: Url, isConnect: bool)
    requires Written(u, isConnect) && u.server.Some?
    ensures ProperServer(u.server.value) && ServerText(u.server.value) != []
  {
    SomeServer(u.server.value);
  }

  // Only the bytes of the host part are of the host, and only those of the schema of the schema.
  lemma OuterHost(u: Url)
    ensures forall i | 0 <= i < |UrlText(u)| :: OuterOwner(u, i) == Some(Host) <==> HostOff(u) <= i < PathOff(u)
  {
    TextLengths(u);
    hide UrlText, HostText, SchemaText, QueryText, FragmentText;
  }

  lemma NoSchemaShown(u: Url, isConnect: bool)
    requires Written(u, isConnect) && u.server.None?
    requires forall i | 0 <= i < |UrlText(u)| :: FieldAt(UrlText(u), isConnect, i) == OuterOwner(u, i)
    ensures !Shows(UrlText(u), isConnect, Schema) && !Shows(UrlText(u), isConnect, Host)
  {
    TextLengths(u);
    assert u.schema == [];
    hide UrlText, FieldAt, HostText, SchemaText, QueryText, FragmentText;
    forall i | 0 <= i < |UrlText(u)|
      ensures FieldAt(UrlText(u), isConnect, i) !in {Some(Schema), Some(Host)}
    {
      assert FieldAt(UrlText(u), isConnect, i) == OuterOwner(u, i);
    }
  }

  // What such a cut looks like.
  lemma CutIs(u: Url, isConnect: bool, set': set<UrlField>, now: Fields, d: Fields)
    requires Cut(UrlText(u), isConnect, set', now, d)
    requires forall i | 0 <= i < |UrlText(u)| :: FinalAt(UrlText(u), isConnect, i) == Owner(u, i)
    ensures CutAt(u, set', d)
  {
    var buf := UrlText(u);
    hide UrlText, Owner, FinalAt, PartSpan, HostCut, Ordered, Covered, PortValue;
    assert Total(d);
    forall f: UrlField
      ensures f in set' <==> PartSpan(u, f).Some?
      ensures f in set' ==> f in d && PartSpan(u, f) == Some(d[f])
    {
      forall i | 0 <= i < |buf|
        ensures f in set' && f in d && d[f].Has(i) <==> PartSpan(u, f).Some? && PartSpan(u, f).value.Has(i)
      {
        OwnerSpan(u, i, f);
      }
      SpanInside(u, f);
      SameSpan(|buf|, f in set', d[f], PartSpan(u, f));
    }
  }

  lemma SameSpan(n: nat, set': bool, s: Span, t: Option<Span>)
    requires set' ==> 0 < s.len && s.End() <= n
    requires t.Some? ==> 0 < t.value.len && t.value.End() <= n
    requires forall i | 0 <= i < n :: set' && s.Has(i) <==> t.Some? && t.value.Has(i)
    ensures set' <==> t.Some?
    ensures set' ==> t == Some(s)
  {
    if set' {
      assert s.Has(s.off) && s.Has(s.End() - 1) && !s.Has(s.End());
      assert s.off > 0 ==> !s.Has(s.off - 1);
    }
    if t.Some? {
      assert t.value.Has(t.value.off) && t.value.Has(t.value.End() - 1);
    }
  }

  lemma ShowsHost(u: Url, isConnect: bool)
    requires Written(u, isConnect)
    ensures Shows(UrlText(u), isConnect, Schema) ==> Shows(UrlText(u), isConnect, Host)
  {
    var buf := UrlText(u);
    OuterOwned(u, isConnect);
    TextLengths(u);
    OuterHost(u);
    if u.server.Some? { SomeServer(u.server.value); }
    hide UrlText, FieldAt, HostText, SchemaText, QueryText, FragmentText, ServerText, UrlAccepted, SeesAt, ProperServer;
    if Shows(buf, isConnect, Schema) {
      var i :| 0 <= i < |buf| && FieldAt(buf, isConnect, i) == Some(Schema);
      assert OuterOwner(u, i) == Some(Schema);
      assert u.server.Some? && FieldAt(buf, isConnect, HostOff(u)) == Some(Host);
    }
  }

  lemma PortIs(u: Url, isConnect: bool, d: Fields)
    requires Written(u, isConnect) && Port in d && PartSpan(u, Port) == Some(d[Port])
    ensures u.server.Some? && Digits(u.server.value.port) && PortValue(UrlText(u), d) == Decimal(u.server.value.port)
  {
    hide Written, Decimal, UrlText, Digits, ServerText, HostOff, PartSpan, ColonOff, PortValue;
    PortThere(u);
    PortPlace(u, isConnect);
    PortRead(UrlText(u), d, u.server.value.port);
  }

  lemma PortRead(buf: seq<byte>, d: Fields, digits: seq<byte>)
    requires Port in d && d[Port].End() <= |buf| && buf[d[Port].off..d[Port].End()] == digits && Digits(digits)
    ensures PortValue(buf, d) == Decimal(digits)
  {
  }

  lemma PortThere(u: Url)
    requires PartSpan(u, Port).Some?
    ensures u.server.Some? && u.server.value.port != []
    ensures var s := u.server.value; PartSpan(u, Port) == Some(Span(HostOff(u) + ColonOff(s) + 1, |s.port|))
  {
  }

  lemma NoPort(u: Url, isConnect: bool)
    requires Written(u, isConnect) && PartSpan(u, Port).None? && u.server.Some?
    ensures u.server.value.port == [] && Digits([]) && Decimal([]) == 0
  {
  }

  lemma PortPlace(u: Url, isConnect: bool)
    requires Written(u, isConnect) && u.server.Some? && u.server.value.port != []
    ensures var s, a := u.server.value, HostOff(u) + ColonOff(u.server.value) + 1;
            && a + |s.port| <= |UrlText(u)| && UrlText(u)[a..a + |s.port|] == s.port
            && Digits(s.port)
  {
    var s, o, c := u.server.value, HostOff(u), ColonOff(u.server.value) + 1;
    hide UrlText, ServerText, Decimal, Digits, HostText, SchemaText, Written;
    PortDigits(u, isConnect);
    TextLengths(u);
    HostPlace(u);
    PortText(s);
    Deeper(UrlText(u), o, PathOff(u), c);
  }

  lemma PortDigits(u: Url, isConnect: bool)
    requires Written(u, isConnect) && u.server.Some?
    ensures Digits(u.server.value.port)
  {
    hide Digits, Decimal;
  }

  lemma HostPlace(u: Url)
    requires u.server.Some?
    ensures PathOff(u) <= |UrlText(u)| && UrlText(u)[HostOff(u)..PathOff(u)] == ServerText(u.server.value)
  {
    Pieces(u);
  }

  lemma Deeper(buf: seq<byte>, o: nat, e: nat, c: nat)
    requires o + c <= e <= |buf|
    ensures buf[o + c..e] == buf[o..e][c..]
  {
  }

  lemma PortText(s: Server)
    requires s.port != []
    ensures ColonOff(s) + 1 <= |ServerText(s)| && ServerText(s)[ColonOff(s) + 1..] == s.port
  {
    var t := ServerText(s);
    ServerByte(s, 0);
    hide ServerText;
    forall i | 0 <= i < |s.port|
      ensures t[ColonOff(s) + 1..][i] == s.port[i]
    {
      ServerByte(s, ColonOff(s) + 1 + i);
    }
  }

  lemma ConnectSets(u: Url, set': set<UrlField>, d: Fields)
    requires ProperUrl(u, true) && CutAt(u, set', d)
    ensures set' == {Host, Port}
  {
    hide ProperServer, HostText;
    assert u.server.value.host != [] by { SomeHostName(u); }
  }

  lemma SomeHostName(u: Url)
    requires ProperUrl(u, true)
    ensures u.server.Some? && u.server.value.host != []
  {
  }

  lemma Limits(u: Url, isConnect: bool)
    requires ProperUrl(u, isConnect)
    ensures Written(u, isConnect)
    ensures u.server.Some? ==> Digits(u.server.value.port) && Decimal(u.server.value.port) <= 0xffff
  {
    hide Decimal;
  }

  // The parts of the URL are what http_parser_parse_url finds, whatever the structure held before: exactly the fields
  // of the parts that are there are set, each entry is where its part is, and the port is the number its digits say.
  method ParsePrinted(p: ParsedUrl, u: Url, isConnect: bool) returns (r: int)
    requires Total(p.fieldData) && Fits(p.fieldData) && ProperUrl(u, isConnect) && Near(u)
    modifies p
    ensures r == 0 && Total(p.fieldData)
    ensures forall f: UrlField :: (f in p.fieldSet <==> PartSpan(u, f).Some?)
                                  && (f in p.fieldSet ==> p.fieldData[f] == Short(PartSpan(u, f).value))
    ensures p.port == if u.server.Some? then Decimal(u.server.value.port) else 0
  {
    hide UrlText, UrlAccepted, HostAccepted, HostPasses, Straight, Shows, FinalAt, Owner, PartSpan, ProperUrl, Short;
    hide Delimited, OuterStored, Sets, Near, Written, Decimal;
    Limits(u, isConnect);
    ghost var buf, was := UrlText(u), p.fieldData[Host];
    Read(u, isConnect, was);
    StraightPasses(buf, isConnect, was);
    ShowsHost(u, isConnect);
    ghost var d;
    r, d := p.ParseUrl(UrlText(u), isConnect);
    CutIs(u, isConnect, p.fieldSet, p.fieldData, d);
    if isConnect { ConnectSets(u, p.fieldSet, d); }
    if PartSpan(u, Port).Some? { PortIs(u, isConnect, d); } else if u.server.Some? { NoPort(u, isConnect); }
  }

  lemma SomeForm(u: Url, isConnect: bool)
    requires Written(u, isConnect)
    ensures u.server.Some? || u.path != []
  {
  }

  // A request line may have any such URL: the streaming parser accepts it, and it may end there.
  lemma InRequests(u: Url, isConnect: bool)
    requires Written(u, isConnect)
    ensures var buf := UrlText(u);
            buf != [] && UrlAccepted(buf, isConnect) && Switch.UrlMayEnd(StateAt(buf, isConnect, |buf|))
  {
    hide UrlText, StateAt, UrlAccepted, Written, HostText, QueryText, HostOff, SchemaText, FieldAt, SeesAt, AtOff;
    hide OuterOwner;
    OuterOwned(u, isConnect);
    SomeForm(u, isConnect);
    TextEnds(u);
    HostBounds(u, isConnect);
    if u.fragment.Some? {
      FragmentRegion(u, isConnect);
    } else if u.query.Some? {
      QueryRegion(u, isConnect);
    } else if u.path != [] {
      PathRegion(u, isConnect);
    } else {
      ServerRegion(u, isConnect);
    }
  }
}
