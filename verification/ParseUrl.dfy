/** `http_parser_parse_url`: a URL is cut into fields by the automaton shared with the streaming parser, and its host
    part again by a second automaton (src/http_parser.c:1921-2156). */
module ParseUrl {
  import opened Options
  import opened Bytes
  import opened ParserState
  import opened UrlChars

  datatype UrlField = Schema | Host | Port | Path | Query | Fragment | Userinfo

  datatype Span = Span(off: nat, len: nat) {
    function End(): nat { off + len }
    predicate Has(i: int) { off <= i < End() }
  }

  type Fields = map<UrlField, Span>

  // field_data has an entry for every field.
  ghost predicate Total(data: Fields) { forall f: UrlField :: f in data }

  // What is left of a number in 16 bits.
  function Low(n: nat): (m: nat)
    ensures m < 0x1_0000 && (n < 0x1_0000 ==> m == n) && m <= n
  {
    n % 0x1_0000
  }

  function Short(s: Span): (t: Span)
    ensures t.End() <= s.End() && t.off < 0x1_0000 && t.len < 0x1_0000
    ensures s.off < 0x1_0000 && s.len < 0x1_0000 ==> t == s
  {
    Span(Low(s.off), Low(s.len))
  }

  // 16 bits hold the entries.
  ghost predicate Fits(data: Fields) {
    forall f: UrlField | f in data :: data[f].off < 0x1_0000 && data[f].len < 0x1_0000
  }

  // What is stored of the fields in the set are the entries of d, in 16 bits.
  ghost predicate Agree(set': set<UrlField>, now: Fields, d: Fields) {
    forall f | f in set' :: f in now && f in d && now[f] == Short(d[f])
  }

  // The entries of the fields that are set are those of d, in 16 bits; the others are as they were.
  ghost predicate Stored(now: Fields, was: Fields, set': set<UrlField>, d: Fields) {
    forall f: UrlField :: f in now && f in was && f in d && now[f] == if f in set' then Short(d[f]) else was[f]
  }

  // The order of the fields in a URL.
  function Rank(f: UrlField): nat {
    match f
    case Schema => 0 case Userinfo => 1 case Host => 2 case Port => 3 case Path => 4 case Query => 5 case Fragment => 6
  }

  predicate IsDelimiter(c: byte) { c == ':' || c == '/' || c == '?' || c == '#' || c == '@' || c == '[' || c == ']' }

  ghost predicate InField(set': set<UrlField>, data: Fields, i: int) {
    exists f :: f in set' && f in data && data[f].Has(i)
  }

  // The fields that are set are non-empty and end by p.
  ghost predicate Bounded(p: nat, set': set<UrlField>, data: Fields) {
    Total(data) && forall f | f in set' :: f in data && 0 < data[f].len && data[f].End() <= p
  }

  // They are pairwise disjoint and in order.
  ghost predicate Ordered(set': set<UrlField>, data: Fields) {
    forall f, g | f in set' && g in set' && Rank(f) < Rank(g) :: f in data && g in data && data[f].End() <= data[g].off
  }

  // Every byte before p outside them is a delimiter.
  ghost predicate Covered(buf: seq<byte>, p: nat, set': set<UrlField>, data: Fields) {
    p <= |buf| && forall i | 0 <= i < p :: IsDelimiter(buf[i]) || InField(set', data, i)
  }

  ghost predicate Layout(buf: seq<byte>, p: nat, set': set<UrlField>, data: Fields) {
    Bounded(p, set', data) && Ordered(set', data) && Covered(buf, p, set', data)
  }

  lemma LayoutSkip(buf: seq<byte>, p: nat, set': set<UrlField>, data: Fields)
    requires Layout(buf, p, set', data) && p < |buf| && IsDelimiter(buf[p])
    ensures Layout(buf, p + 1, set', data)
  {
    hide Ordered, InField;
  }

  // A field is opened or grown at p; it comes after all the others.
  function Grown(data: Fields, set': set<UrlField>, f: UrlField, p: nat): Fields
    requires f in set' ==> f in data
  {
    data[f := if f in set' then Span(data[f].off, data[f].len + 1) else Span(p, 1)]
  }

  ghost predicate Growable(p: nat, set': set<UrlField>, data: Fields, f: UrlField) {
    Bounded(p, set', data) && (f in set' ==> data[f].End() == p) && forall g | g in set' && g != f :: Rank(g) < Rank(f)
  }

  lemma BoundedTake(p: nat, set': set<UrlField>, data: Fields, f: UrlField)
    requires Growable(p, set', data, f)
    ensures Bounded(p + 1, set' + {f}, Grown(data, set', f, p))
  {
    hide Rank;
    var data' := Grown(data, set', f, p);
  }

  lemma OrderedTake(p: nat, set': set<UrlField>, data: Fields, f: UrlField)
    requires Growable(p, set', data, f) && Ordered(set', data)
    ensures Ordered(set' + {f}, Grown(data, set', f, p))
  {
    hide Rank;
    var data' := Grown(data, set', f, p);
    forall g, h | g in set' + {f} && h in set' + {f} && Rank(g) < Rank(h)
      ensures g in data' && h in data' && data'[g].End() <= data'[h].off
    {
      assert g in set';
      if h == f && f !in set' { assert data[g].End() <= p; } else { assert data[g].End() <= data[h].off; }
    }
  }

  lemma CoveredTake(buf: seq<byte>, p: nat, set': set<UrlField>, data: Fields, f: UrlField)
    requires Growable(p, set', data, f) && Covered(buf, p, set', data) && p < |buf|
    ensures Covered(buf, p + 1, set' + {f}, Grown(data, set', f, p))
  {
    hide Rank, IsDelimiter, InField;
    var data' := Grown(data, set', f, p);
    forall i | 0 <= i < p + 1
      ensures IsDelimiter(buf[i]) || InField(set' + {f}, data', i)
    {
      if i == p {
        Inside(set' + {f}, data', f, i);
      } else if InField(set', data, i) {
        StillInside(set', data, f, data', i);
      }
    }
  }

  lemma LayoutTake(buf: seq<byte>, p: nat, set': set<UrlField>, data: Fields, f: UrlField)
    requires Layout(buf, p, set', data) && p < |buf| && Growable(p, set', data, f)
    ensures Layout(buf, p + 1, set' + {f}, Grown(data, set', f, p))
  {
    BoundedTake(p, set', data, f);
    OrderedTake(p, set', data, f);
    CoveredTake(buf, p, set', data, f);
  }

  lemma Inside(set': set<UrlField>, data: Fields, f: UrlField, i: int)
    requires f in set' && f in data && data[f].Has(i)
    ensures InField(set', data, i)
  {
  }

  lemma StillInside(set': set<UrlField>, data: Fields, f: UrlField, data': Fields, i: int)
    requires InField(set', data, i) && f in data'
    requires forall g | g in data && g != f :: g in data' && data'[g] == data[g]
    requires f in set' && f in data ==> data'[f].off <= data[f].off && data[f].End() <= data'[f].End()
    ensures InField(set' + {f}, data', i)
  {
    var g :| g in set' && g in data && data[g].Has(i);
    assert data'[g].Has(i);
  }

  /* ---- The character loop. ---- */

  // The field a character belongs to, by the state it leads to.
  function FieldOf(s: State): Option<UrlField> {
    if s.ReqSchema? then Some(Schema)
    else if s.ReqServer? || s.ReqServerWithAt? then Some(Host)
    else if s.ReqPath? then Some(Path)
    else if s.ReqQueryString? then Some(Query)
    else if s.ReqFragment? then Some(Fragment)
    else None
  }

  // The fields that may have been set when the automaton is in state s.
  function Allowed(s: State): set<UrlField> {
    if s.ReqSchema? || s.ReqSchemaSlash? || s.ReqSchemaSlashSlash? || s.ReqServerStart? then {Schema}
    else if s.ReqServer? || s.ReqServerWithAt? then {Schema, Host}
    else if s.ReqPath? || s.ReqQueryStringStart? then {Schema, Host, Path}
    else if s.ReqQueryString? || s.ReqFragmentStart? then {Schema, Host, Path, Query}
    else if s.ReqFragment? then {Schema, Host, Path, Query, Fragment}
    else {}
  }

  // What one character does to the state, as far as fields are concerned.
  lemma NextState(s: State, ch: byte)
    requires (s.ReqSpacesBeforeUrl? || InUrl(s)) && !ParseUrlChar(s, ch).Dead?
    ensures var r, f := ParseUrlChar(s, ch), FieldOf(ParseUrlChar(s, ch));
            && Allowed(s) <= Allowed(r)
            && (f.None? ==> IsDelimiter(ch))
            && (f.Some? && f != FieldOf(s) ==> f.value !in Allowed(s))
            && (f.Some? ==> f.value in Allowed(r) && forall g | g in Allowed(s) && g != f.value ::
                Rank(g) < Rank(f.value))
            && (FieldOf(s) == Some(Host) && f != Some(Host) ==> ch == '/' || ch == '?')
  {
    hide IsUrlChar, IsUserinfoChar, IsAlpha;
  }

  /* ---- The states a URL visits. ---- */

  function UrlStart(isConnect: bool): State { if isConnect then ReqServerStart else ReqSpacesBeforeUrl }

  function UrlState(s: State, url: seq<byte>): State {
    if url == [] then s else ParseUrlChar(UrlState(s, url[..|url| - 1]), url[|url| - 1])
  }

  // Every character of the URL leads to one of the automaton's URL states.
  ghost predicate UrlAccepted(url: seq<byte>, isConnect: bool) { AcceptedTo(url, isConnect, |url|) }

  ghost predicate AcceptedTo(url: seq<byte>, isConnect: bool, p: nat) {
    forall k | 0 < k <= p && k <= |url| :: InUrl(UrlState(UrlStart(isConnect), url[..k]))
  }

  // The field of byte i: that of the state it leads to.
  function FieldAt(buf: seq<byte>, isConnect: bool, i: nat): Option<UrlField>
    requires i < |buf|
  {
    FieldOf(UrlState(UrlStart(isConnect), buf[..i + 1]))
  }

  // Among the first p bytes, field f is set and has byte i exactly when that byte leads to a state of f.
  ghost predicate Exact(buf: seq<byte>, isConnect: bool, p: nat, set': set<UrlField>, data: Fields) {
    p <= |buf| && forall i, f | 0 <= i < p ::
      (f in set' && f in data && data[f].Has(i)) <==> FieldAt(buf, isConnect, i) == Some(f)
  }

  lemma ExactSkip(buf: seq<byte>, isConnect: bool, p: nat, set': set<UrlField>, data: Fields)
    requires Exact(buf, isConnect, p, set', data) && Bounded(p, set', data) && p < |buf|
    requires FieldAt(buf, isConnect, p).None?
    ensures Exact(buf, isConnect, p + 1, set', data)
  {
    hide FieldAt;
  }

  lemma ExactTake(buf: seq<byte>, isConnect: bool, p: nat, set': set<UrlField>, data: Fields, f: UrlField)
    requires Exact(buf, isConnect, p, set', data) && Growable(p, set', data, f) && p < |buf|
    requires FieldAt(buf, isConnect, p) == Some(f)
    ensures Exact(buf, isConnect, p + 1, set' + {f}, Grown(data, set', f, p))
  {
    hide FieldAt, Rank;
    var set2, data2 := set' + {f}, Grown(data, set', f, p);
    forall i, g | 0 <= i < p + 1
      ensures (g in set2 && g in data2 && data2[g].Has(i)) <==> FieldAt(buf, isConnect, i) == Some(g)
    {
      if i < p { assert (g in set' && g in data && data[g].Has(i)) <==> FieldAt(buf, isConnect, i) == Some(g); }
    }
  }

  // The host part, user information and port included: the bytes before p that lead to host states, if any.
  function HostPart(buf: seq<byte>, isConnect: bool, p: nat): (h: Option<Span>)
    requires p <= |buf|
    ensures h.Some? ==> h.value.End() <= p
  {
    if p == 0 then None
    else
      var h := HostPart(buf, isConnect, p - 1);
      if FieldAt(buf, isConnect, p - 1) != Some(Host) then h
      else Some(if h.None? then Span(p - 1, 1) else Span(h.value.off, h.value.len + 1))
  }

  // The entry for the host is that part.
  ghost predicate HostIs(set': set<UrlField>, data: Fields, h: Option<Span>) {
    if Host in set' then Host in data && h == Some(data[Host]) else h.None?
  }

  lemma HostPartTake(buf: seq<byte>, isConnect: bool, p: nat, set': set<UrlField>, data: Fields, f: UrlField)
    requires p < |buf| && f in data && HostIs(set', data, HostPart(buf, isConnect, p))
    requires FieldAt(buf, isConnect, p) == Some(f)
    ensures HostIs(set' + {f}, Grown(data, set', f, p), HostPart(buf, isConnect, p + 1))
  {
    hide FieldAt;
  }

  // Whether an '@' was met in the host part.
  ghost predicate SeesAt(buf: seq<byte>, isConnect: bool, p: nat) {
    exists k | 0 < k <= p <= |buf| :: UrlState(UrlStart(isConnect), buf[..k]).ReqServerWithAt?
  }

  // A host that is over is followed by a slash or a question mark.
  ghost predicate HostOver(buf: seq<byte>, p: nat, set': set<UrlField>, data: Fields) {
    Host in set' && Host in data ==>
      data[Host].End() < p <= |buf| && (buf[data[Host].End()] == '/' || buf[data[Host].End()] == '?')
  }

  // The state, the fields set and the last of them, at position p.
  ghost predicate Tracked(p: nat, s: State, set': set<UrlField>, data: Fields, last: Option<UrlField>) {
    && (s.ReqSpacesBeforeUrl? || InUrl(s)) && set' <= Allowed(s)
    && (FieldOf(s).Some? ==> FieldOf(s).value in set' && FieldOf(s).value in data && data[FieldOf(s).value].End() == p
                             && last == FieldOf(s))
    && (last.Some? ==> last.value in set')
  }

  ghost predicate HostTracked(buf: seq<byte>, p: nat, s: State, set': set<UrlField>, data: Fields) {
    FieldOf(s) != Some(Host) ==> HostOver(buf, p, set', data)
  }

  // The loop's invariant at position p.
  ghost predicate Scan(buf: seq<byte>, p: nat, s: State, set': set<UrlField>, data: Fields, last: Option<UrlField>) {
    Tracked(p, s, set', data, last) && HostTracked(buf, p, s, set', data) && Layout(buf, p, set', data)
  }

  // The fields after one more character of field f.
  function Extend(data: Fields, f: UrlField, last: Option<UrlField>, p: nat): (e: Fields)
    requires f in data
    ensures e.Keys == data.Keys
  {
    data[f := if last == Some(f) then Span(data[f].off, data[f].len + 1) else Span(p, 1)]
  }

  lemma LowGrows(n: nat)
    ensures Low(Low(n) + 1) == Low(n + 1)
  {
  }

  // A field that grows in 16 bits, or moves.
  lemma ShortGrows(s: Span, p: nat)
    ensures var t := Short(s);
            && Short(Span(t.off, t.len + 1)) == Short(Span(s.off, s.len + 1)) == Span(t.off, Low(t.len + 1))
            && Short(Span(p, s.len + 1)) == Span(Low(p), Low(t.len + 1)) && Short(Span(p, 1)) == Span(Low(p), 1)
  {
    LowGrows(s.len);
    hide Low;
  }

  // Storing the same in 16 bits.
  lemma StoredTake(
    now: Fields, was: Fields, set': set<UrlField>, d: Fields, f: UrlField, last: Option<UrlField>, p: nat)
    requires Stored(now, was, set', d) && f in now && f in d && (last == Some(f) ==> f in set')
    ensures Stored(now[f := Short(Extend(now, f, last, p)[f])], was, set' + {f}, Extend(d, f, last, p))
  {
    ShortGrows(d[f], p);
    hide Short, Low;
  }

  lemma ScanSkip(buf: seq<byte>, p: nat, s: State, r: State, set': set<UrlField>, data: Fields, last: Option<UrlField>)
    requires Scan(buf, p, s, set', data, last) && p < |buf| && r == ParseUrlChar(s, buf[p]) && !r.Dead?
    requires FieldOf(r).None?
    ensures Scan(buf, p + 1, r, set', data, last)
  {
    NextState(s, buf[p]);
    hide ParseUrlChar, FieldOf, Allowed, Ordered, Covered;
    LayoutSkip(buf, p, set', data);
  }

  lemma ScanTake(buf: seq<byte>, p: nat, s: State, r: State, set': set<UrlField>, data: Fields, last: Option<UrlField>)
    requires Scan(buf, p, s, set', data, last) && p < |buf| && r == ParseUrlChar(s, buf[p]) && !r.Dead?
    requires FieldOf(r).Some?
    ensures FieldOf(r).value in data
    ensures Scan(buf, p + 1, r, set' + {FieldOf(r).value}, Extend(data, FieldOf(r).value, last, p), FieldOf(r))
  {
    var f := FieldOf(r).value;
    NextState(s, buf[p]);
    Extends(p, s, buf[p], set', data, last);
    hide ParseUrlChar, Ordered, Covered, FieldOf, Allowed, Rank, Extend, Tracked, HostTracked;
    LayoutTake(buf, p, set', data, f);
    TrackedTake(p, s, buf[p], set', data, last);
    HostTrackedTake(buf, p, s, set', data, f, r);
  }

  // The fields grow as the layout needs it.
  lemma Extends(p: nat, s: State, ch: byte, set': set<UrlField>, data: Fields, last: Option<UrlField>)
    requires Tracked(p, s, set', data, last) && Bounded(p, set', data)
    requires !ParseUrlChar(s, ch).Dead? && FieldOf(ParseUrlChar(s, ch)).Some?
    ensures var f := FieldOf(ParseUrlChar(s, ch)).value;
            f in data && Growable(p, set', data, f) && Extend(data, f, last, p) == Grown(data, set', f, p)
  {
    NextState(s, ch);
    hide ParseUrlChar, FieldOf, Allowed, Rank;
  }

  lemma TrackedTake(p: nat, s: State, ch: byte, set': set<UrlField>, data: Fields, last: Option<UrlField>)
    requires Tracked(p, s, set', data, last) && Bounded(p, set', data)
    requires !ParseUrlChar(s, ch).Dead? && FieldOf(ParseUrlChar(s, ch)).Some?
    ensures var r, f := ParseUrlChar(s, ch), FieldOf(ParseUrlChar(s, ch)).value;
            f in data && Growable(p, set', data, f) && Tracked(p + 1, r, set' + {f}, Grown(data, set', f, p), Some(f))
  {
    NextState(s, ch);
    Extends(p, s, ch, set', data, last);
    hide ParseUrlChar, FieldOf, Allowed, Rank, Bounded;
  }

  lemma HostTrackedTake(buf: seq<byte>, p: nat, s: State, set': set<UrlField>, data: Fields, f: UrlField, r: State)
    requires HostTracked(buf, p, s, set', data) && Growable(p, set', data, f) && p < |buf|
    requires FieldOf(r) == Some(f) && (FieldOf(s) == Some(Host) && f != Host ==> buf[p] == '/' || buf[p] == '?')
    requires FieldOf(s) == Some(Host) ==> Host in data && data[Host].End() == p
    ensures HostTracked(buf, p + 1, r, set' + {f}, Grown(data, set', f, p))
  {
    hide FieldOf, Rank;
  }

  /* ---- The host part. ---- */

  datatype HostState =
    HDead | UserinfoStart | InUserinfo | HostStart | V6Start | InHost | InV6 | V6End | PortStart | InPort

  function ParseHostChar(s: HostState, ch: byte): HostState {
    match s
    case UserinfoStart => if ch == '@' then HostStart else if IsUserinfoChar(ch) then InUserinfo else HDead
    case InUserinfo => if ch == '@' then HostStart else if IsUserinfoChar(ch) then InUserinfo else HDead
    case HostStart => if ch == '[' then V6Start else if IsHostChar(ch) then InHost else HDead
    case InHost => if IsHostChar(ch) then InHost else if ch == ':' then PortStart else HDead
    case V6End => if ch == ':' then PortStart else HDead
    case InV6 => if ch == ']' then V6End else if IsHex(ch) || ch == ':' || ch == '.' then InV6 else HDead
    case V6Start => if IsHex(ch) || ch == ':' || ch == '.' then InV6 else HDead
    case InPort => if IsNum(ch) then InPort else HDead
    case PortStart => if IsNum(ch) then InPort else HDead
    case HDead => HDead
  }

  // The states in which the host part may not end.
  predicate HostUnfinished(s: HostState) {
    s.HostStart? || s.V6Start? || s.InV6? || s.PortStart? || s.InUserinfo? || s.UserinfoStart?
  }

  datatype HostParts = HostParts(user: Option<Span>, host: Span, port: Option<Span>)

  // The switch of http_parse_host, for a move from s to r at p.
  function HostTake(s: HostState, r: HostState, p: nat, h: HostParts): HostParts {
    if r.InHost? || r.InV6? then h.(host := Span(if s == r then h.host.off else p, h.host.len + 1))
    else if r.InPort? then
      h.(port := if s == r && h.port.Some? then Some(Span(h.port.value.off, h.port.value.len + 1))
         else Some(Span(p, 1)))
    else if r.InUserinfo? then
      h.(user := if s == r && h.user.Some? then Some(Span(h.user.value.off, h.user.value.len + 1))
         else Some(Span(p, 1)))
    else h
  }

  predicate InParts(h: HostParts, i: int) {
    (h.user.Some? && h.user.value.Has(i)) || h.host.Has(i) || (h.port.Some? && h.port.value.Has(i))
  }

  // The invariant of the host loop at position p, the host part having begun at o.
  ghost predicate HostScan(buf: seq<byte>, o: nat, p: nat, s: HostState, h: HostParts) {
    && o <= p <= |buf| && !s.HDead?
    && (h.user.Some? ==> 0 < h.user.value.len && o <= h.user.value.off && h.user.value.End() <= p)
    && (h.host.len > 0 ==> o <= h.host.off && h.host.End() <= p && (h.user.Some? ==> h.user.value.End() <= h.host.off))
    && (h.port.Some? ==>
          && 0 < h.port.value.len && 0 < h.host.len && h.host.End() <= h.port.value.off && h.port.value.End() <= p
          && forall i | h.port.value.off <= i < h.port.value.End() :: IsNum(buf[i]))
    && (forall i | o <= i < p :: IsDelimiter(buf[i]) || InParts(h, i))
    && (h.host.len > 0 <==> s.InHost? || s.InV6? || s.V6End? || s.PortStart? || s.InPort?)
    && (s.InHost? || s.InV6? ==> h.host.End() == p)
    && (h.port.Some? <==> s.InPort?) && (s.InPort? ==> h.port.value.End() == p)
    && (s.UserinfoStart? ==> h.user.None?) && (s.InUserinfo? ==> h.user.Some? && h.user.value.End() == p)
  }

  lemma HostStep(buf: seq<byte>, o: nat, p: nat, s: HostState, h: HostParts, r: HostState)
    requires HostScan(buf, o, p, s, h) && p < |buf| && r == ParseHostChar(s, buf[p]) && !r.HDead?
    ensures HostScan(buf, o, p + 1, r, HostTake(s, r, p, h))
  {
    hide IsUserinfoChar, IsHostChar, IsHex;
    var g := HostTake(s, r, p, h);
    forall i | o <= i < p + 1
      ensures IsDelimiter(buf[i]) || InParts(g, i)
    {
      if i < p { assert IsDelimiter(buf[i]) || InParts(h, i); }
    }
  }

  // The states the host part visits.
  function HostRun(s: HostState, host: seq<byte>): HostState {
    if host == [] then s else ParseHostChar(HostRun(s, host[..|host| - 1]), host[|host| - 1])
  }

  lemma {:induction false} DeadHost(s: HostState, host: seq<byte>, i: nat)
    requires i <= |host| && HostRun(s, host[..i]).HDead?
    ensures HostRun(s, host).HDead?
    decreases |host|
  {
    if i == |host| {
      assert host[..i] == host;
    } else {
      assert host[..|host| - 1][..i] == host[..i];
      DeadHost(s, host[..|host| - 1], i);
    }
  }

  // The field of a byte of the host part, by the state it leads to.
  function PartOf(s: HostState): Option<UrlField> {
    if s.InUserinfo? then Some(Userinfo) else if s.InHost? || s.InV6? then Some(Host) else if s.InPort? then Some(Port)
      else None
  }

  function PartAt(buf: seq<byte>, o: nat, s0: HostState, i: nat): Option<UrlField>
    requires o <= i < |buf|
  {
    PartOf(HostRun(s0, buf[o..i + 1]))
  }

  // The parts are exactly the bytes that lead to their states.
  ghost predicate HostExact(buf: seq<byte>, o: nat, p: nat, s0: HostState, h: HostParts) {
    && o <= p <= |buf|
    && (forall i | o <= i < p :: h.user.Some? && h.user.value.Has(i) <==> PartAt(buf, o, s0, i) == Some(Userinfo))
    && (forall i | o <= i < p :: h.host.Has(i) <==> PartAt(buf, o, s0, i) == Some(Host))
    && (forall i | o <= i < p :: h.port.Some? && h.port.value.Has(i) <==> PartAt(buf, o, s0, i) == Some(Port))
  }

  lemma HostExactStep(buf: seq<byte>, o: nat, p: nat, s0: HostState, s: HostState, h: HostParts, r: HostState)
    requires HostScan(buf, o, p, s, h) && HostExact(buf, o, p, s0, h) && p < |buf|
    requires r == ParseHostChar(s, buf[p]) && !r.HDead? && r == HostRun(s0, buf[o..p + 1])
    ensures HostExact(buf, o, p + 1, s0, HostTake(s, r, p, h))
  {
    hide IsUserinfoChar, IsHostChar, IsHex, HostRun, IsDelimiter, InParts;
    assert PartAt(buf, o, s0, p) == PartOf(r);
    hide PartAt;
  }

  /* ---- The port number. ---- */

  predicate Digits(ds: seq<byte>) { forall i | 0 <= i < |ds| :: IsNum(ds[i]) }

  // The number a string of decimal digits denotes.
  function Decimal(ds: seq<byte>): nat
    requires Digits(ds)
  {
    if ds == [] then 0 else Decimal(ds[..|ds| - 1]) * 10 + DigitOf(ds[|ds| - 1])
  }

  // strtoul from position i of a NUL-terminated buffer whose first |buf| characters are buf.
  function StrToUl(buf: seq<byte>, i: nat, acc: nat): nat
    decreases |buf| - i
  {
    if i < |buf| && IsNum(buf[i]) then StrToUl(buf, i + 1, acc * 10 + DigitOf(buf[i])) else acc
  }

  lemma OneMore(buf: seq<byte>, a: nat, i: nat)
    requires a <= i < |buf|
    ensures var s := buf[a..i + 1]; s[..|s| - 1] == buf[a..i] && s[|s| - 1] == buf[i]
  {
    assert buf[a..i + 1] == buf[a..i] + [buf[i]];
  }

  lemma {:induction false} StrToUlReads(buf: seq<byte>, a: nat, i: nat, e: nat)
    requires a <= i <= e <= |buf| && Digits(buf[a..e]) && (e == |buf| || !IsNum(buf[e]))
    ensures Digits(buf[a..i]) && StrToUl(buf, i, Decimal(buf[a..i])) == Decimal(buf[a..e])
    decreases e - i
  {
    assert forall k | 0 <= k < i - a :: buf[a..i][k] == buf[a..e][k];
    if i < e {
      assert buf[a..e][i - a] == buf[i];
      OneMore(buf, a, i);
      StrToUlReads(buf, a, i + 1, e);
    }
  }

  /* ---- Putting the host part back among the fields. ---- */

  function WithHost(data: Fields, h: HostParts): (e: Fields)
    ensures data.Keys <= e.Keys
  {
    var d := data[Host := h.host];
    var e := if h.user.Some? then d[Userinfo := h.user.value] else d;
    if h.port.Some? then e[Port := h.port.value] else e
  }

  // The parts in 16 bits.
  function ShortParts(h: HostParts): HostParts {
    HostParts(if h.user.Some? then Some(Short(h.user.value)) else None, Short(h.host),
              if h.port.Some? then Some(Short(h.port.value)) else None)
  }

  function WithHostSet(set': set<UrlField>, h: HostParts): set<UrlField> {
    set' + (if h.user.Some? then {Userinfo} else {}) + (if h.port.Some? then {Port} else {})
  }

  predicate FirstCut(set': set<UrlField>) { Host in set' && Userinfo !in set' && Port !in set' }

  ghost predicate HostDone(buf: seq<byte>, data: Fields, s: HostState, h: HostParts) {
    Total(data) && HostScan(buf, data[Host].off, data[Host].End(), s, h) && !HostUnfinished(s)
  }

  lemma HostBounded(buf: seq<byte>, set': set<UrlField>, data: Fields, s: HostState, h: HostParts)
    requires Bounded(|buf|, set', data) && FirstCut(set') && HostDone(buf, data, s, h)
    ensures Bounded(|buf|, WithHostSet(set', h), WithHost(data, h))
  {
    hide IsDelimiter, InParts;
  }

  lemma HostOrdered(buf: seq<byte>, set': set<UrlField>, data: Fields, s: HostState, h: HostParts)
    requires Bounded(|buf|, set', data) && Ordered(set', data) && FirstCut(set') && HostDone(buf, data, s, h)
    ensures Ordered(WithHostSet(set', h), WithHost(data, h))
  {
    assert data[Host].End() <= |buf|;
    hide IsDelimiter, InParts, Bounded, HostUnfinished;
    var set2, data2 := WithHostSet(set', h), WithHost(data, h);
    forall f, g | f in set2 && g in set2 && Rank(f) < Rank(g)
      ensures f in data2 && g in data2 && data2[f].End() <= data2[g].off
    {
      if f in set' { assert f == Host || Rank(f) >= Rank(Host) || data[f].End() <= data[Host].off; }
      if g in set' { assert g == Host || Rank(g) <= Rank(Host) || data[Host].End() <= data[g].off; }
    }
  }

  lemma HostCovered(buf: seq<byte>, set': set<UrlField>, data: Fields, s: HostState, h: HostParts)
    requires Bounded(|buf|, set', data) && Covered(buf, |buf|, set', data) && FirstCut(set')
    requires HostDone(buf, data, s, h)
    ensures Covered(buf, |buf|, WithHostSet(set', h), WithHost(data, h))
  {
    hide IsDelimiter;
    var set2, data2 := WithHostSet(set', h), WithHost(data, h);
    forall i | 0 <= i < |buf|
      ensures IsDelimiter(buf[i]) || InField(set2, data2, i)
    {
      if !IsDelimiter(buf[i]) {
        assert InField(set', data, i);
        var f :| f in set' && f in data && data[f].Has(i);
        if f != Host {
          assert data2[f].Has(i);
        } else {
          assert InParts(h, i);
          if h.user.Some? && h.user.value.Has(i) { assert data2[Userinfo].Has(i); }
          else if h.host.Has(i) { assert data2[Host].Has(i); }
          else { assert data2[Port].Has(i); }
        }
      }
    }
  }

  // The fields after both passes.
  lemma HostPlaced(buf: seq<byte>, set': set<UrlField>, data: Fields, s: HostState, h: HostParts)
    requires Layout(buf, |buf|, set', data) && FirstCut(set') && HostDone(buf, data, s, h)
    ensures Layout(buf, |buf|, WithHostSet(set', h), WithHost(data, h))
  {
    hide Bounded, Ordered, Covered;
    HostBounded(buf, set', data, s, h);
    HostOrdered(buf, set', data, s, h);
    HostCovered(buf, set', data, s, h);
  }

  lemma NextUrlState(buf: seq<byte>, isConnect: bool, p: nat)
    requires p < |buf|
    ensures var r := UrlState(UrlStart(isConnect), buf[..p + 1]);
            && r == ParseUrlChar(UrlState(UrlStart(isConnect), buf[..p]), buf[p])
            && FieldAt(buf, isConnect, p) == FieldOf(r)
            && (SeesAt(buf, isConnect, p + 1) <==> SeesAt(buf, isConnect, p) || r.ReqServerWithAt?)
            && (AcceptedTo(buf, isConnect, p + 1) <==> AcceptedTo(buf, isConnect, p) && InUrl(r))
            && (UrlAccepted(buf, isConnect) ==> AcceptedTo(buf, isConnect, p + 1))
  {
    assert buf[..p + 1][..p] == buf[..p];
    hide ParseUrlChar, FieldOf;
  }

  // What one move of the host automaton stores.
  function Next(now: Option<Span>, same: bool, p: nat): Span {
    if same && now.Some? then Span(now.value.off, Low(now.value.len + 1)) else Span(Low(p), 1)
  }

  lemma HostStored(data: Fields, s: HostState, r: HostState, p: nat, h: HostParts)
    requires Total(data) && (s.InPort? <==> h.port.Some?) && (s.InUserinfo? ==> h.user.Some?)
    ensures var now, next := WithHost(data, ShortParts(h)), WithHost(data, ShortParts(HostTake(s, r, p, h)));
            && Total(now)
            && (r.InHost? || r.InV6? ==>
                  next == now[Host := Span(if r == s then now[Host].off else Low(p),
                                           Low(now[Host].len + 1))])
            && (r.InPort? ==> next == now[Port := Next(Some(now[Port]), r == s, p)])
            && (r.InUserinfo? ==> next == now[Userinfo := Next(Some(now[Userinfo]), r == s, p)])
            && (!r.InHost? && !r.InV6? && !r.InPort? && !r.InUserinfo? ==> next == now)
  {
    hide Short, HostTake, Low;
    PartsStored(s, r, p, h);
    hide ShortParts;
  }

  // The same on the parts.
  lemma PartsStored(s: HostState, r: HostState, p: nat, h: HostParts)
    requires (s.InPort? <==> h.port.Some?) && (s.InUserinfo? ==> h.user.Some?)
    ensures var now, next := ShortParts(h), ShortParts(HostTake(s, r, p, h));
            next == if r.InHost? || r.InV6? then
                      now.(host := Span(if r == s then now.host.off else Low(p), Low(now.host.len + 1)))
                    else if r.InPort? then now.(port := Some(Next(now.port, r == s, p)))
                    else if r.InUserinfo? then now.(user := Some(Next(now.user, r == s, p)))
                    else now
    ensures (h.port.Some? <==> ShortParts(h).port.Some?) && (h.user.Some? <==> ShortParts(h).user.Some?)
  {
    hide Short, Low;
    ShortGrows(h.host, p);
    if h.port.Some? { ShortGrows(h.port.value, p); }
    if h.user.Some? { ShortGrows(h.user.value, p); }
  }

  lemma HostSet(set': set<UrlField>, s: HostState, r: HostState, p: nat, h: HostParts)
    requires (s.InPort? <==> h.port.Some?) && (s.InUserinfo? ==> h.user.Some?)
    ensures WithHostSet(set', HostTake(s, r, p, h))
            == WithHostSet(set', h) + (if r.InPort? then {Port} else if r.InUserinfo? then {Userinfo} else {})
    ensures s.InPort? ==> Port in WithHostSet(set', h)
    ensures s.InUserinfo? ==> Userinfo in WithHostSet(set', h)
  {
  }

  // Before character p: the loop's invariant, the state reached, and that every byte is where it belongs.
  ghost predicate Scanned(
    buf: seq<byte>, isConnect: bool, p: nat, s: State, set': set<UrlField>, d: Fields, last: Option<UrlField>)
  {
    && Scan(buf, p, s, set', d, last) && Exact(buf, isConnect, p, set', d) && AcceptedTo(buf, isConnect, p)
    && s == UrlState(UrlStart(isConnect), buf[..p]) && HostIs(set', d, HostPart(buf, isConnect, p))
  }

  lemma ScannedNothing(buf: seq<byte>, isConnect: bool, d: Fields)
    requires Total(d)
    ensures Scanned(buf, isConnect, 0, UrlStart(isConnect), {}, d, None) && !SeesAt(buf, isConnect, 0)
  {
    hide Scan, Exact, HostPart, SeesAt, AcceptedTo, UrlState;
    NothingYet(buf, isConnect, d);
    NoState(buf, isConnect);
  }

  lemma ScannedNext(
    buf: seq<byte>, isConnect: bool, p: nat, s: State, r: State, set': set<UrlField>, d: Fields, last: Option<UrlField>)
    requires Scanned(buf, isConnect, p, s, set', d, last) && p < |buf| && r == ParseUrlChar(s, buf[p])
    ensures r.Dead? ==> !UrlAccepted(buf, isConnect)
    ensures SeesAt(buf, isConnect, p + 1) <==> SeesAt(buf, isConnect, p) || r.ReqServerWithAt?
    ensures last.Some? ==> last.value in set'
    ensures !r.Dead? && FieldOf(r).None? ==> Scanned(buf, isConnect, p + 1, r, set', d, last)
    ensures !r.Dead? && FieldOf(r).Some? ==>
              FieldOf(r).value in d && Scanned(buf, isConnect, p + 1, r, set' + {FieldOf(r).value},
                                               Extend(d, FieldOf(r).value, last, p), FieldOf(r))
  {
    hide ParseUrlChar, Layout, Exact, HostPart, SeesAt, FieldAt, Extend, UrlState, FieldOf, Scan, AcceptedTo;
    NextUrlState(buf, isConnect, p);
    ScanMeans(buf, p, s, set', d, last);
    if r.Dead? {
    } else if FieldOf(r).None? {
      ScanSkip(buf, p, s, r, set', d, last);
      Skipped(buf, isConnect, p, s, set', d, last);
    } else {
      Taken(buf, isConnect, p, s, r, set', d, last);
      ScanTake(buf, p, s, r, set', d, last);
    }
  }

  lemma ScannedAll(
    buf: seq<byte>, isConnect: bool, s: State, set': set<UrlField>, d: Fields, last: Option<UrlField>)
    requires Scanned(buf, isConnect, |buf|, s, set', d, last)
    ensures UrlAccepted(buf, isConnect) && Layout(buf, |buf|, set', d) && Exact(buf, isConnect, |buf|, set', d)
    ensures Userinfo !in set' && Port !in set' && HostIs(set', d, HostPart(buf, isConnect, |buf|))
    ensures Host in set' ==> d[Host].End() == |buf| || buf[d[Host].End()] == '/' || buf[d[Host].End()] == '?'
  {
    hide Layout, Exact, HostPart, Scan, AcceptedTo;
    ScanMeans(buf, |buf|, s, set', d, last);
  }

  // What is stored of the fields d: they are laid out in order, every byte of the URL is where it belongs, there is no
  // schema without a host, the host part has its form, and the port reads as its digits say.
  ghost predicate Cut(buf: seq<byte>, isConnect: bool, set': set<UrlField>, now: Fields, d: Fields) {
    && Layout(buf, |buf|, set', d) && Placed(buf, isConnect, set', d)
    && Agree(set', now, d)
    && (Schema in set' ==> Host in set') && (Host in set' ==> HostCut(buf, set', d))
    && (Port in set' ==> Port in now && HasPort(buf, d) && StrToUl(buf, now[Port].off, 0) == PortValue(buf, d))
  }

  // struct http_parser_url; it may hold anything when http_parser_parse_url is called.
  class ParsedUrl {
    var fieldSet: set<UrlField>
    var port: nat
    var fieldData: Fields

    constructor (data: Fields)
      requires Total(data) && Fits(data)
      ensures fieldData == data && fieldSet == {}
    {
      fieldSet, port, fieldData := {}, 0, data;
    }

    // Character p belongs to field f, the one before it to field last, if to any.
    method TakeNext(f: UrlField, p: nat, last: Option<UrlField>)
      requires f in fieldData && Fits(fieldData) && (last.Some? ==> last.value in fieldSet)
      modifies this`fieldSet, this`fieldData
      ensures fieldSet == old(fieldSet) + {f}
      ensures f in old(fieldData) && fieldData == old(fieldData)[f := Short(Extend(old(fieldData), f, last, p)[f])]
    {
      if Some(f) == last {
        fieldData := fieldData[f := Span(fieldData[f].off, Low(fieldData[f].len + 1))];
        assert fieldSet + {f} == fieldSet;
      } else {
        fieldData := fieldData[f := Span(Low(p), 1)];
        fieldSet := fieldSet + {f};
      }
    }

    // The loop of http_parser_parse_url over the characters. The entries it would store with room for them are d.
    method ScanChars(buf: seq<byte>, isConnect: bool) returns (failed: bool, foundAt: bool, ghost d: Fields)
      requires Total(fieldData) && Fits(fieldData) && fieldSet == {}
      modifies this`fieldSet, this`fieldData
      ensures Total(fieldData) && Fits(fieldData) && (failed <==> !UrlAccepted(buf, isConnect))
      ensures !failed ==> Stored(fieldData, old(fieldData), fieldSet, d)
      ensures !failed ==> Layout(buf, |buf|, fieldSet, d) && Userinfo !in fieldSet && Port !in fieldSet
      ensures !failed ==> Exact(buf, isConnect, |buf|, fieldSet, d)
      ensures !failed ==> HostIs(fieldSet, d, HostPart(buf, isConnect, |buf|))
      ensures !failed ==> foundAt == SeesAt(buf, isConnect, |buf|)
      ensures !failed && Host in fieldSet ==>
                d[Host].End() == |buf| || buf[d[Host].End()] == '/' || buf[d[Host].End()] == '?'
    {
      hide ParseUrlChar, Layout, Exact, HostPart, SeesAt, Extend, UrlState, FieldOf, Scanned, UrlAccepted, Stored;
      hide Fits, Short, Low;
      var s, p, last := UrlStart(isConnect), 0, None;
      failed, foundAt, d := false, false, fieldData;
      ScannedNothing(buf, isConnect, d);
      NothingStored(fieldData);
      while p < |buf|
        invariant p <= |buf| && Scanned(buf, isConnect, p, s, fieldSet, d, last)
        invariant Total(fieldData) && Fits(fieldData) && Stored(fieldData, old(fieldData), fieldSet, d)
        invariant foundAt == SeesAt(buf, isConnect, p)
      {
        var r := ParseUrlChar(s, buf[p]);
        ScannedNext(buf, isConnect, p, s, r, fieldSet, d, last);
        if r.Dead? {
          return true, foundAt, d;
        }
        if r.ReqServerWithAt? { foundAt := true; }
        var field := FieldOf(r);
        if field.Some? {
          ghost var f := field.value;
          StoredTake(fieldData, old(fieldData), fieldSet, d, f, last, p);
          StillFits(fieldData, f, Extend(fieldData, f, last, p)[f]);
          d := Extend(d, f, last, p);
          TakeNext(field.value, p, last);
          last := field;
        }
        s := r;
        p := p + 1;
      }
      ScannedAll(buf, isConnect, s, fieldSet, d, last);
    }

    // The switch of http_parse_host; h tells which of its fields are set so far.
    method TakeHostChar(s: HostState, r: HostState, p: nat, ghost set0: set<UrlField>, ghost data0: Fields,
                        ghost h: HostParts)
      requires Total(data0) && fieldSet == WithHostSet(set0, h) && fieldData == WithHost(data0, ShortParts(h))
      requires (s.InPort? <==> h.port.Some?) && (s.InUserinfo? ==> h.user.Some?)
      modifies this`fieldSet, this`fieldData
      ensures fieldSet == WithHostSet(set0, HostTake(s, r, p, h))
      ensures fieldData == WithHost(data0, ShortParts(HostTake(s, r, p, h)))
    {
      HostStored(data0, s, r, p, h);
      HostSet(set0, s, r, p, h);
      hide WithHostSet, WithHost, ShortParts, HostTake, Low;
      if r.InHost? || r.InV6? {
        var off := if r == s then fieldData[Host].off else Low(p);
        fieldData := fieldData[Host := Span(off, Low(fieldData[Host].len + 1))];
      } else if r.InPort? {
        if s != r {
          fieldData := fieldData[Port := Span(Low(p), 0)];
          fieldSet := fieldSet + {Port};
        }
        fieldData := fieldData[Port := Span(fieldData[Port].off, Low(fieldData[Port].len + 1))];
      } else if r.InUserinfo? {
        if s != r {
          fieldData := fieldData[Userinfo := Span(Low(p), 0)];
          fieldSet := fieldSet + {Userinfo};
        }
        fieldData := fieldData[Userinfo := Span(fieldData[Userinfo].off, Low(fieldData[Userinfo].len + 1))];
      }
    }

    // http_parse_host. The parts it would store with room for them are h.
    method ParseHost(buf: seq<byte>, foundAt: bool) returns (failed: bool, ghost s: HostState, ghost h: HostParts)
      requires Total(fieldData) && Fits(fieldData) && fieldData[Host].End() <= |buf|
      requires Userinfo !in fieldSet && Port !in fieldSet
      modifies this`fieldSet, this`fieldData
      ensures var e := HostRun(HostFirst(foundAt), buf[old(fieldData)[Host].off..old(fieldData)[Host].End()]);
              failed <==> e.HDead? || HostUnfinished(e)
      ensures !failed ==> HostDone(buf, old(fieldData), s, h)
      ensures !failed ==>
                HostExact(buf, old(fieldData)[Host].off, old(fieldData)[Host].End(), HostFirst(foundAt), h)
                && HostRead(buf, old(fieldData)[Host].off, old(fieldData)[Host].End(), HostFirst(foundAt), h)
      ensures fieldSet == WithHostSet(old(fieldSet), h) && fieldData == WithHost(old(fieldData), ShortParts(h))
      ensures Total(fieldData)
    {
      hide HostScan, ParseHostChar, HostExact, PartAt, Short, ShortParts, WithHost, WithHostSet, HostTake;
      hide HostUnfinished;
      hide Low;
      var o, end := fieldData[Host].off, fieldData[Host].End();
      fieldData := fieldData[Host := Span(o, 0)];
      var now, p := if foundAt then UserinfoStart else HostStart, o;
      s, h := now, HostParts(None, Span(o, 0), None);
      HostBegins(buf, o, now);
      HostOpens(old(fieldSet), old(fieldData));
      assert buf[o..p] == [];
      ghost var s0, part := HostFirst(foundAt), buf[o..end];
      while p < end
        invariant o <= p <= end && now == s && HostScan(buf, o, p, s, h)
        invariant s == HostRun(s0, buf[o..p]) && HostExact(buf, o, p, s0, h)
        invariant fieldSet == WithHostSet(old(fieldSet), h) && fieldData == WithHost(old(fieldData), ShortParts(h))
      {
        var r := ParseHostChar(now, buf[p]);
        assert buf[o..p + 1][..p - o] == buf[o..p] && buf[o..p + 1][p - o] == buf[p]
               && part[..p + 1 - o] == buf[o..p + 1];
        if r.HDead? {
          DeadHost(s0, part, p + 1 - o);
          return true, s, h;
        }
        HostExactStep(buf, o, p, s0, s, h, r);
        HostStep(buf, o, p, s, h, r);
        HostSets(buf, o, p, s, h);
        TakeHostChar(now, r, p, old(fieldSet), old(fieldData), h);
        h := HostTake(now, r, p, h);
        now, s := r, r;
        p := p + 1;
      }
      failed := HostUnfinished(now);
      assert !s.HDead? by { HostSets(buf, o, p, s, h); }
    }

    // http_parser_parse_url: 0 for success, 1 for failure. The entries it would store with room for them are d.
    method ParseUrl(buf: seq<byte>, isConnect: bool) returns (r: int, ghost d: Fields)
      requires Total(fieldData) && Fits(fieldData)
      requires Shows(buf, isConnect, Schema) && !Shows(buf, isConnect, Host) ==> fieldData[Host].End() <= |buf|
      modifies this
      ensures r == 0 || r == 1
      ensures Total(fieldData)
      ensures r == 0 <==> && UrlAccepted(buf, isConnect) && HostPasses(buf, isConnect, old(fieldData)[Host])
                          && (isConnect ==> fieldSet == {Host, Port})
                          && (Port in fieldSet ==> StrToUl(buf, fieldData[Port].off, 0) <= 0xffff)
      ensures r == 0 ==> port == if Port in fieldSet then StrToUl(buf, fieldData[Port].off, 0) else 0
      ensures UrlAccepted(buf, isConnect) && HostPasses(buf, isConnect, old(fieldData)[Host]) ==>
                forall f :: f in fieldSet <==> Sets(buf, isConnect, old(fieldData)[Host], f)
      ensures UrlAccepted(buf, isConnect) && HostAccepted(buf, isConnect)
              && Straight(buf, isConnect, old(fieldData)[Host]) ==>
                Cut(buf, isConnect, fieldSet, fieldData, d)
      ensures r == 0 ==> Delimited(buf, fieldSet, d) && OuterStored(fieldSet, fieldData, d)
    {
      hide Delimited, OuterStored, HostRead, HostCut;
      hide Layout, HostDone, UrlAccepted, Exact, HostExact, HostAccepted, HostPasses, HostRun, SeesAt, HostPart, Short;
      hide Straight, Shows, WithHost, ShortParts, WithHostSet, Cut, Stored, Fits, Agree, Sets;
      port, fieldSet := 0, {};
      ghost var was := fieldData;
      var failed, foundAt;
      failed, foundAt, d := ScanChars(buf, isConnect);
      if failed { return 1, d; }
      ghost var set0, now0, d0 := fieldSet, fieldData, d;
      OuterCut(buf, isConnect, was, set0, now0, d0);
      ToHost(buf, isConnect, was, set0, now0, d0);
      if Schema in fieldSet || Host in fieldSet {
        ghost var s, h;
        failed, s, h := ParseHost(buf, foundAt);
        if failed { return 1, d; }
        d := WithHost(d0, h);
        OuterKept(buf, set0, now0, d0, h);
        SetByHost(buf, isConnect, was[Host], set0, now0, d0, s, h);
        if Straight(buf, isConnect, was[Host]) { AfterHost(buf, isConnect, set0, now0, d0, s, h); }
      }
      if isConnect && fieldSet != {Host, Port} { return 1, d; }
      if Port in fieldSet {
        var v := StrToUl(buf, fieldData[Port].off, 0);
        if v > 0xffff { return 1, d; }
        port := v;
      }
      return 0, d;
    }
  }

  // The state in which the host automaton starts.
  function HostFirst(foundAt: bool): HostState { if foundAt then UserinfoStart else HostStart }

  // Some character of the URL belongs to the field f.
  ghost predicate Shows(buf: seq<byte>, isConnect: bool, f: UrlField) {
    exists i | 0 <= i < |buf| :: FieldAt(buf, isConnect, i) == Some(f)
  }

  // The host automaton accepts the bytes of the span.
  ghost predicate HostEnds(buf: seq<byte>, isConnect: bool, h: Span) {
    h.End() <= |buf| &&
    var e := HostRun(HostFirst(SeesAt(buf, isConnect, |buf|)), buf[h.off..h.End()]);
    !e.HDead? && !HostUnfinished(e)
  }

  // When there is a schema or a host, the host automaton accepts the host part.
  ghost predicate HostAccepted(buf: seq<byte>, isConnect: bool) {
    Shows(buf, isConnect, Schema) || Shows(buf, isConnect, Host) ==>
      var h := HostPart(buf, isConnect, |buf|);
      h.Some? && HostEnds(buf, isConnect, h.value)
  }

  // What http_parse_host is given for the host part: its span in 16 bits, or without a host the entry as it was.
  ghost function HostSpan(buf: seq<byte>, isConnect: bool, was: Span): Span {
    var h := HostPart(buf, isConnect, |buf|);
    if h.Some? then Short(h.value) else was
  }

  ghost predicate HostPasses(buf: seq<byte>, isConnect: bool, was: Span) {
    Shows(buf, isConnect, Schema) || Shows(buf, isConnect, Host) ==>
      HostEnds(buf, isConnect, HostSpan(buf, isConnect, was))
  }

  // A field is set when a character belongs to it, or for user information and port, a character of what is looked at
  // for the host.
  ghost predicate Sets(buf: seq<byte>, isConnect: bool, was: Span, f: UrlField) {
    || Shows(buf, isConnect, f)
    || ((f.Userinfo? || f.Port?) && (Shows(buf, isConnect, Schema) || Shows(buf, isConnect, Host))
        && HostShows(buf, isConnect, HostSpan(buf, isConnect, was), f))
  }

  ghost predicate HostShows(buf: seq<byte>, isConnect: bool, h: Span, f: UrlField) {
    h.End() <= |buf| &&
    exists i | h.off <= i < h.End() :: PartAt(buf, h.off, HostFirst(SeesAt(buf, isConnect, |buf|)), i) == Some(f)
  }

  // The host ends where 16 bits reach; without a host, there is no schema either, or the entry for the host was empty.
  ghost predicate Straight(buf: seq<byte>, isConnect: bool, was: Span) {
    var h := HostPart(buf, isConnect, |buf|);
    if h.Some? then h.value.End() < 0x1_0000 else was.len == 0 || !Shows(buf, isConnect, Schema)
  }

  // Then http_parse_host is given the host part.
  lemma StraightPasses(buf: seq<byte>, isConnect: bool, was: Span)
    requires Straight(buf, isConnect, was)
    ensures HostPasses(buf, isConnect, was) <==> HostAccepted(buf, isConnect)
  {
    hide Shows, HostEnds, HostPart, SeesAt;
    if was.len == 0 { EmptyHost(buf, isConnect, was); }
    if HostPart(buf, isConnect, |buf|).None? { NoHostShown(buf, isConnect); }
  }

  lemma {:induction false} SomeHost(buf: seq<byte>, isConnect: bool, p: nat, i: nat)
    requires i < p <= |buf| && FieldAt(buf, isConnect, i) == Some(Host)
    ensures HostPart(buf, isConnect, p).Some?
    decreases p
  {
    hide FieldAt;
    if i < p - 1 { SomeHost(buf, isConnect, p - 1, i); }
  }

  lemma NoHostShown(buf: seq<byte>, isConnect: bool)
    requires HostPart(buf, isConnect, |buf|).None?
    ensures !Shows(buf, isConnect, Host)
  {
    hide FieldAt, HostPart;
    forall i | 0 <= i < |buf|
      ensures FieldAt(buf, isConnect, i) != Some(Host)
    {
      if FieldAt(buf, isConnect, i) == Some(Host) { SomeHost(buf, isConnect, |buf|, i); }
    }
  }

  lemma EmptyHost(buf: seq<byte>, isConnect: bool, h: Span)
    requires h.len == 0
    ensures !HostEnds(buf, isConnect, h)
  {
    hide SeesAt;
    if h.End() <= |buf| { assert buf[h.off..h.End()] == []; }
  }

  lemma {:induction false} NoHost(buf: seq<byte>, isConnect: bool, p: nat)
    requires p <= |buf| && forall i | 0 <= i < p :: FieldAt(buf, isConnect, i) != Some(Host)
    ensures HostPart(buf, isConnect, p).None?
  {
    hide FieldAt;
    if p > 0 { NoHost(buf, isConnect, p - 1); }
  }

  // The field byte i belongs to in the end: in the host part, it is the host automaton that says.
  ghost function FinalAt(buf: seq<byte>, isConnect: bool, i: nat): Option<UrlField>
    requires i < |buf|
  {
    var h := HostPart(buf, isConnect, |buf|);
    if FieldAt(buf, isConnect, i) == Some(Host) && h.Some? && h.value.off <= i then
      PartAt(buf, h.value.off, HostFirst(SeesAt(buf, isConnect, |buf|)), i)
    else FieldAt(buf, isConnect, i)
  }

  // Every byte is in the field it belongs to, and in no other.
  ghost predicate Placed(buf: seq<byte>, isConnect: bool, set': set<UrlField>, data: Fields) {
    forall i, f | 0 <= i < |buf| ::
      (f in set' && f in data && data[f].Has(i)) <==> FinalAt(buf, isConnect, i) == Some(f)
  }

  ghost predicate HasPort(buf: seq<byte>, data: Fields) {
    Port in data && data[Port].End() <= |buf| && Digits(buf[data[Port].off..data[Port].End()])
  }

  // The decimal value of the port's bytes.
  ghost function PortValue(buf: seq<byte>, data: Fields): nat {
    if HasPort(buf, data) then Decimal(buf[data[Port].off..data[Port].End()]) else 0
  }

  // A field is set when a character belongs to it.
  lemma SetShows(buf: seq<byte>, isConnect: bool, set': set<UrlField>, d: Fields, f: UrlField)
    requires Layout(buf, |buf|, set', d) && Exact(buf, isConnect, |buf|, set', d)
    ensures f in set' <==> Shows(buf, isConnect, f)
  {
    hide FieldAt, Ordered, Covered;
    if f in set' {
      assert d[f].Has(d[f].off);
      assert FieldAt(buf, isConnect, d[f].off) == Some(f);
    }
    if Shows(buf, isConnect, f) {
      var i :| 0 <= i < |buf| && FieldAt(buf, isConnect, i) == Some(f);
      assert f in set' && d[f].Has(i);
    }
  }

  // The fields set by http_parse_host.
  lemma PartsShow(buf: seq<byte>, isConnect: bool, k: Span, s: HostState, h: HostParts)
    requires HostScan(buf, k.off, k.End(), s, h)
    requires HostExact(buf, k.off, k.End(), HostFirst(SeesAt(buf, isConnect, |buf|)), h)
    ensures h.user.Some? <==> HostShows(buf, isConnect, k, Userinfo)
    ensures h.port.Some? <==> HostShows(buf, isConnect, k, Port)
  {
    hide PartAt, SeesAt, IsDelimiter;
    if h.user.Some? { assert h.user.value.Has(h.user.value.off); }
    if h.port.Some? { assert h.port.value.Has(h.port.value.off) && h.host.End() <= h.port.value.off; }
  }

  lemma SetByHost(
    buf: seq<byte>, isConnect: bool, was: Span, set': set<UrlField>, now: Fields, d: Fields, s: HostState, h: HostParts)
    requires Layout(buf, |buf|, set', d) && Exact(buf, isConnect, |buf|, set', d) && HostDone(buf, now, s, h)
    requires (Schema in set' || Host in set') && now[Host] == HostSpan(buf, isConnect, was)
    requires HostExact(buf, now[Host].off, now[Host].End(), HostFirst(SeesAt(buf, isConnect, |buf|)), h)
    ensures forall f :: f in WithHostSet(set', h) <==> Sets(buf, isConnect, was, f)
  {
    hide Layout, Exact, HostExact, HostScan, Shows, HostShows, SeesAt, HostSpan;
    PartsShow(buf, isConnect, now[Host], s, h);
    AllShows(buf, isConnect, set', d);
  }

  lemma AllShows(buf: seq<byte>, isConnect: bool, set': set<UrlField>, d: Fields)
    requires Layout(buf, |buf|, set', d) && Exact(buf, isConnect, |buf|, set', d)
    ensures forall f :: f in set' <==> Shows(buf, isConnect, f)
  {
    hide Layout, Exact, Shows;
    forall f
      ensures f in set' <==> Shows(buf, isConnect, f)
    {
      SetShows(buf, isConnect, set', d, f);
    }
  }

  // Without a host part to look at, the first cut is the last.
  lemma AllPlaced(buf: seq<byte>, isConnect: bool, set': set<UrlField>, now: Fields, d: Fields)
    requires Layout(buf, |buf|, set', d) && Exact(buf, isConnect, |buf|, set', d) && !Shows(buf, isConnect, Host)
    requires Schema !in set' && Host !in set' && Port !in set'
    requires Agree(set', now, d)
    ensures Cut(buf, isConnect, set', now, d)
  {
    hide FieldAt, HostPart, PartAt, SeesAt, Layout, Short;
  }

  // Between the two passes.
  lemma ToHost(buf: seq<byte>, isConnect: bool, was: Fields, set': set<UrlField>, now: Fields, d: Fields)
    requires Layout(buf, |buf|, set', d) && Exact(buf, isConnect, |buf|, set', d) && Stored(now, was, set', d)
    requires Port !in set' && HostIs(set', d, HostPart(buf, isConnect, |buf|))
    requires Host in was && (Shows(buf, isConnect, Schema) && !Shows(buf, isConnect, Host) ==> was[Host].End() <= |buf|)
    ensures Host in now && Agree(set', now, d)
    ensures Straight(buf, isConnect, was[Host]) ==>
              (HostPasses(buf, isConnect, was[Host]) <==> HostAccepted(buf, isConnect))
    ensures if Schema in set' || Host in set' then
              && now[Host].End() <= |buf|
              && (HostPasses(buf, isConnect, was[Host]) <==> HostEnds(buf, isConnect, now[Host]))
              && (Straight(buf, isConnect, was[Host]) && now[Host].len > 0 ==>
                    Host in set' && d[Host].End() < 0x1_0000)
            else
              && HostPasses(buf, isConnect, was[Host]) && Cut(buf, isConnect, set', now, d)
              && forall f :: f in set' <==> Sets(buf, isConnect, was[Host], f)
    ensures now[Host] == HostSpan(buf, isConnect, was[Host])
  {
    hide Layout, Exact, HostPart, Short, HostEnds, Cut;
    AllShows(buf, isConnect, set', d);
    if Straight(buf, isConnect, was[Host]) { StraightPasses(buf, isConnect, was[Host]); }
    if Schema !in set' && Host !in set' { AllPlaced(buf, isConnect, set', now, d); }
    hide Shows;
    assert Host in set' ==> d[Host].End() <= |buf|;
  }

  // The fields, and what is stored of them, once the host part is cut.
  lemma AfterHost(
    buf: seq<byte>, isConnect: bool, set': set<UrlField>, now: Fields, d: Fields, s: HostState, h: HostParts)
    requires Layout(buf, |buf|, set', d) && Exact(buf, isConnect, |buf|, set', d)
    requires Userinfo !in set' && Port !in set' && HostDone(buf, now, s, h)
    requires now[Host].len > 0 ==> Host in set' && d[Host].End() < 0x1_0000
    requires HostIs(set', d, HostPart(buf, isConnect, |buf|))
    requires Agree(set', now, d)
    requires HostExact(buf, now[Host].off, now[Host].End(), HostFirst(SeesAt(buf, isConnect, |buf|)), h)
    requires HostRead(buf, now[Host].off, now[Host].End(), HostFirst(SeesAt(buf, isConnect, |buf|)), h)
    requires UrlAccepted(buf, isConnect)
    requires Host in set' ==> d[Host].End() == |buf| || buf[d[Host].End()] == '/' || buf[d[Host].End()] == '?'
    ensures var set2, now2, d2 := WithHostSet(set', h), WithHost(now, ShortParts(h)), WithHost(d, h);
            Cut(buf, isConnect, set2, now2, d2)
  {
    NoHostNoUrl(buf, now, s, h);
    assert Total(d) && now[Host] == d[Host];
    hide Bounded, Ordered, Covered, Exact, Placed, HostExact, HostScan, HostPart, SeesAt, Short, PortValue, HasPort;
    hide UrlAccepted, HostRead, HostCut;
    HostCuts(buf, isConnect, set', d, h);
    HostPlaced(buf, set', d, s, h);
    PlacedAfter(buf, isConnect, set', d, s, h);
    StoredAfter(set', now, d, h);
    hide WithHost, ShortParts, HostDone;
    if h.port.Some? { PortAfter(buf, now, d, s, h); }
  }

  lemma StoredAfter(set': set<UrlField>, now: Fields, d: Fields, h: HostParts)
    requires FirstCut(set') && Agree(set', now, d)
    ensures var set2, now2, d2 := WithHostSet(set', h), WithHost(now, ShortParts(h)), WithHost(d, h);
            && Agree(set2, now2, d2)
            && Host in set2 && (Port in set2 <==> h.port.Some?)
  {
    hide Short;
  }

  lemma PortAfter(buf: seq<byte>, now: Fields, d: Fields, s: HostState, h: HostParts)
    requires HostDone(buf, d, s, h) && d[Host].End() < 0x1_0000 && h.port.Some?
    requires d[Host].End() == |buf| || buf[d[Host].End()] == '/' || buf[d[Host].End()] == '?'
    ensures var now2, d2 := WithHost(now, ShortParts(h)), WithHost(d, h);
            HasPort(buf, d2) && Port in now2 && StrToUl(buf, now2[Port].off, 0) == PortValue(buf, d2)
  {
    hide HasPort, PortValue, HostScan, Short;
    PortReads(buf, d, s, h);
    PortNear(buf, d[Host].off, d[Host].End(), s, h);
  }

  lemma PortNear(buf: seq<byte>, o: nat, p: nat, s: HostState, h: HostParts)
    requires HostScan(buf, o, p, s, h) && h.port.Some? && p < 0x1_0000
    ensures Short(h.port.value) == h.port.value
  {
  }

  lemma PlacedAfter(buf: seq<byte>, isConnect: bool, set': set<UrlField>, data: Fields, s: HostState, h: HostParts)
    requires Layout(buf, |buf|, set', data) && Exact(buf, isConnect, |buf|, set', data) && FirstCut(set')
    requires HostIs(set', data, HostPart(buf, isConnect, |buf|)) && HostDone(buf, data, s, h)
    requires HostExact(buf, data[Host].off, data[Host].End(), HostFirst(SeesAt(buf, isConnect, |buf|)), h)
    ensures Placed(buf, isConnect, WithHostSet(set', h), WithHost(data, h))
  {
    hide FieldAt, Ordered, Covered, HostPart, HostRun, SeesAt, PartAt;
    var set2, data2 := WithHostSet(set', h), WithHost(data, h);
    forall i, f | 0 <= i < |buf|
      ensures (f in set2 && f in data2 && data2[f].Has(i)) <==> FinalAt(buf, isConnect, i) == Some(f)
    {
      PlacedByte(buf, isConnect, set', data, s, h, i, f);
    }
  }

  lemma PlacedByte(
    buf: seq<byte>, isConnect: bool, set': set<UrlField>, data: Fields, s: HostState, h: HostParts, i: nat, f: UrlField)
    requires Layout(buf, |buf|, set', data) && Exact(buf, isConnect, |buf|, set', data) && FirstCut(set') && i < |buf|
    requires HostIs(set', data, HostPart(buf, isConnect, |buf|)) && HostDone(buf, data, s, h)
    requires HostExact(buf, data[Host].off, data[Host].End(), HostFirst(SeesAt(buf, isConnect, |buf|)), h)
    ensures var set2, data2 := WithHostSet(set', h), WithHost(data, h);
            (f in set2 && f in data2 && data2[f].Has(i)) <==> FinalAt(buf, isConnect, i) == Some(f)
  {
    hide FieldAt, Ordered, Covered, HostPart, HostRun, SeesAt, PartAt, InParts, IsDelimiter;
    assert data[Host].Has(i) <==> FieldAt(buf, isConnect, i) == Some(Host);
    assert (f in set' && f in data && data[f].Has(i)) <==> FieldAt(buf, isConnect, i) == Some(f);
    if data[Host].Has(i) {
      OnlyParts(buf, data[Host].off, HostFirst(SeesAt(buf, isConnect, |buf|)), i);
    }
  }

  lemma OnlyParts(buf: seq<byte>, o: nat, s0: HostState, i: nat)
    requires o <= i < |buf|
    ensures PartAt(buf, o, s0, i) in {None, Some(Userinfo), Some(Host), Some(Port)}
  {
    hide HostRun;
  }

  // An empty host part never passes.
  lemma NoHostNoUrl(buf: seq<byte>, data: Fields, s: HostState, h: HostParts)
    requires HostDone(buf, data, s, h)
    ensures 0 < h.host.len && 0 < data[Host].len
  {
  }

  // What strtoul reads is the port, as what follows the host part is no digit.
  lemma PortReads(buf: seq<byte>, data: Fields, s: HostState, h: HostParts)
    requires HostDone(buf, data, s, h) && h.port.Some?
    requires data[Host].End() == |buf| || buf[data[Host].End()] == '/' || buf[data[Host].End()] == '?'
    ensures HasPort(buf, WithHost(data, h)) && StrToUl(buf, h.port.value.off, 0) == PortValue(buf, WithHost(data, h))
  {
    var a, e := h.port.value.off, h.port.value.End();
    HostSets(buf, data[Host].off, data[Host].End(), s, h);
    assert e == data[Host].End();
    forall i | 0 <= i < e - a ensures IsNum(buf[a..e][i]) { assert buf[a..e][i] == buf[a + i]; }
    assert buf[a..a] == [];
    StrToUlReads(buf, a, a, e);
  }

  lemma NothingStored(now: Fields)
    requires Total(now)
    ensures Stored(now, now, {}, now)
  {
  }

  lemma StillFits(data: Fields, f: UrlField, s: Span)
    requires Fits(data)
    ensures Fits(data[f := Short(s)])
  {
    hide Short;
  }

  lemma NothingYet(buf: seq<byte>, isConnect: bool, data: Fields)
    requires Total(data)
    ensures Scan(buf, 0, UrlStart(isConnect), {}, data, None)
    ensures Exact(buf, isConnect, 0, {}, data) && HostPart(buf, isConnect, 0).None?
  {
  }

  lemma NoState(buf: seq<byte>, isConnect: bool)
    ensures !SeesAt(buf, isConnect, 0) && AcceptedTo(buf, isConnect, 0)
    ensures UrlState(UrlStart(isConnect), buf[..0]) == UrlStart(isConnect)
  {
    hide ParseUrlChar;
  }

  // What the loop's invariant says of the fields set.
  lemma ScanMeans(buf: seq<byte>, p: nat, s: State, set': set<UrlField>, data: Fields, last: Option<UrlField>)
    requires Scan(buf, p, s, set', data, last)
    ensures Layout(buf, p, set', data) && Total(data) && Userinfo !in set' && Port !in set'
    ensures last.Some? ==> last.value in set'
    ensures Host in set' ==> data[Host].End() == p || HostOver(buf, p, set', data)
  {
    hide Ordered, Covered, FieldOf, InUrl;
    NeverHostFields(s);
    hide Allowed;
  }

  lemma NeverHostFields(s: State)
    ensures Userinfo !in Allowed(s) && Port !in Allowed(s)
  {
  }

  lemma Skipped(buf: seq<byte>, isConnect: bool, p: nat, s: State, set': set<UrlField>, data: Fields,
                last: Option<UrlField>)
    requires Scan(buf, p, s, set', data, last) && Exact(buf, isConnect, p, set', data) && p < |buf|
    requires FieldAt(buf, isConnect, p).None?
    ensures Exact(buf, isConnect, p + 1, set', data) && HostPart(buf, isConnect, p + 1) == HostPart(buf, isConnect, p)
  {
    hide FieldAt;
    ExactSkip(buf, isConnect, p, set', data);
  }

  lemma Taken(
    buf: seq<byte>, isConnect: bool, p: nat, s: State, r: State, set': set<UrlField>, data: Fields,
    last: Option<UrlField>)
    requires Scan(buf, p, s, set', data, last) && Exact(buf, isConnect, p, set', data) && p < |buf|
    requires s == UrlState(UrlStart(isConnect), buf[..p]) && r == UrlState(UrlStart(isConnect), buf[..p + 1])
    requires !r.Dead?
    requires r == ParseUrlChar(s, buf[p]) && FieldOf(r).Some? && HostIs(set', data, HostPart(buf, isConnect, p))
    ensures var f := FieldOf(r).value;
            && f in data && Exact(buf, isConnect, p + 1, set' + {f}, Extend(data, f, last, p))
            && HostIs(set' + {f}, Extend(data, f, last, p), HostPart(buf, isConnect, p + 1))
  {
    var f := FieldOf(r).value;
    Extends(p, s, buf[p], set', data, last);
    assert FieldAt(buf, isConnect, p) == Some(f);
    hide FieldAt, ParseUrlChar, FieldOf;
    ExactTake(buf, isConnect, p, set', data, f);
    HostPartTake(buf, isConnect, p, set', data, f);
  }

  lemma HostOpens(set': set<UrlField>, data: Fields)
    requires Host in data && data[Host].off < 0x1_0000
    ensures var h := HostParts(None, Span(data[Host].off, 0), None);
            && WithHost(data, ShortParts(h)) == data[Host := Span(data[Host].off, 0)]
            && WithHostSet(set', h) == set'
  {
  }

  lemma HostBegins(buf: seq<byte>, o: nat, s: HostState)
    requires o <= |buf| && (s.UserinfoStart? || s.HostStart?)
    ensures HostScan(buf, o, o, s, HostParts(None, Span(o, 0), None))
    ensures HostExact(buf, o, o, s, HostParts(None, Span(o, 0), None))
  {
  }

  lemma HostSets(buf: seq<byte>, o: nat, p: nat, s: HostState, h: HostParts)
    requires HostScan(buf, o, p, s, h)
    ensures !s.HDead? && (s.InPort? <==> h.port.Some?)
    ensures s.InUserinfo? ==> h.user.Some?
  {
  }

  /* ---- The delimiters, told from the URL and the entries alone. ---- */

  // No byte of the span is c.
  predicate Without(buf: seq<byte>, s: Span, c: byte) { forall i | 0 <= i < |buf| && s.Has(i) :: buf[i] != c }

  predicate IsLetter(c: byte) { 'a' <= c <= 'z' || 'A' <= c <= 'Z' }

  // The fields that the host loop leaves alone.
  predicate Outer(f: UrlField) { f.Schema? || f.Path? || f.Query? || f.Fragment? }

  // What is stored of these fields are the entries of d, in 16 bits.
  ghost predicate OuterStored(set': set<UrlField>, now: Fields, d: Fields) {
    forall f | f in set' && Outer(f) :: f in now && f in d && now[f] == Short(d[f])
  }

  // A schema is letters at the start, and nothing but "://" follows it; a path starts with a slash, or at the start of
  // the URL with an asterisk, and has neither question mark nor number sign; a query follows a question mark and has no
  // number sign; a fragment follows a number sign.
  ghost predicate Delimited(buf: seq<byte>, set': set<UrlField>, d: Fields) {
    && Total(d) && (forall f | f in set' && Outer(f) :: d[f].len > 0 && d[f].End() <= |buf|)
    && (Schema in set' ==> && d[Schema].off == 0 && forall i | 0 <= i < d[Schema].End() :: IsLetter(buf[i]))
    && (Schema in set' ==> forall i | 0 <= i < 3 && d[Schema].End() + i < |buf| :: buf[d[Schema].End() + i] == "://"[i])
    && (Path in set' ==> buf[d[Path].off] == '/' || (d[Path].off == 0 && buf[0] == '*'))
    && (Path in set' ==> Without(buf, d[Path], '?') && Without(buf, d[Path], '#'))
    && (Query in set' ==> d[Query].off > 0 && buf[d[Query].off - 1] == '?' && Without(buf, d[Query], '#'))
    && (Fragment in set' ==> d[Fragment].off > 0 && buf[d[Fragment].off - 1] == '#')
  }

  function StateAt(buf: seq<byte>, isConnect: bool, p: nat): State
    requires p <= |buf|
  {
    UrlState(UrlStart(isConnect), buf[..p])
  }

  // What it takes to get from s to the state r.
  ghost predicate Reached(s: State, ch: byte, r: State) {
    && (r.ReqSchema? ==> IsLetter(ch) && (s.ReqSchema? || s.ReqSpacesBeforeUrl?))
    && (r.ReqSchemaSlash? ==> ch == ':' && s.ReqSchema?)
    && (r.ReqSchemaSlashSlash? ==> ch == '/' && s.ReqSchemaSlash?)
    && (r.ReqServerStart? ==> ch == '/' && s.ReqSchemaSlashSlash?)
    && (FieldOf(r) == Some(Host) ==> s.ReqServerStart? || FieldOf(s) == Some(Host))
    && (r.ReqPath? ==> ch != '?' && ch != '#' && (s.ReqPath? || ch == '/' || (s.ReqSpacesBeforeUrl? && ch == '*')))
    && (r.ReqQueryStringStart? ==> ch == '?')
    && (r.ReqQueryString? ==> ch != '#' && (s.ReqQueryStringStart? || s.ReqQueryString?))
    && (r.ReqFragmentStart? ==> ch == '#')
    && (r.ReqFragment? ==> s.ReqFragmentStart? || s.ReqFragment?)
    && (s.ReqSchema? ==> r.ReqSchema? || r.ReqSchemaSlash?) && (s.ReqSchemaSlash? ==> r.ReqSchemaSlashSlash?)
    && (s.ReqSchemaSlashSlash? ==> r.ReqServerStart?)
  }

  lemma Reaches(s: State, ch: byte)
    requires !ParseUrlChar(s, ch).Dead?
    ensures InUrl(ParseUrlChar(s, ch)) && Reached(s, ch, ParseUrlChar(s, ch))
  {
    LetterIs(ch);
    hide IsAlpha, IsUserinfoChar;
  }

  lemma LetterIs(ch: byte)
    ensures IsAlpha(ch) <==> IsLetter(ch)
  {
  }

  // The step to the state after byte p.
  lemma StepTo(buf: seq<byte>, isConnect: bool, p: nat)
    requires UrlAccepted(buf, isConnect) && p < |buf|
    ensures InUrl(StateAt(buf, isConnect, p + 1))
    ensures Reached(StateAt(buf, isConnect, p), buf[p], StateAt(buf, isConnect, p + 1))
    ensures FieldAt(buf, isConnect, p) == FieldOf(StateAt(buf, isConnect, p + 1))
  {
    assert AcceptedTo(buf, isConnect, p + 1) && InUrl(UrlState(UrlStart(isConnect), buf[..p + 1]));
    NextUrlState(buf, isConnect, p);
    hide UrlState, SeesAt, ParseUrlChar, Reached;
    Reaches(StateAt(buf, isConnect, p), buf[p]);
  }

  lemma StartsAt(buf: seq<byte>, isConnect: bool)
    ensures StateAt(buf, isConnect, 0) == UrlStart(isConnect)
  {
  }

  // A byte of the field f, and the first one.
  lemma InF(buf: seq<byte>, isConnect: bool, set': set<UrlField>, d: Fields, f: UrlField, i: nat)
    requires UrlAccepted(buf, isConnect) && Exact(buf, isConnect, |buf|, set', d) && i < |buf|
    ensures f in set' && f in d && d[f].Has(i) <==> FieldOf(StateAt(buf, isConnect, i + 1)) == Some(f)
  {
    hide FieldOf, UrlAccepted;
    StepTo(buf, isConnect, i);
  }

  // The first byte of a field: the state before it is of no field or another.
  lemma FirstOfField(buf: seq<byte>, isConnect: bool, set': set<UrlField>, d: Fields, f: UrlField)
    requires UrlAccepted(buf, isConnect) && Exact(buf, isConnect, |buf|, set', d) && Bounded(|buf|, set', d)
    requires f in set'
    ensures var o := d[f].off;
            && o < |buf| && FieldOf(StateAt(buf, isConnect, o + 1)) == Some(f)
            && FieldOf(StateAt(buf, isConnect, o)) != Some(f)
            && Reached(StateAt(buf, isConnect, o), buf[o], StateAt(buf, isConnect, o + 1))
  {
    hide FieldOf, UrlAccepted, Reached, UrlState;
    var o := d[f].off;
    StepTo(buf, isConnect, o);
    InF(buf, isConnect, set', d, f, o);
    if o > 0 {
      InF(buf, isConnect, set', d, f, o - 1);
    } else {
      StartsAt(buf, isConnect);
      NoFieldYet(isConnect);
    }
  }

  lemma NoFieldYet(isConnect: bool)
    ensures FieldOf(UrlStart(isConnect)).None?
  {
  }

  lemma QueryDelimited(buf: seq<byte>, isConnect: bool, set': set<UrlField>, d: Fields)
    requires UrlAccepted(buf, isConnect) && Exact(buf, isConnect, |buf|, set', d) && Bounded(|buf|, set', d)
    ensures Query in set' ==> d[Query].off > 0 && buf[d[Query].off - 1] == '?' && Without(buf, d[Query], '#')
    ensures Fragment in set' ==> d[Fragment].off > 0 && buf[d[Fragment].off - 1] == '#'
  {
    hide UrlAccepted, UrlState, Exact;
    StartsAt(buf, isConnect);
    if Query in set' {
      FirstOfField(buf, isConnect, set', d, Query);
      var o := d[Query].off;
      if o > 0 { StepTo(buf, isConnect, o - 1); }
      forall i | 0 <= i < |buf| && d[Query].Has(i)
        ensures buf[i] != '#'
      {
        InF(buf, isConnect, set', d, Query, i);
        StepTo(buf, isConnect, i);
      }
    }
    if Fragment in set' {
      FirstOfField(buf, isConnect, set', d, Fragment);
      var o := d[Fragment].off;
      if o > 0 { StepTo(buf, isConnect, o - 1); }
    }
  }

  lemma PathDelimited(buf: seq<byte>, isConnect: bool, set': set<UrlField>, d: Fields)
    requires UrlAccepted(buf, isConnect) && Exact(buf, isConnect, |buf|, set', d) && Bounded(|buf|, set', d)
    ensures Path in set' ==> buf[d[Path].off] == '/' || (d[Path].off == 0 && buf[0] == '*')
    ensures Path in set' ==> Without(buf, d[Path], '?') && Without(buf, d[Path], '#')
  {
    hide UrlAccepted, UrlState, Exact;
    if Path in set' {
      FirstOfField(buf, isConnect, set', d, Path);
      var o := d[Path].off;
      if o > 0 { StepTo(buf, isConnect, o - 1); }
      forall i | 0 <= i < |buf| && d[Path].Has(i)
        ensures buf[i] != '?' && buf[i] != '#'
      {
        InF(buf, isConnect, set', d, Path, i);
        StepTo(buf, isConnect, i);
      }
    }
  }

  lemma SchemaDelimited(buf: seq<byte>, isConnect: bool, set': set<UrlField>, d: Fields)
    requires UrlAccepted(buf, isConnect) && Exact(buf, isConnect, |buf|, set', d) && Bounded(|buf|, set', d)
    requires Schema in set'
    ensures d[Schema].off == 0 && forall i | 0 <= i < d[Schema].End() :: IsLetter(buf[i])
    ensures forall i | 0 <= i < 3 && d[Schema].End() + i < |buf| :: buf[d[Schema].End() + i] == "://"[i]
    ensures d[Schema].End() + 3 <= |buf| ==> StateAt(buf, isConnect, d[Schema].End() + 3).ReqServerStart?
  {
    hide UrlAccepted, UrlState, Exact;
    FirstOfField(buf, isConnect, set', d, Schema);
    var o, e := d[Schema].off, d[Schema].End();
    if o > 0 { StepTo(buf, isConnect, o - 1); }
    forall i | o <= i < e
      ensures IsLetter(buf[i])
    {
      InF(buf, isConnect, set', d, Schema, i);
      StepTo(buf, isConnect, i);
    }
    InF(buf, isConnect, set', d, Schema, e - 1);
    if e < |buf| {
      InF(buf, isConnect, set', d, Schema, e);
      StepTo(buf, isConnect, e);
      if e + 1 < |buf| {
        StepTo(buf, isConnect, e + 1);
        if e + 2 < |buf| { StepTo(buf, isConnect, e + 2); }
      }
    }
  }

  // Every cut of the character loop is at such delimiters.
  lemma CutDelimited(buf: seq<byte>, isConnect: bool, set': set<UrlField>, d: Fields)
    requires UrlAccepted(buf, isConnect) && Exact(buf, isConnect, |buf|, set', d) && Bounded(|buf|, set', d)
    ensures Delimited(buf, set', d)
  {
    hide UrlAccepted, Exact, StateAt;
    QueryDelimited(buf, isConnect, set', d);
    PathDelimited(buf, isConnect, set', d);
    if Schema in set' { SchemaDelimited(buf, isConnect, set', d); }
  }

  // Where the host part ends, given its parts.
  function HostEnd(v6: bool, h: HostParts): nat {
    if h.port.Some? then h.port.value.End() else if v6 then h.host.End() + 1 else h.host.End()
  }

  // The host part of the URL, from o: user information and an at-sign, if any; the host, in brackets for version 6 of
  // IP; a colon and the port, if any.
  ghost predicate HostForm(buf: seq<byte>, o: nat, e: nat, v6: bool, h: HostParts) {
    var a, z := if h.user.Some? then h.user.value.End() else o, if v6 then h.host.End() + 1 else h.host.End();
    && o <= a <= h.host.off < z <= e <= |buf| && e == HostEnd(v6, h)
    && (h.user.Some? ==> h.user.value.off == o && buf[a] == '@')
    && (buf[a..h.host.off] == (if v6 then ['['] else [])
        || buf[a..h.host.off] == ['@'] + if v6 then ['['] else [])
    && (v6 ==> buf[h.host.End()] == ']')
    && (h.port.Some? ==> h.port.value.off == z + 1 && z < e && buf[z] == ':')
  }

  // What it takes to get from s to the state r of the host automaton.
  ghost predicate HostReached(s: HostState, ch: byte, r: HostState) {
    && !r.UserinfoStart?
    && (r.InUserinfo? ==> s.UserinfoStart? || s.InUserinfo?)
    && (r.HostStart? ==> ch == '@' && (s.UserinfoStart? || s.InUserinfo?))
    && (s.InUserinfo? ==> r.InUserinfo? || r.HostStart?)
    && (r.V6Start? ==> ch == '[' && s.HostStart?)
    && (r.InHost? ==> s.HostStart? || s.InHost?)
    && (r.InV6? ==> s.V6Start? || s.InV6?)
    && (r.V6End? ==> ch == ']' && s.InV6?)
    && (r.PortStart? ==> ch == ':' && (s.InHost? || s.V6End?))
    && (r.InPort? ==> s.PortStart? || s.InPort?)
  }

  lemma HostReaches(s: HostState, ch: byte)
    requires !ParseHostChar(s, ch).HDead?
    ensures HostReached(s, ch, ParseHostChar(s, ch))
  {
    hide IsUserinfoChar, IsHostChar, IsHex;
  }

  function HostAt(buf: seq<byte>, o: nat, s0: HostState, p: nat): HostState
    requires o <= p <= |buf|
  {
    HostRun(s0, buf[o..p])
  }

  // The host part from o to e is read into the parts h, and the automaton may end there.
  ghost predicate HostRead(buf: seq<byte>, o: nat, e: nat, s0: HostState, h: HostParts) {
    && o <= e <= |buf| && (s0.UserinfoStart? || s0.HostStart?) && HostExact(buf, o, e, s0, h)
    && HostScan(buf, o, e, HostAt(buf, o, s0, e), h) && !HostUnfinished(HostAt(buf, o, s0, e))
  }

  lemma HostStepTo(buf: seq<byte>, o: nat, e: nat, s0: HostState, h: HostParts, p: nat)
    requires HostRead(buf, o, e, s0, h) && o <= p < e
    ensures HostReached(HostAt(buf, o, s0, p), buf[p], HostAt(buf, o, s0, p + 1))
    ensures !HostAt(buf, o, s0, p + 1).HDead?
    ensures PartAt(buf, o, s0, p) == PartOf(HostAt(buf, o, s0, p + 1))
    ensures HostAt(buf, o, s0, o) == s0
  {
    assert buf[o..p + 1][..p - o] == buf[o..p] && buf[o..p + 1][p - o] == buf[p];
    assert buf[o..e][..p + 1 - o] == buf[o..p + 1] && buf[o..o] == [];
    hide ParseHostChar, HostReached, HostExact;
    if HostAt(buf, o, s0, p + 1).HDead? { DeadHost(s0, buf[o..e], p + 1 - o); }
    HostReaches(HostAt(buf, o, s0, p), buf[p]);
  }

  // A byte of the host part, by the parts.
  lemma PartIs(buf: seq<byte>, o: nat, e: nat, s0: HostState, h: HostParts, p: nat)
    requires HostRead(buf, o, e, s0, h) && o <= p < e
    ensures var r := HostAt(buf, o, s0, p + 1);
            && (h.user.Some? && h.user.value.Has(p) <==> r.InUserinfo?)
            && (h.host.Has(p) <==> r.InHost? || r.InV6?)
            && (h.port.Some? && h.port.value.Has(p) <==> r.InPort?)
  {
    HostStepTo(buf, o, e, s0, h, p);
    hide HostReached, HostAt, HostScan, PartAt;
  }

  // From the state after byte p back to the one before.
  lemma BackToUser(buf: seq<byte>, o: nat, e: nat, s0: HostState, h: HostParts, p: nat)
    requires HostRead(buf, o, e, s0, h) && o <= p < e
    ensures var s, r := HostAt(buf, o, s0, p), HostAt(buf, o, s0, p + 1);
            && (r.InUserinfo? && p > o ==> s.InUserinfo?) && (s.InUserinfo? ==> r.InUserinfo? || r.HostStart?)
            && (r.HostStart? ==> buf[p] == '@' && (p > o ==> s.InUserinfo?))
  {
    HostStepTo(buf, o, e, s0, h, p);
    if p > o { HostStepTo(buf, o, e, s0, h, p - 1); }
    hide HostRead, HostAt;
  }

  lemma BackToHost(buf: seq<byte>, o: nat, e: nat, s0: HostState, h: HostParts, p: nat)
    requires HostRead(buf, o, e, s0, h) && o <= p < e
    ensures var s, r := HostAt(buf, o, s0, p), HostAt(buf, o, s0, p + 1);
            && (r.InHost? ==> s.HostStart? || s.InHost?) && (r.InV6? ==> s.V6Start? || s.InV6?)
            && (r.V6Start? ==> buf[p] == '[' && s.HostStart?)
    ensures HostAt(buf, o, s0, o) == s0
  {
    HostStepTo(buf, o, e, s0, h, p);
    hide HostRead, HostAt;
  }

  lemma BackToPort(buf: seq<byte>, o: nat, e: nat, s0: HostState, h: HostParts, p: nat)
    requires HostRead(buf, o, e, s0, h) && o <= p < e
    ensures var s, r := HostAt(buf, o, s0, p), HostAt(buf, o, s0, p + 1);
            && (r.V6End? ==> buf[p] == ']' && s.InV6? && p > o)
            && (r.PortStart? ==> buf[p] == ':' && (s.InHost? || s.V6End?) && p > o)
            && (r.InPort? ==> (s.PortStart? || s.InPort?) && p > o)
  {
    HostStepTo(buf, o, e, s0, h, p);
    hide HostAt;
  }

  // What the invariant of the loop says of the end.
  lemma HostReadEnds(buf: seq<byte>, o: nat, e: nat, s0: HostState, h: HostParts)
    requires HostRead(buf, o, e, s0, h)
    ensures o <= e <= |buf|
    ensures var s := HostAt(buf, o, s0, e);
            && (s.InHost? || s.V6End? || s.InPort?) && h.host.len > 0 && o <= h.host.off && h.host.End() <= e
            && (h.user.Some? ==> h.user.value.len > 0 && o <= h.user.value.off && h.user.value.End() <= h.host.off)
            && (h.port.Some? <==> s.InPort?)
            && (h.port.Some? ==> h.port.value.len > 0 && h.host.End() <= h.port.value.off && h.port.value.End() == e)
            && (s.InHost? ==> h.host.End() == e)
  {
    hide IsDelimiter, InParts, HostAt, HostExact;
  }

  // User information stands at the start, and an at-sign follows it.
  lemma UserForm(buf: seq<byte>, o: nat, e: nat, s0: HostState, h: HostParts)
    requires HostRead(buf, o, e, s0, h) && h.user.Some?
    ensures h.user.value.off == o && h.user.value.End() < e && buf[h.user.value.End()] == '@'
    ensures HostAt(buf, o, s0, o + 1).InUserinfo?
  {
    hide HostRead, HostAt;
    HostReadEnds(buf, o, e, s0, h);
    UserStarts(buf, o, e, s0, h);
    var n := h.user.value.End();
    PartIs(buf, o, e, s0, h, n - 1);
    PartIs(buf, o, e, s0, h, n);
    BackToUser(buf, o, e, s0, h, n);
  }

  lemma UserStarts(buf: seq<byte>, o: nat, e: nat, s0: HostState, h: HostParts)
    requires HostRead(buf, o, e, s0, h) && h.user.Some?
    ensures h.user.value.off == o < e && HostAt(buf, o, s0, o + 1).InUserinfo?
  {
    hide HostRead, HostAt;
    HostReadEnds(buf, o, e, s0, h);
    var u := h.user.value.off;
    PartIs(buf, o, e, s0, h, u);
    BackToUser(buf, o, e, s0, h, u);
    if u > o { PartIs(buf, o, e, s0, h, u - 1); }
  }

  // Where the automaton waits for a host.
  lemma HostStartForm(buf: seq<byte>, o: nat, e: nat, s0: HostState, h: HostParts, q: nat)
    requires HostRead(buf, o, e, s0, h) && o <= q < e && HostAt(buf, o, s0, q).HostStart?
    ensures var a := if h.user.Some? then h.user.value.End() else o;
            (q == a && h.user.None?) || (q == a + 1 && buf[a] == '@')
  {
    hide HostRead, HostAt;
    HostReadEnds(buf, o, e, s0, h);
    if h.user.Some? {
      UserForm(buf, o, e, s0, h);
      StartsUser(buf, o, e, s0, h);
    }
    if q > o {
      BackToUser(buf, o, e, s0, h, q - 1);
      PartIs(buf, o, e, s0, h, q - 1);
      if q - 1 > o { PartIs(buf, o, e, s0, h, q - 2); }
    }
  }

  lemma StartsUser(buf: seq<byte>, o: nat, e: nat, s0: HostState, h: HostParts)
    requires HostRead(buf, o, e, s0, h) && o < e && HostAt(buf, o, s0, o + 1).InUserinfo?
    ensures !HostAt(buf, o, s0, o).HostStart?
  {
    HostStepTo(buf, o, e, s0, h, o);
    hide HostRead, HostAt;
  }

  // The host is in brackets or it is not.
  lemma {:induction false} OneKind(buf: seq<byte>, o: nat, e: nat, s0: HostState, h: HostParts, i: nat)
    requires HostRead(buf, o, e, s0, h) && h.host.off <= i < h.host.End()
    ensures o <= i < e && HostAt(buf, o, s0, i + 1).InV6? == HostAt(buf, o, s0, h.host.off + 1).InV6?
    ensures HostAt(buf, o, s0, i + 1).InV6? == !HostAt(buf, o, s0, i + 1).InHost?
    decreases i
  {
    hide HostRead, HostAt;
    HostReadEnds(buf, o, e, s0, h);
    PartIs(buf, o, e, s0, h, i);
    if i > h.host.off {
      OneKind(buf, o, e, s0, h, i - 1);
      BackToHost(buf, o, e, s0, h, i);
    }
  }

  // What stands before the host.
  lemma HostBefore(buf: seq<byte>, o: nat, e: nat, s0: HostState, h: HostParts) returns (v6: bool)
    requires HostRead(buf, o, e, s0, h)
    ensures o <= h.host.off < e && v6 == HostAt(buf, o, s0, h.host.off + 1).InV6?
    ensures var a, t := if h.user.Some? then h.user.value.End() else o, h.host.off;
            && a <= t <= |buf|
            && (buf[a..t] == (if v6 then ['['] else []) || buf[a..t] == ['@'] + if v6 then ['['] else [])
  {
    hide HostRead, HostAt;
    HostReadEnds(buf, o, e, s0, h);
    var a, t := if h.user.Some? then h.user.value.End() else o, h.host.off;
    FirstOfHost(buf, o, e, s0, h);
    v6 := HostAt(buf, o, s0, t + 1).InV6?;
    var q := if v6 then t - 1 else t;
    if v6 { BackToHost(buf, o, e, s0, h, q); }
    HostStartForm(buf, o, e, s0, h, q);
    TextBefore(buf, a, t, v6);
  }

  lemma FirstOfHost(buf: seq<byte>, o: nat, e: nat, s0: HostState, h: HostParts)
    requires HostRead(buf, o, e, s0, h)
    ensures var t := h.host.off;
            && o <= t < e <= |buf|
            && if HostAt(buf, o, s0, t + 1).InV6? then o < t && HostAt(buf, o, s0, t).V6Start?
               else HostAt(buf, o, s0, t).HostStart?
  {
    hide HostRead, HostAt;
    HostReadEnds(buf, o, e, s0, h);
    var t := h.host.off;
    PartIs(buf, o, e, s0, h, t);
    BackToHost(buf, o, e, s0, h, t);
    if t > o { PartIs(buf, o, e, s0, h, t - 1); } else { HostBeginsAt(buf, o, e, s0, h); }
  }

  lemma HostBeginsAt(buf: seq<byte>, o: nat, e: nat, s0: HostState, h: HostParts)
    requires HostRead(buf, o, e, s0, h)
    ensures HostAt(buf, o, s0, o).UserinfoStart? || HostAt(buf, o, s0, o).HostStart?
  {
    assert buf[o..o] == [];
    hide HostExact, HostScan;
  }

  lemma TextBefore(buf: seq<byte>, a: nat, t: nat, v6: bool)
    requires t <= |buf| && (v6 ==> t > 0 && buf[t - 1] == '[')
    requires var q := if v6 then t - 1 else t; q == a || (q == a + 1 && buf[a] == '@')
    ensures a <= t
    ensures buf[a..t] == (if v6 then ['['] else []) || buf[a..t] == ['@'] + if v6 then ['['] else []
  {
  }

  // What stands after it.
  ghost predicate Follows(buf: seq<byte>, e: nat, v6: bool, h: HostParts) {
    var z := if v6 then h.host.End() + 1 else h.host.End();
    && z <= e <= |buf| && e == HostEnd(v6, h) && (v6 ==> buf[h.host.End()] == ']')
    && (h.port.Some? ==> h.port.value.off == z + 1 && z < e && buf[z] == ':')
  }

  lemma HostAfter(buf: seq<byte>, o: nat, e: nat, s0: HostState, h: HostParts, v6: bool)
    requires HostRead(buf, o, e, s0, h) && v6 == HostAt(buf, o, s0, h.host.off + 1).InV6?
    ensures Follows(buf, e, v6, h)
  {
    hide HostRead, HostAt;
    HostReadEnds(buf, o, e, s0, h);
    if h.port.Some? {
      PortAfterHost(buf, o, e, s0, h, v6);
    } else if HostAt(buf, o, s0, e).V6End? {
      AfterBracket(buf, o, e, s0, h, e, v6);
    } else {
      OneKind(buf, o, e, s0, h, h.host.End() - 1);
    }
  }

  lemma PortAfterHost(buf: seq<byte>, o: nat, e: nat, s0: HostState, h: HostParts, v6: bool)
    requires HostRead(buf, o, e, s0, h) && v6 == HostAt(buf, o, s0, h.host.off + 1).InV6? && h.port.Some?
    ensures Follows(buf, e, v6, h)
  {
    hide HostRead, HostAt;
    PortOpens(buf, o, e, s0, h);
    var f := h.port.value.off;
    assert h.port.value.End() == e <= |buf| by { HostReadEnds(buf, o, e, s0, h); }
    if HostAt(buf, o, s0, f - 1).V6End? {
      AfterBracket(buf, o, e, s0, h, f - 1, v6);
    } else {
      AfterPlain(buf, o, e, s0, h, f - 1, v6);
    }
  }

  lemma PortOpens(buf: seq<byte>, o: nat, e: nat, s0: HostState, h: HostParts)
    requires HostRead(buf, o, e, s0, h) && h.port.Some?
    ensures var f := h.port.value.off;
            && o + 2 <= f < e && HostAt(buf, o, s0, f).PortStart? && buf[f - 1] == ':'
            && (HostAt(buf, o, s0, f - 1).V6End? || HostAt(buf, o, s0, f - 1).InHost?)
  {
    hide HostRead, HostAt;
    HostReadEnds(buf, o, e, s0, h);
    var f := h.port.value.off;
    PartIs(buf, o, e, s0, h, f);
    BackToPort(buf, o, e, s0, h, f);
    PartIs(buf, o, e, s0, h, f - 1);
    BackToPort(buf, o, e, s0, h, f - 1);
  }

  lemma AfterBracket(buf: seq<byte>, o: nat, e: nat, s0: HostState, h: HostParts, p: nat, v6: bool)
    requires HostRead(buf, o, e, s0, h) && o < p <= e && HostAt(buf, o, s0, p).V6End?
    requires v6 == HostAt(buf, o, s0, h.host.off + 1).InV6?
    ensures v6 && h.host.End() + 1 == p && buf[p - 1] == ']'
  {
    hide HostRead, HostAt;
    HostReadEnds(buf, o, e, s0, h);
    BackToPort(buf, o, e, s0, h, p - 1);
    PartIs(buf, o, e, s0, h, p - 1);
    PartIs(buf, o, e, s0, h, p - 2);
    OneKind(buf, o, e, s0, h, p - 2);
  }

  lemma AfterPlain(buf: seq<byte>, o: nat, e: nat, s0: HostState, h: HostParts, p: nat, v6: bool)
    requires HostRead(buf, o, e, s0, h) && o < p < e && HostAt(buf, o, s0, p).InHost?
    requires HostAt(buf, o, s0, p + 1).PortStart? && v6 == HostAt(buf, o, s0, h.host.off + 1).InV6?
    ensures !v6 && h.host.End() == p
  {
    hide HostRead, HostAt;
    HostReadEnds(buf, o, e, s0, h);
    PartIs(buf, o, e, s0, h, p);
    PartIs(buf, o, e, s0, h, p - 1);
    OneKind(buf, o, e, s0, h, p - 1);
  }

  // Every cut of the host loop has that form.
  lemma HostFormed(buf: seq<byte>, o: nat, e: nat, s0: HostState, h: HostParts) returns (v6: bool)
    requires HostRead(buf, o, e, s0, h)
    ensures HostForm(buf, o, e, v6, h)
  {
    hide HostRead, HostAt;
    HostReadEnds(buf, o, e, s0, h);
    v6 := HostBefore(buf, o, e, s0, h);
    HostAfter(buf, o, e, s0, h, v6);
    if h.user.Some? { UserForm(buf, o, e, s0, h); }
  }

  // The parts of the host part, from the entries.
  function PartsIn(set': set<UrlField>, d: Fields): HostParts
    requires Userinfo in d && Host in d && Port in d
  {
    HostParts(if Userinfo in set' then Some(d[Userinfo]) else None, d[Host],
              if Port in set' then Some(d[Port]) else None)
  }

  // The host part from o has its form, and the URL or a slash or question mark after it ends it.
  ghost predicate HostWhole(buf: seq<byte>, o: nat, h: HostParts) {
    exists e: nat, v6: bool :: HostForm(buf, o, e, v6, h) && (e == |buf| || buf[e] == '/' || buf[e] == '?')
  }

  // The host part follows "://" after a schema, and starts the URL without one.
  ghost predicate HostCut(buf: seq<byte>, set': set<UrlField>, d: Fields) {
    Total(d) &&
    var o, h := if Schema in set' then d[Schema].End() + 3 else 0, PartsIn(set', d);
    && (Schema in set' ==> o <= |buf| && buf[d[Schema].End()..o] == "://")
    && HostWhole(buf, o, h)
  }

  // Where the host part starts.
  lemma HostOpensAt(buf: seq<byte>, isConnect: bool, set': set<UrlField>, d: Fields)
    requires UrlAccepted(buf, isConnect) && Exact(buf, isConnect, |buf|, set', d) && Bounded(|buf|, set', d)
    requires Host in set'
    ensures if Schema in set' then
              && d[Host].off == d[Schema].End() + 3 && d[Host].off <= |buf|
              && buf[d[Schema].End()..d[Host].off] == "://"
            else d[Host].off == 0
  {
    hide UrlAccepted, UrlState, Exact;
    FirstOfField(buf, isConnect, set', d, Host);
    var o := d[Host].off;
    StartsAt(buf, isConnect);
    assert StateAt(buf, isConnect, o).ReqServerStart?;
    if o > 0 {
      BeforeServer(buf, isConnect, o);
      InF(buf, isConnect, set', d, Schema, o - 4);
      InF(buf, isConnect, set', d, Schema, o - 3);
      assert buf[o - 3..o] == "://";
    } else if Schema in set' {
      SchemaDelimited(buf, isConnect, set', d);
      InF(buf, isConnect, set', d, Schema, 0);
    }
  }

  lemma BeforeServer(buf: seq<byte>, isConnect: bool, o: nat)
    requires UrlAccepted(buf, isConnect) && 0 < o <= |buf| && StateAt(buf, isConnect, o).ReqServerStart?
    ensures o > 3 && buf[o - 3] == ':' && buf[o - 2] == '/' && buf[o - 1] == '/'
    ensures StateAt(buf, isConnect, o - 3).ReqSchema? && StateAt(buf, isConnect, o - 2).ReqSchemaSlash?
  {
    hide UrlAccepted, UrlState;
    StartsAt(buf, isConnect);
    StepTo(buf, isConnect, o - 1);
    if o > 1 {
      StepTo(buf, isConnect, o - 2);
      if o > 2 { StepTo(buf, isConnect, o - 3); }
    }
  }

  lemma HostCuts(buf: seq<byte>, isConnect: bool, set': set<UrlField>, d: Fields, h: HostParts)
    requires UrlAccepted(buf, isConnect) && Exact(buf, isConnect, |buf|, set', d) && Bounded(|buf|, set', d)
    requires FirstCut(set')
    requires HostRead(buf, d[Host].off, d[Host].End(), HostFirst(SeesAt(buf, isConnect, |buf|)), h)
    requires d[Host].End() == |buf| || buf[d[Host].End()] == '/' || buf[d[Host].End()] == '?'
    ensures HostCut(buf, WithHostSet(set', h), WithHost(d, h))
  {
    hide UrlAccepted, Exact, HostForm, SeesAt;
    HostOpensAt(buf, isConnect, set', d);
    var o, e := d[Host].off, d[Host].End();
    var v6 := HostFormed(buf, o, e, HostFirst(SeesAt(buf, isConnect, |buf|)), h);
    hide HostRead;
    assert HostForm(buf, o, e, v6, h) && HostWhole(buf, o, h);
    hide HostWhole;
    assert PartsIn(WithHostSet(set', h), WithHost(d, h)) == h;
  }

  // The host loop leaves the other fields as they are.
  lemma OuterKept(buf: seq<byte>, set': set<UrlField>, now: Fields, d: Fields, h: HostParts)
    requires Delimited(buf, set', d) && OuterStored(set', now, d) && Total(now) && Total(d)
    ensures var set2, now2, d2 := WithHostSet(set', h), WithHost(now, ShortParts(h)), WithHost(d, h);
            Delimited(buf, set2, d2) && OuterStored(set2, now2, d2)
  {
    hide Short, Delimited;
    var set2, now2, d2 := WithHostSet(set', h), WithHost(now, ShortParts(h)), WithHost(d, h);
    assert forall f | Outer(f) :: (f in set2 <==> f in set') && d2[f] == d[f] && now2[f] == now[f];
    hide WithHost, WithHostSet, ShortParts;
    DelimitedSame(buf, set', d, set2, d2);
  }

  lemma DelimitedSame(buf: seq<byte>, set': set<UrlField>, d: Fields, set2: set<UrlField>, d2: Fields)
    requires Delimited(buf, set', d) && Total(d2) && Total(d)
    requires forall f | Outer(f) :: (f in set2 <==> f in set') && d2[f] == d[f]
    ensures Delimited(buf, set2, d2)
  {
    hide Without, IsLetter;
    assert Outer(Schema) && Outer(Path) && Outer(Query) && Outer(Fragment);
  }

  lemma OuterCut(buf: seq<byte>, isConnect: bool, was: Fields, set': set<UrlField>, now: Fields, d: Fields)
    requires UrlAccepted(buf, isConnect) && Exact(buf, isConnect, |buf|, set', d) && Layout(buf, |buf|, set', d)
    requires Stored(now, was, set', d)
    ensures Total(d) && Delimited(buf, set', d) && OuterStored(set', now, d)
  {
    hide UrlAccepted, Exact, Short;
    CutDelimited(buf, isConnect, set', d);
    hide Delimited;
  }

  /* ---- Where the code departs from its own rule, that a schema needs a host. ---- */

  predicate AllAlpha(s: seq<byte>) { forall i | 0 <= i < |s| :: IsAlpha(s[i]) }

  lemma {:induction false} AlphaRuns(s: seq<byte>)
    requires s != [] && AllAlpha(s)
    ensures UrlState(UrlStart(false), s) == ReqSchema && HostRun(HostStart, s) == InHost
  {
    var n := |s| - 1;
    assert IsAlpha(s[n]);
    if n > 0 {
      assert AllAlpha(s[..n]);
      AlphaRuns(s[..n]);
    } else {
      assert s[..0] == [];
    }
    hide IsAlpha;
  }

  lemma AlphaStates(s: seq<byte>, buf: seq<byte>)
    requires s != [] && AllAlpha(s) && s <= buf
    ensures forall k | 0 < k <= |s| :: UrlState(UrlStart(false), buf[..k]) == ReqSchema
  {
    hide UrlState, HostRun;
    forall k | 0 < k <= |s|
      ensures UrlState(UrlStart(false), buf[..k]) == ReqSchema
    {
      assert AllAlpha(s[..k]) && buf[..k] == s[..k];
      AlphaRuns(s[..k]);
    }
  }

  // A URL of letters alone is a schema without a host. It is accepted when the entry for the host, left over from
  // another use, happens to span letters: these are then the host.
  lemma SchemaAlone(s: seq<byte>)
    requires s != [] && AllAlpha(s)
    ensures UrlAccepted(s, false) && Shows(s, false, Schema) && !Shows(s, false, Host) && !HostAccepted(s, false)
    ensures HostPasses(s, false, Span(0, |s|)) && !Sets(s, false, Span(0, |s|), Port)
  {
    AlphaStates(s, s);
    hide UrlState, HostRun, HostPart;
    assert forall i | 0 <= i < |s| :: FieldAt(s, false, i) == Some(Schema);
    assert FieldAt(s, false, 0) == Some(Schema);
    NoHost(s, false, |s|);
    assert s[0..|s|] == s;
    AlphaRuns(s);
    forall i | 0 <= i < |s|
      ensures PartAt(s, 0, HostStart, i) == Some(Host)
    {
      assert s[0..i + 1] == s[..i + 1] && AllAlpha(s[..i + 1]);
      AlphaRuns(s[..i + 1]);
    }
  }

  // So is one whose host is a single bracket, no host at all, but lies beyond the reach of 16 bits: letters of the
  // schema are then taken for the host.
  lemma HostTooFar(s: seq<byte>, was: Span)
    requires |s| == 0x1_0000 && AllAlpha(s)
    ensures var buf := s + [':', '/', '/', '['];
            && UrlAccepted(buf, false) && Shows(buf, false, Host) && !HostAccepted(buf, false)
            && HostPasses(buf, false, was) && !Sets(buf, false, was, Port)
  {
    var n, buf := |s|, s + [':', '/', '/', '['];
    FarStates(s, buf);
    FarFields(buf, n);
    hide UrlState, HostRun, HostPart, HostEnds, HostShows, Short, Low, AllAlpha, FieldAt, SeesAt, UrlAccepted;
    NoHost(buf, false, n + 3);
    FarHost(buf, n + 3);
    var far := HostPart(buf, false, |buf|).value;
    assert Shows(buf, false, Host);
    NoPortYet(buf, false);
    Wraps(far);
    FarLook(s, buf, far, Short(far));
    FarPasses(buf, far, was);
  }

  lemma FarPasses(buf: seq<byte>, far: Span, was: Span)
    requires HostPart(buf, false, |buf|) == Some(far) && Shows(buf, false, Host) && !Shows(buf, false, Port)
    requires !HostEnds(buf, false, far) && HostEnds(buf, false, Short(far)) && !HostShows(buf, false, Short(far), Port)
    ensures !HostAccepted(buf, false) && HostPasses(buf, false, was) && !Sets(buf, false, was, Port)
  {
    hide HostEnds, HostShows, Shows, Short, HostPart;
  }

  lemma NoPortYet(buf: seq<byte>, isConnect: bool)
    ensures !Shows(buf, isConnect, Port)
  {
    hide UrlState;
  }

  lemma FarFields(buf: seq<byte>, n: nat)
    requires 0 < n && |buf| == n + 4
    requires forall k | 0 < k <= n :: UrlState(UrlStart(false), buf[..k]) == ReqSchema
    requires UrlState(UrlStart(false), buf[..n + 1]) == ReqSchemaSlash
    requires UrlState(UrlStart(false), buf[..n + 2]) == ReqSchemaSlashSlash
    requires UrlState(UrlStart(false), buf[..n + 3]) == ReqServerStart
    requires UrlState(UrlStart(false), buf[..n + 4]) == ReqServer
    ensures UrlAccepted(buf, false) && !SeesAt(buf, false, |buf|)
    ensures forall i | 0 <= i < n + 3 :: FieldAt(buf, false, i) != Some(Host)
    ensures FieldAt(buf, false, n + 3) == Some(Host)
  {
    hide UrlState;
    forall k | 0 < k <= |buf|
      ensures InUrl(UrlState(UrlStart(false), buf[..k])) && !UrlState(UrlStart(false), buf[..k]).ReqServerWithAt?
    {
      assert k <= n || k == n + 1 || k == n + 2 || k == n + 3 || k == n + 4;
    }
  }

  lemma FarLook(s: seq<byte>, buf: seq<byte>, far: Span, near: Span)
    requires |s| == 0x1_0000 && AllAlpha(s) && buf == s + [':', '/', '/', '['] && !SeesAt(buf, false, |buf|)
    requires far.off == 0x1_0003 && far.len == 1 && near.off == 3 && near.len == 1
    ensures !HostEnds(buf, false, far) && HostEnds(buf, false, near) && !HostShows(buf, false, near, Port)
  {
    hide HostRun, SeesAt;
    assert buf[far.off..far.End()] == ['['] && buf[near.off..near.End()] == [s[3]] && AllAlpha([s[3]]);
    Bracket();
    AlphaRuns([s[3]]);
  }

  lemma FarStates(s: seq<byte>, buf: seq<byte>)
    requires s != [] && AllAlpha(s) && buf == s + [':', '/', '/', '[']
    ensures forall k | 0 < k <= |s| :: UrlState(UrlStart(false), buf[..k]) == ReqSchema
    ensures UrlState(UrlStart(false), buf[..|s| + 1]) == ReqSchemaSlash
    ensures UrlState(UrlStart(false), buf[..|s| + 2]) == ReqSchemaSlashSlash
    ensures UrlState(UrlStart(false), buf[..|s| + 3]) == ReqServerStart
    ensures UrlState(UrlStart(false), buf[..|s| + 4]) == ReqServer
  {
    AlphaStates(s, buf);
    AfterSchema();
    hide UrlState, HostRun, AllAlpha, ParseUrlChar, FieldOf, SeesAt, AcceptedTo;
    var n := |s|;
    NextUrlState(buf, false, n);
    NextUrlState(buf, false, n + 1);
    NextUrlState(buf, false, n + 2);
    NextUrlState(buf, false, n + 3);
  }

  lemma AfterSchema()
    ensures ParseUrlChar(ReqSchema, ':') == ReqSchemaSlash && ParseUrlChar(ReqSchemaSlash, '/') == ReqSchemaSlashSlash
    ensures ParseUrlChar(ReqSchemaSlashSlash, '/') == ReqServerStart && ParseUrlChar(ReqServerStart, '[') == ReqServer
  {
  }

  lemma FarHost(buf: seq<byte>, p: nat)
    requires |buf| == p + 1 && HostPart(buf, false, p).None? && FieldAt(buf, false, p) == Some(Host)
    ensures HostPart(buf, false, |buf|) == Some(Span(p, 1))
  {
    hide FieldAt;
  }

  lemma Wraps(h: Span)
    requires h.off == 0x1_0003 && h.len == 1
    ensures Short(h).off == 3 && Short(h).len == 1
  {
  }

  lemma Bracket()
    ensures HostRun(HostStart, ['[']) == V6Start
  {
    assert ['['][..0] == [];
  }
}
