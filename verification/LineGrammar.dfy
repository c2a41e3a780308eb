/** Exactly the well-formed status lines and request lines are accepted: whatever is accepted can be written from parts
    (src/http_parser.c:683-1172). */
module LineGrammar {
  import opened Options
  import opened Bytes
  import opened ParserState
  import opened UrlChars
  import opened Switch
  import opened Machine
  import opened Lengths
  import opened Headers
  import opened StatusLine
  import opened StartLines
  import Methods
  import ParseUrl
  import UrlAgreement

  /* ---- The version, read backwards. ---- */

  // How far the version has been read in state s: up to 5, the letters of the protocol's name; 6 in the number before
  // the dot, 7 after the dot, 8 in the number after it, 9 past it.
  function Stage(s: State): nat {
    if s.StartRes? || s.ReqHttpStart? then 0
    else if s.ResH? || s.ReqHttpH? then 1
    else if s.ResHT? || s.ReqHttpHT? then 2
    else if s.ResHTT? || s.ReqHttpHTT? then 3
    else if s.ResHTTP? || s.ReqHttpHTTP? then 4
    else if s.ResFirstHttpMajor? || s.ReqFirstHttpMajor? then 5
    else if s.ResHttpMajor? || s.ReqHttpMajor? then 6
    else if s.ResFirstHttpMinor? || s.ReqFirstHttpMinor? then 7
    else if s.ResHttpMinor? || s.ReqHttpMinor? then 8 else 9
  }

  predicate BeforeMajor(s: State) { Stage(s) <= 5 }
  predicate OnMajor(s: State) { Stage(s) == 6 }
  predicate BeforeMinor(s: State) { Stage(s) == 7 }
  predicate OnMinor(s: State) { Stage(s) == 8 }

  datatype Version = Version(major: seq<byte>, minor: seq<byte>)

  // The text of what has been read in state s.
  function VersionSoFar(s: State, v: Version): seq<byte> { TextAt(Stage(s), v) }

  function TextAt(k: nat, v: Version): seq<byte> { Joined(if k < 5 then k else 5, v.major, k > 6, v.minor) }

  function Joined(k: nat, major: seq<byte>, dot: bool, minor: seq<byte>): seq<byte>
    requires k <= 5
  {
    PROTOCOL[..k] + major + (if dot then ['.'] else []) + minor
  }

  lemma LetterJoins(k: nat)
    requires k < 5
    ensures Joined(k + 1, [], false, []) == Joined(k, [], false, []) + [PROTOCOL[k]]
  {
    assert PROTOCOL[..k + 1] == PROTOCOL[..k] + [PROTOCOL[k]];
  }

  lemma MajorJoins(major: seq<byte>, ch: byte)
    ensures Joined(5, major + [ch], false, []) == Joined(5, major, false, []) + [ch]
  {
  }

  lemma MinorJoins(major: seq<byte>, minor: seq<byte>, ch: byte)
    ensures Joined(5, major, true, []) == Joined(5, major, false, []) + ['.']
    ensures Joined(5, major, true, minor + [ch]) == Joined(5, major, true, minor) + [ch]
  {
  }

  predicate Major(v: Version, req: bool) { IsNumber(v.major) && (req ==> v.major[0] != '0') }

  // What has been read in state c.state.
  predicate VersionReads(c: Core, v: Version, req: bool) {
    if BeforeMajor(c.state) then v == Version([], [])
    else
      && Major(v, req)
      && if OnMajor(c.state) then c.major == NumberValue(v.major) && v.minor == []
         else if BeforeMinor(c.state) then v.minor == []
         else IsNumber(v.minor) && (OnMinor(c.state) ==> c.minor == NumberValue(v.minor))
  }

  function VersionExtended(v: Version, ch: byte, t: State): Version { ExtendedAt(v, ch, Stage(t)) }

  function ExtendedAt(v: Version, ch: byte, k: nat): Version {
    if k == 6 then v.(major := v.major + [ch]) else if k == 8 then v.(minor := v.minor + [ch]) else v
  }

  // A number that goes on.
  lemma NumberGrows(ds: seq<byte>, ch: byte)
    requires IsNum(ch) && (ds == [] || (IsNumber(ds) && NumberValue(ds) as int * 10 + DigitOf(ch) <= 999))
    ensures IsNumber(ds + [ch])
    ensures NumberValue(ds + [ch]) as int
            == if ds == [] then DigitOf(ch) else NumberValue(ds) as int * 10 + DigitOf(ch)
    ensures (ds + [ch])[0] == if ds == [] then ch else ds[0]
  {
    if ds == [] {
      assert [] + [ch] == [ch];
      OneDigitText(ch);
    } else {
      DecSnoc(ds, ch);
    }
  }

  // A digit of a number, first or later.
  lemma NextDigit(n: uint16, ds: seq<byte>, ch: byte, m: uint16)
    requires IsNum(ch) && IsNumber(ds) && n == NumberValue(ds) && m == TimesTen(n, ch) && m <= 999
    ensures IsNumber(ds + [ch]) && m == NumberValue(ds + [ch]) && (ds + [ch])[0] == ds[0]
  {
    hide TimesTen, IsNumber, NumberValue, DecValue;
    SmallNumber(ds);
    NextNumber(n, ch);
    NumberGrows(ds, ch);
  }

  lemma SmallNumber(ds: seq<byte>)
    requires IsNumber(ds)
    ensures NumberValue(ds) <= 999 && ds != []
  {
    hide DecValue;
  }

  lemma FirstDigit(ch: byte)
    requires IsNum(ch)
    ensures var ds := [] + [ch]; IsNumber(ds) && NumberValue(ds) as int == DigitOf(ch) && ds[0] == ch
  {
    hide IsNumber, NumberValue, DecValue;
    NumberGrows([], ch);
  }

  lemma ResVersionStep(c: Core, ch: byte, v: Version)
    requires Inv(c) && InResVersion(c.state) && VersionReads(c, v, false)
    requires !ResVersionTurn(c, ch).act.Fail?
    ensures var t := ResVersionTurn(c, ch);
            && t.act.Break? && !t.resets
            && t.core == c.(state := t.core.state, major := t.core.major, minor := t.core.minor)
            && if t.core.state.ResFirstStatusCode? then ch == ' ' && c.state.ResHttpMinor?
               else InResVersion(t.core.state) && VersionReads(t.core, VersionExtended(v, ch, t.core.state), false)
  {
    hide Inv, Sound, TimesTen, IsNumber, NumberValue, DecValue;
    var t := ResVersionTurn(c, ch);
    if IsNum(ch) {
      FirstDigit(ch);
      if c.state.ResHttpMajor? { NextDigit(c.major, v.major, ch, t.core.major); }
      if c.state.ResHttpMinor? { NextDigit(c.minor, v.minor, ch, t.core.minor); }
    }
  }

  // How the states of the version follow one another.
  predicate StageGoes(a: nat, ch: byte, b: nat) {
    if b <= 5 then b == a + 1 && ch == PROTOCOL[a]
    else if b == 6 then a == 5 || a == 6
    else if b == 7 then a == 6 && ch == '.'
    else b == 8 && (a == 7 || a == 8)
  }

  predicate VersionGoes(s: State, ch: byte, t: State) { StageGoes(Stage(s), ch, Stage(t)) }

  lemma TextGrows(a: nat, ch: byte, b: nat, v: Version)
    requires StageGoes(a, ch, b) && (a <= 7 ==> v.minor == []) && (a <= 5 ==> v.major == [])
    ensures TextAt(b, ExtendedAt(v, ch, b)) == TextAt(a, v) + [ch]
  {
    hide Joined;
    if b <= 5 { LetterJoins(a); } else if b == 6 { MajorJoins(v.major, ch); } else { MinorJoins(v.major, v.minor, ch); }
  }

  lemma VersionGrows(s: State, ch: byte, t: State, v: Version)
    requires VersionGoes(s, ch, t) && (BeforeMinor(s) || OnMajor(s) || BeforeMajor(s) ==> v.minor == [])
    requires BeforeMajor(s) ==> v.major == []
    ensures VersionSoFar(t, VersionExtended(v, ch, t)) == VersionSoFar(s, v) + [ch]
  {
    hide Stage, TextAt, ExtendedAt, StageGoes;
    TextGrows(Stage(s), ch, Stage(t), v);
  }

  lemma ResVersionGoes(c: Core, ch: byte)
    requires Inv(c) && InResVersion(c.state) && !ResVersionTurn(c, ch).act.Fail?
    ensures var t := ResVersionTurn(c, ch).core.state;
            (t.ResFirstStatusCode? || VersionGoes(c.state, ch, t)) && !t.StartRes?
  {
    hide Inv, Sound, TimesTen;
  }

  /* ---- Status lines, read backwards. ---- */

  function VersionOf(l: Answer): Version { Version(l.major, l.minor) }

  function AnswerSoFar(s: State, l: Answer): seq<byte> {
    VersionSoFar(s, VersionOf(l)) + l.spaces + l.code + l.reason + if s.ResLineAlmostDone? then [CR] else []
  }

  // What has been read in state c.state.
  predicate AnswerReads(c: Core, l: Answer) {
    && (c.state.StartRes? || InResVersion(c.state) || InStatus(c.state)) && VersionReads(c, VersionOf(l), false)
    && if !InStatus(c.state) then l.spaces == [] && l.code == [] && l.reason == []
       else
         && l.spaces != [] && AllSpaces(l.spaces)
         && if c.state.ResFirstStatusCode? then l.code == [] && l.reason == []
            else
              && IsNumber(l.code) && NoLineEnd(l.reason) && (l.reason != [] ==> l.reason[0] == ' ')
              && (c.state.ResStatusCode? ==> c.statusCode == NumberValue(l.code) && l.reason == [])
              && (c.state.ResStatus? ==> l.reason != [])
  }

  function AnswerExtended(l: Answer, ch: byte, t: State): Answer {
    var v := VersionExtended(VersionOf(l), ch, t);
    if t.ResFirstStatusCode? then l.(spaces := l.spaces + [ch])
    else if t.ResStatusCode? then l.(code := l.code + [ch])
    else if t.ResStatus? then l.(reason := l.reason + [ch])
    else l.(major := v.major, minor := v.minor)
  }

  lemma VersionKept(c: Core, l: Answer, d: Core)
    requires VersionReads(c, VersionOf(l), false) && (OnMinor(c.state) || InStatus(c.state)) && InStatus(d.state)
    ensures VersionSoFar(d.state, VersionOf(l)) == VersionSoFar(c.state, VersionOf(l))
    ensures VersionReads(d, VersionOf(l), false)
  {
    hide IsNumber, NumberValue, DecValue;
  }

  lemma StatusReads(c: Core, ch: byte, l: Answer)
    requires Inv(c) && InStatus(c.state) && AnswerReads(c, l) && ch != LF && !StatusTurn(c, ch).act.Fail?
    ensures var t := StatusTurn(c, ch).core; InStatus(t.state) && AnswerReads(t, AnswerExtended(l, ch, t.state))
  {
    hide Inv, Sound, TimesTen, IsNumber, NumberValue, DecValue, VersionReads, VersionSoFar;
    var t := StatusTurn(c, ch);
    VersionKept(c, l, t.core);
    if IsNum(ch) {
      FirstDigit(ch);
      if c.state.ResStatusCode? { NextDigit(c.statusCode, l.code, ch, t.core.statusCode); }
    }
  }

  // How the states after the version follow one another.
  lemma StatusShape(c: Core, ch: byte)
    requires Inv(c) && InStatus(c.state) && ch != LF && !StatusTurn(c, ch).act.Fail?
    ensures var s, t := c.state, StatusTurn(c, ch).core.state;
            || (t.ResFirstStatusCode? && s.ResFirstStatusCode? && ch == ' ')
            || (t.ResStatusCode? && (s.ResFirstStatusCode? || s.ResStatusCode?))
            || (t.ResStatus? && (s.ResStatusCode? || s.ResStatus?))
            || (t.ResLineAlmostDone? && (s.ResStatusCode? || s.ResStatus?) && ch == CR)
  {
    hide Inv, Sound, TimesTen;
  }

  lemma StatusStep(c: Core, ch: byte, l: Answer)
    requires Inv(c) && InStatus(c.state) && AnswerReads(c, l) && ch != LF && !StatusTurn(c, ch).act.Fail?
    ensures var t := StatusTurn(c, ch).core;
            && AnswerReads(t, AnswerExtended(l, ch, t.state))
            && AnswerSoFar(t.state, AnswerExtended(l, ch, t.state)) == AnswerSoFar(c.state, l) + [ch]
  {
    hide Inv, Sound, IsNumber, NumberValue, DecValue, VersionReads, VersionSoFar, StatusTurn;
    StatusReads(c, ch, l);
    StatusShape(c, ch);
    VersionKept(c, l, StatusTurn(c, ch).core);
  }

  lemma VersionAnswerStep(c: Core, ch: byte, l: Answer)
    requires Inv(c) && InResVersion(c.state) && AnswerReads(c, l) && !ResVersionTurn(c, ch).act.Fail?
    ensures var t := ResVersionTurn(c, ch);
            && !t.core.state.StartRes? && AnswerReads(t.core, AnswerExtended(l, ch, t.core.state))
            && AnswerSoFar(t.core.state, AnswerExtended(l, ch, t.core.state)) == AnswerSoFar(c.state, l) + [ch]
  {
    hide Inv, Sound, TimesTen, IsNumber, NumberValue, DecValue, VersionSoFar, ResVersionTurn;
    ResVersionStep(c, ch, VersionOf(l));
    ResVersionGoes(c, ch);
    var t := ResVersionTurn(c, ch);
    if t.core.state.ResFirstStatusCode? {
      VersionKept(c, l, t.core);
    } else {
      VersionGrows(c.state, ch, t.core.state, VersionOf(l));
    }
  }

  lemma FirstAnswerStep(c: Core, ch: byte, l: Answer)
    requires Inv(c) && c.state.StartRes? && AnswerReads(c, l) && ch != LF && ch != CR && !StartResTurn(c, ch).act.Fail?
    ensures var t := StartResTurn(c, ch);
            && t.core == Fresh(c).(state := ResH) && AnswerReads(t.core, AnswerExtended(l, ch, ResH))
            && AnswerSoFar(ResH, AnswerExtended(l, ch, ResH)) == AnswerSoFar(c.state, l) + [ch]
  {
    hide Inv, Sound, IsNumber, NumberValue, DecValue;
    LetterJoins(0);
  }

  ghost predicate AnswerGoesOn(c: Core, l: Answer, s: seq<byte>) {
    AnswerReads(c, l) && AnswerSoFar(c.state, l) == s
  }

  lemma AnswerStep(c: Core, ch: byte, l: Answer, s: seq<byte>)
    requires Inv(c) && AnswerGoesOn(c, l, s) && ch != LF && (c.state.StartRes? ==> ch != CR)
    requires !SwitchOn(c, ch).act.Fail?
    ensures AnswerGoesOn(SwitchOn(c, ch).core, AnswerExtended(l, ch, SwitchOn(c, ch).core.state), s + [ch])
    ensures !SwitchOn(c, ch).core.state.StartRes?
  {
    hide Inv, Sound, SwitchOn, StartResTurn, ResVersionTurn, StatusTurn, AnswerExtended, AnswerSoFar, VersionReads;
    StatusArm(c, ch);
    if c.state.StartRes? {
      FirstAnswerStep(c, ch, l);
    } else if InResVersion(c.state) {
      VersionAnswerStep(c, ch, l);
    } else {
      StatusStep(c, ch, l);
      StatusStays(c, ch);
    }
  }

  lemma StatusStays(c: Core, ch: byte)
    requires Inv(c) && InStatus(c.state) && ch != LF && !StatusTurn(c, ch).act.Fail?
    ensures InStatus(StatusTurn(c, ch).core.state)
  {
    hide Inv, Sound;
  }

  lemma NoAnswerRepeats(c: Core, ch: byte)
    requires Inv(c) && (c.state.StartRes? || InResVersion(c.state) || InStatus(c.state))
    ensures !Repeats(SwitchOn(c, ch).act) && !SwitchOn(c, ch).act.Leave?
  {
    hide Inv, Sound, TimesTen;
    StatusArm(c, ch);
    hide SwitchOn;
  }

  const NO_ANSWER := Answer([], [], [], [], [], false)

  lemma NothingYet(c: Core)
    requires c.state.StartRes?
    ensures AnswerGoesOn(c, NO_ANSWER, [])
  {
  }

  lemma {:induction false} AnswerBack(p: Parser, s: seq<byte>, skip: Answers) returns (l: Answer)
    requires Ready(p) && p.core.state.StartRes? && NoLf(s) && (s != [] ==> s[0] != CR) && Run(p, s, skip).verdict == Go
    ensures var c := Run(p, s, skip).parser.core; AnswerGoesOn(c, l, s) && (s != [] ==> !c.state.StartRes?)
    decreases |s|
  {
    hide Run, SwitchOn, Inv, AnswerGoesOn, AnswerExtended;
    if s == [] {
      EmptyRun(p, skip);
      NothingYet(p.core);
      l := NO_ANSWER;
    } else {
      var n := |s| - 1;
      assert s == s[..n] + [s[n]];
      GoParts(p, s[..n], [s[n]], skip);
      var was := AnswerBack(p, s[..n], skip);
      var q := Run(p, s[..n], skip).parser;
      InLine(q.core, was, s[..n]);
      NoAnswerRepeats(q.core, s[n]);
      GoByte(q, s[n], skip);
      AnswerStep(q.core, s[n], was, s[..n]);
      l := AnswerExtended(was, s[n], SwitchOn(q.core, s[n]).core.state);
    }
  }

  lemma InLine(c: Core, l: Answer, s: seq<byte>)
    requires AnswerGoesOn(c, l, s)
    ensures c.state.StartRes? || InResVersion(c.state) || InStatus(c.state)
  {
    hide VersionReads, AnswerSoFar;
  }

  // The line feed that ends the line.
  lemma AnswerEnds(c: Core, l: Answer, s: seq<byte>) returns (whole: Answer)
    requires Inv(c) && AnswerGoesOn(c, l, s) && !c.state.StartRes? && !SwitchOn(c, LF).act.Fail?
    ensures ProperAnswer(whole) && AnswerText(whole) == s + [LF]
  {
    hide Inv, Sound, TimesTen, IsNumber, NumberValue, DecValue;
    StatusArm(c, LF);
    hide SwitchOn;
    whole := l.(crlf := c.state.ResLineAlmostDone?);
    assert c.state.ResStatusCode? || c.state.ResStatus? || c.state.ResLineAlmostDone?;
    hide StatusTurn, ResVersionTurn;
    assert VersionSoFar(c.state, VersionOf(l)) == VersionText(l.major, l.minor);
  }

  ghost predicate IsAnswer(s: seq<byte>) { exists l: Answer :: ProperAnswer(l) && AnswerText(l) == s }

  // A status line, from its first letter to the line feed, is accepted exactly if it is well-formed.
  lemma AnswerExactly(p: Parser, s: seq<byte>, skip: Answers)
    requires Ready(p) && p.core.state.StartRes? && NoLf(s) && s != [] && s[0] != CR
    requires p.nread + |s| < MAX_HEADER_SIZE
    ensures Run(p, s + [LF], skip).verdict == Go <==> IsAnswer(s + [LF])
  {
    hide Run, SwitchOn, Inv, AnswerGoesOn, ProperAnswer, AnswerText;
    if Run(p, s + [LF], skip).verdict == Go {
      GoParts(p, s, [LF], skip);
      var l := AnswerBack(p, s, skip);
      var q := Run(p, s, skip).parser;
      InLine(q.core, l, s);
      NoAnswerRepeats(q.core, LF);
      GoByte(q, LF, skip);
      var whole := AnswerEnds(q.core, l, s);
    }
    if IsAnswer(s + [LF]) {
      var l: Answer :| ProperAnswer(l) && AnswerText(l) == s + [LF];
      AnswerRuns(p, l, skip);
    }
  }

  /* ---- Request lines, read backwards. ---- */

  function VersionIn(v: Protocol): Version { Version(v.major, v.minor) }

  function ProtocolSoFar(s: State, v: Option<Protocol>): seq<byte> {
    if v.None? then [] else [' '] + v.value.spaces + VersionSoFar(s, VersionIn(v.value))
  }

  function QuerySoFar(s: State, l: Query): seq<byte> {
    l.name + (if s.ReqMethod? then [] else [' '] + l.spaces) + l.url + ProtocolSoFar(s, l.protocol)
    + if s.ReqLineAlmostDone? then [CR] else []
  }

  // The URL, and where the automaton is.
  ghost predicate UrlReads(c: Core, l: Query) {
    if c.state.ReqSpacesBeforeUrl? then l.url == []
    else if InUrl(c.state) then
      && l.url != [] && ParseUrl.UrlAccepted(l.url, l.verb == CONNECT)
      && c.state == ParseUrl.UrlState(ParseUrl.UrlStart(l.verb == CONNECT), l.url)
    else UrlWhole(l.url, l.verb == CONNECT)
  }

  predicate ProtocolReads(c: Core, v: Option<Protocol>) {
    if c.state.ReqSpacesBeforeUrl? || InUrl(c.state) then v.None?
    else if v.None? then c.state.ReqLineAlmostDone?
    else
      && (InReqHttp(c.state) || InReqVersion(c.state)) && AllSpaces(v.value.spaces)
      && VersionReads(c, VersionIn(v.value), true)
  }

  // What has been read in state c.state.
  ghost predicate QueryReads(c: Core, l: Query) {
    if c.state.ReqMethod? then Methods.Reading(c, l.name) && l.spaces == [] && l.url == [] && l.protocol.None?
    else
      && Methods.Spelt(l.verb, l.name) && c.verb == l.verb && AllSpaces(l.spaces) && UrlReads(c, l)
      && ProtocolReads(c, l.protocol)
  }

  ghost predicate QueryGoesOn(c: Core, l: Query, s: seq<byte>) {
    QueryReads(c, l) && QuerySoFar(c.state, l) == s
  }

  lemma QueryArm(c: Core, ch: byte)
    requires Inv(c)
    ensures c.state.StartReq? ==> SwitchOn(c, ch) == StartReqTurn(c, ch)
    ensures c.state.ReqMethod? ==> SwitchOn(c, ch) == MethodTurn(c, ch)
    ensures c.state.ReqSpacesBeforeUrl? ==> SwitchOn(c, ch) == UrlStartTurn(c, ch)
    ensures InUrl(c.state) ==> SwitchOn(c, ch) == UrlTurn(c, ch)
    ensures InReqHttp(c.state) ==> SwitchOn(c, ch) == ReqHttpTurn(c, ch)
    ensures InReqVersion(c.state) ==> SwitchOn(c, ch) == ReqVersionTurn(c, ch)
  {
    hide Inv, Sound, StartReqTurn, MethodTurn, UrlStartTurn, UrlTurn, ReqHttpTurn, ReqVersionTurn, ResVersionTurn;
    hide StatusTurn, ChunkHeadTurn, ChunkDataTurn;
  }

  predicate InQuery(s: State) {
    s.ReqMethod? || s.ReqSpacesBeforeUrl? || InUrl(s) || InReqHttp(s) || InReqVersion(s)
  }

  lemma NoQueryRepeats(c: Core, ch: byte)
    requires Inv(c) && (c.state.StartReq? || InQuery(c.state))
    ensures !Repeats(SwitchOn(c, ch).act) && !SwitchOn(c, ch).act.Leave?
  {
    hide Inv, Sound, SwitchOn, TimesTen, ParseUrlChar, MethodString, Alternative, Switch.FirstLetter, UrlMayEnd;
    QueryArm(c, ch);
  }

  // A letter of the method, or the space after it.
  lemma MethodStep(c: Core, ch: byte, l: Query, s: seq<byte>) returns (m: Query)
    requires Inv(c) && c.state.ReqMethod? && QueryGoesOn(c, l, s) && !SwitchOn(c, ch).act.Fail?
    ensures QueryGoesOn(SwitchOn(c, ch).core, m, s + [ch])
  {
    hide Inv, SwitchOn, Methods.Reading, Methods.Spelt, VersionSoFar;
    Methods.MethodGo(c, l.name, ch);
    var t := SwitchOn(c, ch).core;
    m := if t.state.ReqMethod? then l.(name := l.name + [ch]) else l.(verb := c.verb);
    if t.state.ReqMethod? { StillMethod(t, m); }
  }

  lemma StillMethod(c: Core, l: Query)
    requires c.state.ReqMethod?
    ensures Methods.Reading(c, l.name) && l.spaces == [] && l.url == [] && l.protocol.None? <==> QueryReads(c, l)
  {
  }

  lemma UrlGrows(url: seq<byte>, isConnect: bool, ch: byte)
    requires ParseUrl.UrlAccepted(url, isConnect)
    requires InUrl(ParseUrlChar(ParseUrl.UrlState(ParseUrl.UrlStart(isConnect), url), ch))
    ensures ParseUrl.UrlAccepted(url + [ch], isConnect)
    ensures ParseUrl.UrlState(ParseUrl.UrlStart(isConnect), url + [ch])
            == ParseUrlChar(ParseUrl.UrlState(ParseUrl.UrlStart(isConnect), url), ch)
  {
    hide ParseUrlChar, ParseUrl.UrlState, InUrl, ParseUrl.FieldAt, ParseUrl.FieldOf, ParseUrl.SeesAt;
    var more, n := url + [ch], |url|;
    assert more[..n] == url && more[n] == ch && more[..n + 1] == more;
    ParseUrl.NextUrlState(more, isConnect, n);
    forall k | 0 < k <= |more|
      ensures InUrl(ParseUrl.UrlState(ParseUrl.UrlStart(isConnect), more[..k]))
    {
      if k <= n { assert more[..k] == url[..k]; }
    }
  }

  lemma NoUrlYet(isConnect: bool)
    ensures ParseUrl.UrlAccepted([], isConnect)
    ensures ParseUrl.UrlState(ParseUrl.UrlStart(isConnect), []) == ParseUrl.UrlStart(isConnect)
  {
  }

  // A character of the URL.
  lemma UrlStep(c: Core, ch: byte, l: Query, s: seq<byte>) returns (m: Query)
    requires Inv(c) && (c.state.ReqSpacesBeforeUrl? || InUrl(c.state)) && QueryGoesOn(c, l, s)
    requires ch != ' ' && ch != CR && ch != LF && !SwitchOn(c, ch).act.Fail?
    ensures QueryGoesOn(SwitchOn(c, ch).core, m, s + [ch])
  {
    hide Inv, SwitchOn, Methods.Spelt, VersionSoFar, ParseUrlChar, ParseUrl.UrlState, ParseUrl.UrlAccepted;
    UrlAgreement.UrlChar(c, ch);
    NoUrlYet(l.verb == CONNECT);
    m := l.(url := l.url + [ch]);
    var t := SwitchOn(c, ch).core.state;
    assert InUrl(t);
    UrlGrows(l.url, l.verb == CONNECT, ch);
  }

  // A space before the URL, or before the protocol.
  lemma SpaceStep(c: Core, l: Query, s: seq<byte>) returns (m: Query)
    requires Inv(c) && (c.state.ReqSpacesBeforeUrl? || c.state.ReqHttpStart?) && QueryGoesOn(c, l, s)
    ensures QueryGoesOn(SwitchOn(c, ' ').core, m, s + [' '])
  {
    hide Inv, SwitchOn, Methods.Spelt, UrlWhole;
    StaySpace(c);
    if c.state.ReqSpacesBeforeUrl? {
      m := l.(spaces := l.spaces + [' ']);
    } else {
      var v := l.protocol.value;
      m := l.(protocol := Some(v.(spaces := v.spaces + [' '])));
    }
  }

  // The end of the URL.
  lemma UrlEndStep(c: Core, ch: byte, l: Query, s: seq<byte>) returns (m: Query)
    requires Inv(c) && InUrl(c.state) && QueryGoesOn(c, l, s) && (ch == ' ' || ch == CR)
    requires !SwitchOn(c, ch).act.Fail?
    ensures QueryGoesOn(SwitchOn(c, ch).core, m, s + [ch])
  {
    hide Inv, Sound, SwitchOn, Methods.Spelt, ParseUrl.UrlState, ParseUrl.UrlAccepted, ParseUrlChar;
    QueryArm(c, ch);
    m := if ch == ' ' then l.(protocol := Some(Protocol([], [], []))) else l;
  }

  lemma ReqVersionStep(c: Core, ch: byte, v: Version)
    requires Inv(c) && InReqVersion(c.state) && !c.state.ReqLineAlmostDone? && VersionReads(c, v, true) && ch != LF
    requires !ReqVersionTurn(c, ch).act.Fail?
    ensures var t := ReqVersionTurn(c, ch);
            && t.act.Break? && !t.resets
            && t.core == c.(state := t.core.state, major := t.core.major, minor := t.core.minor)
            && InReqVersion(t.core.state) && VersionReads(t.core, VersionExtended(v, ch, t.core.state), true)
            && if t.core.state.ReqLineAlmostDone? then ch == CR && c.state.ReqHttpMinor?
               else VersionGoes(c.state, ch, t.core.state)
  {
    hide Inv, Sound, TimesTen, IsNumber, NumberValue, DecValue;
    var t := ReqVersionTurn(c, ch);
    if IsNum(ch) {
      FirstDigit(ch);
      if c.state.ReqHttpMajor? { NextDigit(c.major, v.major, ch, t.core.major); }
      if c.state.ReqHttpMinor? { NextDigit(c.minor, v.minor, ch, t.core.minor); }
    }
  }

  lemma ReqWordStep(c: Core, ch: byte, v: Version)
    requires Inv(c) && InReqHttp(c.state) && VersionReads(c, v, true) && !ReqHttpTurn(c, ch).act.Fail?
    requires c.state.ReqHttpStart? ==> ch != ' '
    ensures var t := ReqHttpTurn(c, ch);
            && t.act.Break? && !t.resets && t.core == c.(state := t.core.state)
            && (InReqHttp(t.core.state) || InReqVersion(t.core.state))
            && VersionReads(t.core, VersionExtended(v, ch, t.core.state), true)
            && VersionGoes(c.state, ch, t.core.state)
  {
    hide Inv, Sound, IsNumber, NumberValue, DecValue;
  }

  // A byte of the protocol.
  lemma ProtocolStep(c: Core, ch: byte, l: Query, s: seq<byte>) returns (m: Query)
    requires Inv(c) && (InReqHttp(c.state) || (InReqVersion(c.state) && !c.state.ReqLineAlmostDone?))
    requires QueryGoesOn(c, l, s) && ch != LF && (c.state.ReqHttpStart? ==> ch != ' ') && !SwitchOn(c, ch).act.Fail?
    ensures QueryGoesOn(SwitchOn(c, ch).core, m, s + [ch])
  {
    hide Inv, Sound, SwitchOn, Methods.Spelt, UrlWhole, VersionReads, VersionSoFar;
    var w := ProtocolOn(c, ch, l.protocol.value);
    m := l.(protocol := Some(w));
  }

  lemma ProtocolOn(c: Core, ch: byte, v: Protocol) returns (w: Protocol)
    requires Inv(c) && (InReqHttp(c.state) || (InReqVersion(c.state) && !c.state.ReqLineAlmostDone?))
    requires VersionReads(c, VersionIn(v), true)
    requires ch != LF && (c.state.ReqHttpStart? ==> ch != ' ') && !SwitchOn(c, ch).act.Fail?
    ensures var t := SwitchOn(c, ch).core;
            && t == c.(state := t.state, major := t.major, minor := t.minor)
            && (InReqHttp(t.state) || InReqVersion(t.state)) && VersionReads(t, VersionIn(w), true)
            && w.spaces == v.spaces
            && VersionSoFar(t.state, VersionIn(w))
               == VersionSoFar(c.state, VersionIn(v)) + (if t.state.ReqLineAlmostDone? then [] else [ch])
            && (t.state.ReqLineAlmostDone? ==> ch == CR)
  {
    hide Inv, Sound, SwitchOn, ReqHttpTurn, ReqVersionTurn, VersionReads, VersionSoFar;
    QueryArm(c, ch);
    var t := SwitchOn(c, ch).core;
    if InReqHttp(c.state) { ReqWordStep(c, ch, VersionIn(v)); } else { ReqVersionStep(c, ch, VersionIn(v)); }
    WordGoes(c.state, ch, t.state);
    hide VersionExtended, VersionGoes, InReqHttp, InReqVersion;
    var x := VersionExtended(VersionIn(v), ch, t.state);
    ProtocolGrows(c, ch, v, t.state);
    w := v.(major := x.major, minor := x.minor);
  }

  lemma WordGoes(s: State, ch: byte, t: State)
    ensures VersionGoes(s, ch, t) && InReqHttp(s) ==> !t.ReqLineAlmostDone?
  {
  }

  lemma ProtocolGrows(c: Core, ch: byte, v: Protocol, t: State)
    requires VersionReads(c, VersionIn(v), true)
    requires if t.ReqLineAlmostDone? then c.state.ReqHttpMinor? else VersionGoes(c.state, ch, t)
    ensures var w := VersionExtended(VersionIn(v), ch, t);
            VersionSoFar(t, w) == VersionSoFar(c.state, VersionIn(v)) + if t.ReqLineAlmostDone? then [] else [ch]
  {
    hide IsNumber, NumberValue;
    if !t.ReqLineAlmostDone? { VersionGrows(c.state, ch, t, VersionIn(v)); }
  }

  lemma QueryStep(c: Core, ch: byte, l: Query, s: seq<byte>) returns (m: Query)
    requires Inv(c) && InQuery(c.state) && QueryGoesOn(c, l, s) && ch != LF && !SwitchOn(c, ch).act.Fail?
    ensures QueryGoesOn(SwitchOn(c, ch).core, m, s + [ch])
  {
    hide Inv, Sound, SwitchOn, QueryGoesOn;
    if c.state.ReqMethod? {
      m := MethodStep(c, ch, l, s);
    } else if (c.state.ReqSpacesBeforeUrl? || c.state.ReqHttpStart?) && ch == ' ' {
      m := SpaceStep(c, l, s);
    } else if c.state.ReqSpacesBeforeUrl? || InUrl(c.state) {
      NoBreakBeforeUrl(c, ch);
      if ch == ' ' || ch == CR {
        m := UrlEndStep(c, ch, l, s);
      } else {
        m := UrlStep(c, ch, l, s);
      }
    } else {
      NoMore(c, ch);
      m := ProtocolStep(c, ch, l, s);
    }
  }

  lemma NoBreakBeforeUrl(c: Core, ch: byte)
    requires Inv(c) && !SwitchOn(c, ch).act.Fail?
    ensures c.state.ReqSpacesBeforeUrl? ==> ch != CR
  {
    hide Inv, Sound;
    QueryArm(c, ch);
    hide SwitchOn;
  }

  lemma NoMore(c: Core, ch: byte)
    requires Inv(c) && ch != LF && !SwitchOn(c, ch).act.Fail?
    ensures !c.state.ReqLineAlmostDone?
  {
    hide Inv, Sound;
    QueryArm(c, ch);
    hide SwitchOn;
  }

  lemma FirstQueryStep(c: Core, ch: byte) returns (m: Query)
    requires Inv(c) && c.state.StartReq? && ch != CR && ch != LF && !SwitchOn(c, ch).act.Fail?
    ensures QueryGoesOn(SwitchOn(c, ch).core, m, [ch])
  {
    hide Inv, Sound, SwitchOn, Methods.Spells, Methods.GuessAt;
    Methods.FirstGo(c, ch);
    m := Query(GET, [ch], [], [], None, false);
  }

  lemma InQueryStates(c: Core, l: Query, s: seq<byte>)
    requires QueryGoesOn(c, l, s)
    ensures InQuery(c.state)
  {
    hide Methods.Spells, Methods.Spelt, VersionReads, UrlWhole, QuerySoFar;
  }

  lemma {:induction false} QueryBack(p: Parser, s: seq<byte>, skip: Answers) returns (l: Query)
    requires Ready(p) && p.core.state.StartReq? && NoLf(s) && s != [] && s[0] != CR && Run(p, s, skip).verdict == Go
    ensures QueryGoesOn(Run(p, s, skip).parser.core, l, s)
    decreases |s|
  {
    hide Run, SwitchOn, Inv, QueryGoesOn, InQuery;
    var n := |s| - 1;
    assert s == s[..n] + [s[n]];
    GoParts(p, s[..n], [s[n]], skip);
    if n == 0 {
      assert s == [s[0]] && s[..0] == [];
      NoQueryRepeats(p.core, s[0]);
      GoByte(p, s[0], skip);
      l := FirstQueryStep(p.core, s[0]);
    } else {
      var was := QueryBack(p, s[..n], skip);
      var q := Run(p, s[..n], skip).parser;
      InQueryStates(q.core, was, s[..n]);
      NoQueryRepeats(q.core, s[n]);
      GoByte(q, s[n], skip);
      l := QueryStep(q.core, s[n], was, s[..n]);
    }
  }

  lemma WholeVersion(s: State, v: Version)
    requires Stage(s) >= 8
    ensures VersionSoFar(s, v) == VersionText(v.major, v.minor)
  {
    assert PROTOCOL[..5] == PROTOCOL;
  }

  lemma LastStates(s: State)
    ensures s.ReqHttpMinor? || s.ReqLineAlmostDone? ==> Stage(s) >= 8 && !InUrl(s)
  {
  }

  lemma EndedText(s: State, l: Query)
    requires l.protocol.Some? ==> Stage(s) >= 8
    ensures QueryText(l.(crlf := s.ReqLineAlmostDone?)) == QuerySoFar(s, l) + [LF] || s.ReqMethod?
  {
    hide VersionSoFar, Stage, VersionText;
    if l.protocol.Some? { WholeVersion(s, VersionIn(l.protocol.value)); }
    assert l.name + ([' '] + l.spaces) == l.name + [' '] + l.spaces;
  }

  // The line feed that ends the line.
  lemma QueryEnds(c: Core, l: Query, s: seq<byte>) returns (whole: Query)
    requires Inv(c) && InQuery(c.state) && QueryGoesOn(c, l, s) && !SwitchOn(c, LF).act.Fail?
    requires SwitchOn(c, LF).core.state.HeaderFieldStart?
    ensures ProperQuery(whole) && QueryText(whole) == s + [LF]
  {
    hide Inv, SwitchOn, Methods.Spelt, ParseUrl.UrlState, ParseUrl.UrlAccepted, IsNumber, NumberValue, UrlMayEnd;
    hide Stage, QueryText, QuerySoFar, InQuery;
    LineOver(c);
    LastStates(c.state);
    EndedText(c.state, l);
    whole := l.(crlf := c.state.ReqLineAlmostDone?);
  }

  lemma LineOver(c: Core)
    requires Inv(c) && InQuery(c.state) && !SwitchOn(c, LF).act.Fail? && SwitchOn(c, LF).core.state.HeaderFieldStart?
    ensures (InUrl(c.state) && UrlMayEnd(c.state)) || c.state.ReqHttpMinor? || c.state.ReqLineAlmostDone?
  {
    hide Inv, Sound, MethodString, Alternative;
    QueryArm(c, LF);
    hide SwitchOn;
  }

  ghost predicate IsQuery(s: seq<byte>) { exists l: Query :: ProperQuery(l) && QueryText(l) == s }

  // A request line, from its first letter to the line feed, leads to the headers exactly if it is well-formed. (A line
  // feed that is the third letter of a method leads back into the method.)
  lemma QueryExactly(p: Parser, s: seq<byte>, skip: Answers)
    requires Ready(p) && p.core.state.StartReq? && NoLf(s) && s != [] && s[0] != CR
    requires p.nread + |s| < MAX_HEADER_SIZE
    ensures var r := Run(p, s + [LF], skip);
            r.verdict == Go && r.parser.core.state.HeaderFieldStart? <==> IsQuery(s + [LF])
  {
    hide Run, SwitchOn, Inv, QueryGoesOn, ProperQuery, QueryText, InQuery;
    if Run(p, s + [LF], skip).verdict == Go && Run(p, s + [LF], skip).parser.core.state.HeaderFieldStart? {
      GoParts(p, s, [LF], skip);
      var l := QueryBack(p, s, skip);
      var q := Run(p, s, skip).parser;
      InQueryStates(q.core, l, s);
      NoQueryRepeats(q.core, LF);
      GoByte(q, LF, skip);
      var whole := QueryEnds(q.core, l, s);
    }
    if IsQuery(s + [LF]) {
      var l: Query :| ProperQuery(l) && QueryText(l) == s + [LF];
      QueryRuns(p, l, skip);
    }
  }
}
