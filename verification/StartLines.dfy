/** Status lines and request lines: the version an accepted line leaves is the one that is written in it, and every
    well-formed line is accepted (src/http_parser.c:657-1172). */
module StartLines {
  import opened Options
  import opened Bytes
  import opened ParserState
  import opened UrlChars
  import opened Switch
  import opened Trace
  import opened Machine
  import opened Lengths
  import opened Headers
  import opened HeaderSyntax
  import opened StatusLine
  import Methods
  import ParseUrl
  import UrlAgreement

  /* ---- The version, from the text. ---- */

  // What stands after the first ch.
  function FirstAfter(s: seq<byte>, ch: byte): (t: seq<byte>)
    ensures ch !in s ==> t == []
  {
    if s == [] then [] else if s[0] == ch then s[1..] else FirstAfter(s[1..], ch)
  }

  // The numbers before and after the dot.
  function MajorOf(s: seq<byte>): nat { DecValue(LeadingDigits(FirstAfter(s, '/'))) }
  function MinorOf(s: seq<byte>): nat { DecValue(LeadingDigits(FirstAfter(s, '.'))) }

  lemma {:induction false} FirstAfterSnoc(s: seq<byte>, ch: byte, x: byte)
    ensures FirstAfter(s + [x], ch) == if ch in s then FirstAfter(s, ch) + [x] else []
  {
    if s == [] {
      assert s + [x] == [x] && [x][1..] == [];
    } else {
      assert (s + [x])[1..] == s[1..] + [x];
      if s[0] != ch { FirstAfterSnoc(s[1..], ch, x); }
    }
  }

  // How far the version has been read: the protocol's name, the first digit of a number to come, more of one, or past
  // it.
  datatype Progress = Word | Major0 | MajorN | Minor0 | MinorN | Past

  // The number before the dot is there, and the dot.
  ghost predicate PastDot(major: int, s: seq<byte>) {
    var a := FirstAfter(s, '/');
    '/' in s && '.' in s && LeadingDigits(a) != a && major == DecValue(LeadingDigits(a))
  }

  // What the text so far says of the numbers.
  ghost predicate Known(v: Progress, major: int, minor: int, s: seq<byte>) {
    var a, b := FirstAfter(s, '/'), FirstAfter(s, '.');
    match v
    case Word => '/' !in s && '.' !in s
    case Major0 => '/' in s && '.' !in s && a == []
    case MajorN => '/' in s && '.' !in s && a != [] && LeadingDigits(a) == a && major == DecValue(a) <= 999
    case Minor0 => PastDot(major, s) && b == []
    case MinorN => PastDot(major, s) && b != [] && LeadingDigits(b) == b && minor == DecValue(b) <= 999
    case Past => PastDot(major, s) && LeadingDigits(b) != b && minor == DecValue(LeadingDigits(b))
  }

  // One more byte of an accepted line.
  ghost predicate Reads(v: Progress, major: int, minor: int, ch: byte, w: Progress, major': int, minor': int) {
    match v
    case Word => ch != '.' && if ch == '/' then w.Major0? else w.Word?
    case Major0 => IsNum(ch) && w.MajorN? && major' == DigitOf(ch)
    case MajorN =>
      if ch == '.' then w.Minor0? && major' == major
      else IsNum(ch) && w.MajorN? && major' == major * 10 + DigitOf(ch) <= 999
    case Minor0 => IsNum(ch) && w.MinorN? && major' == major && minor' == DigitOf(ch)
    case MinorN =>
      && major' == major
      && if IsNum(ch) then w.MinorN? && minor' == minor * 10 + DigitOf(ch) <= 999 else w.Past? && minor' == minor
    case Past => w.Past? && major' == major && minor' == minor
  }

  lemma InSnoc(s: seq<byte>, ch: byte, x: byte)
    ensures ch in s + [x] <==> ch in s || ch == x
  {
  }

  lemma OneDigitText(ch: byte)
    requires IsNum(ch)
    ensures LeadingDigits([ch]) == [ch] && SpacedDigits([ch]) && DecValue([ch]) == DigitOf(ch) && ch != '/' && ch != '.'
  {
    NoText(ch);
  }

  // The digits of a number go on, or have ended.
  lemma DigitsNext(a: seq<byte>, ch: byte)
    requires a != [] && LeadingDigits(a) == a
    ensures LeadingDigits(a + [ch]) == if IsNum(ch) then a + [ch] else a
    ensures IsNum(ch) ==> DecValue(a + [ch]) == DecValue(a) * 10 + DigitOf(ch)
  {
    LeadingDigitsSnoc(a, ch);
    if IsNum(ch) { DecSnoc(a, ch); }
  }

  lemma DigitsOver(a: seq<byte>, ch: byte)
    requires LeadingDigits(a) != a
    ensures LeadingDigits(a + [ch]) == LeadingDigits(a) != a + [ch]
  {
    LeadingDigitsSnoc(a, ch);
    assert |LeadingDigits(a)| <= |a|;
  }

  lemma MajorNext(v: Progress, major: int, minor: int, s: seq<byte>, ch: byte, w: Progress, major': int, minor': int)
    requires Known(v, major, minor, s) && Reads(v, major, minor, ch, w, major', minor')
    requires v.Word? || v.Major0? || v.MajorN?
    ensures Known(w, major', minor', s + [ch])
  {
    hide LeadingDigits, FirstAfter, DecValue;
    var a := FirstAfter(s, '/');
    FirstAfterSnoc(s, '/', ch);
    FirstAfterSnoc(s, '.', ch);
    InSnoc(s, '/', ch);
    InSnoc(s, '.', ch);
    if v.Major0? {
      assert [] + [ch] == [ch];
      OneDigitText(ch);
    } else if v.MajorN? {
      DigitsNext(a, ch);
      assert |a + [ch]| == |a| + 1;
    }
  }

  lemma MinorNext(v: Progress, major: int, minor: int, s: seq<byte>, ch: byte, w: Progress, major': int, minor': int)
    requires Known(v, major, minor, s) && Reads(v, major, minor, ch, w, major', minor')
    requires v.Minor0? || v.MinorN? || v.Past?
    ensures Known(w, major', minor', s + [ch])
  {
    hide LeadingDigits, FirstAfter, DecValue;
    var a, b := FirstAfter(s, '/'), FirstAfter(s, '.');
    FirstAfterSnoc(s, '/', ch);
    FirstAfterSnoc(s, '.', ch);
    InSnoc(s, '/', ch);
    InSnoc(s, '.', ch);
    DigitsOver(a, ch);
    if v.Minor0? {
      assert [] + [ch] == [ch];
      OneDigitText(ch);
    } else if v.MinorN? {
      DigitsNext(b, ch);
      assert |b + [ch]| == |b| + 1;
    } else {
      DigitsOver(b, ch);
    }
  }

  lemma KnownNext(v: Progress, major: int, minor: int, s: seq<byte>, ch: byte, w: Progress, major': int, minor': int)
    requires Known(v, major, minor, s) && Reads(v, major, minor, ch, w, major', minor')
    ensures Known(w, major', minor', s + [ch])
  {
    hide Known, Reads;
    if v.Word? || v.Major0? || v.MajorN? {
      MajorNext(v, major, minor, s, ch, w, major', minor');
    } else {
      MinorNext(v, major, minor, s, ch, w, major', minor');
    }
  }

  lemma NothingRead()
    ensures Known(Word, 0, 0, []) && forall i, j :: Known(Word, i, j, [])
  {
  }

  function ResProgress(s: State): Progress {
    if s.ResFirstHttpMajor? then Major0
    else if s.ResHttpMajor? then MajorN
    else if s.ResFirstHttpMinor? then Minor0
    else if s.ResHttpMinor? then MinorN
    else if InStatus(s) || s.HeaderFieldStart? then Past
    else Word
  }

  function ReqProgress(s: State): Progress {
    if s.ReqFirstHttpMajor? then Major0
    else if s.ReqHttpMajor? then MajorN
    else if s.ReqFirstHttpMinor? then Minor0
    else if s.ReqHttpMinor? then MinorN
    else if s.ReqLineAlmostDone? || s.HeaderFieldStart? then Past
    else Word
  }

  ghost predicate ReadsOn(v: Progress, c: Core, ch: byte, w: Progress, d: Core) {
    Reads(v, c.major as int, c.minor as int, ch, w, d.major as int, d.minor as int)
  }

  lemma ResReads(c: Core, ch: byte)
    requires Inv(c) && InStatusLine(c) && !SwitchOn(c, ch).act.Fail? && ch != LF
    requires (c.state.ResHttpMajor? ==> c.major <= 999) && (c.state.ResHttpMinor? ==> c.minor <= 999)
    ensures ReadsOn(ResProgress(c.state), c, ch, ResProgress(SwitchOn(c, ch).core.state), SwitchOn(c, ch).core)
  {
    hide Inv, Sound, Opened;
    StatusArm(c, ch);
    hide SwitchOn;
    if InResVersion(c.state) {
      hide StatusTurn, StartResTurn;
      ResVersionReads(c, ch);
    } else {
      hide ResVersionTurn;
    }
  }

  lemma NextNumber(n: uint16, ch: byte)
    requires n <= 999 && IsNum(ch)
    ensures TimesTen(n, ch) as int == n as int * 10 + DigitOf(ch)
  {
  }

  lemma ResVersionReads(c: Core, ch: byte)
    requires Inv(c) && InResVersion(c.state) && !ResVersionTurn(c, ch).act.Fail? && ch != LF
    requires (c.state.ResHttpMajor? ==> c.major <= 999) && (c.state.ResHttpMinor? ==> c.minor <= 999)
    ensures ReadsOn(ResProgress(c.state), c, ch, ResProgress(ResVersionTurn(c, ch).core.state),
                    ResVersionTurn(c, ch).core)
  {
    hide Inv, Sound, TimesTen;
    if c.state.ResHttpMajor? && IsNum(ch) { NextNumber(c.major, ch); }
    if c.state.ResHttpMinor? && IsNum(ch) { NextNumber(c.minor, ch); }
  }

  // Up to the end of a status line.
  lemma {:induction false} ResVersionRun(p: Parser, s: seq<byte>, skip: Answers)
    requires Ready(p) && InStatusLine(p.core) && p.core.state.StartRes? && NoLf(s) && Run(p, s, skip).verdict == Go
    ensures var c := Run(p, s, skip).parser.core; Known(ResProgress(c.state), c.major as int, c.minor as int, s)
    decreases |s|
  {
    hide Run, SwitchOn, Inv, InStatusLine, StatusKnown;
    if s == [] {
      EmptyRun(p, skip);
      NothingRead();
    } else {
      var n := |s| - 1;
      assert s == s[..n] + [s[n]];
      GoParts(p, s[..n], [s[n]], skip);
      StatusRun(p, s[..n], skip);
      ResVersionRun(p, s[..n], skip);
      var q := Run(p, s[..n], skip).parser;
      StatusGo(q, s[n], skip);
      ResReads(q.core, s[n]);
      var d := SwitchOn(q.core, s[n]).core;
      hide Known, Reads;
      KnownNext(ResProgress(q.core.state), q.core.major as int, q.core.minor as int, s[..n], s[n],
                ResProgress(d.state), d.major as int, d.minor as int);
    }
  }

  // The version of an accepted status line is the one written in it.
  lemma ResVersionExactly(p: Parser, s: seq<byte>, skip: Answers)
    requires Ready(p) && InStatusLine(p.core) && p.core.state.StartRes? && NoLf(s)
    requires Run(p, s + [LF], skip).verdict == Go && ' ' in s
    ensures var c := Run(p, s + [LF], skip).parser.core;
            c.state.HeaderFieldStart? && c.major as int == MajorOf(s) && c.minor as int == MinorOf(s)
  {
    hide Run, SwitchOn, Inv, InStatusLine, DecValue, LeadingDigits, FirstAfter, AfterVersion;
    GoParts(p, s, [LF], skip);
    StatusRun(p, s, skip);
    ResVersionRun(p, s, skip);
    StatusExactly(p, s, skip);
    var q := Run(p, s, skip).parser;
    StatusGo(q, LF, skip);
    LfKeepsVersion(q.core);
  }

  lemma LfKeepsVersion(c: Core)
    requires Inv(c) && InStatusLine(c) && !SwitchOn(c, LF).act.Fail? && SwitchOn(c, LF).core.state.HeaderFieldStart?
    ensures SwitchOn(c, LF).core.major == c.major && SwitchOn(c, LF).core.minor == c.minor
    ensures ResProgress(c.state).Past?
  {
    hide Inv, Sound, Opened;
    StatusArm(c, LF);
    hide SwitchOn;
  }

  /* ---- Request lines. ---- */

  predicate InRequestVersion(c: Core) { InReqHttp(c.state) || InReqVersion(c.state) }

  lemma RequestArm(c: Core, ch: byte)
    requires Inv(c) && InRequestVersion(c)
    ensures SwitchOn(c, ch) == if InReqHttp(c.state) then ReqHttpTurn(c, ch) else ReqVersionTurn(c, ch)
  {
    hide Inv, Sound, ReqHttpTurn, ReqVersionTurn, ChunkHeadTurn, ChunkDataTurn, ResVersionTurn, StatusTurn;
  }

  // A byte of the protocol's name and the version.
  lemma ReqReads(c: Core, ch: byte)
    requires Inv(c) && InRequestVersion(c) && !SwitchOn(c, ch).act.Fail? && ch != LF
    requires (c.state.ReqHttpMajor? ==> c.major <= 999) && (c.state.ReqHttpMinor? ==> c.minor <= 999)
    ensures var t := SwitchOn(c, ch);
            && t.act.Break? && !t.resets && InRequestVersion(t.core)
            && ReadsOn(ReqProgress(c.state), c, ch, ReqProgress(t.core.state), t.core)
            && t.core == c.(state := t.core.state, major := t.core.major, minor := t.core.minor)
  {
    hide Inv, Sound;
    RequestArm(c, ch);
    hide SwitchOn;
    if InReqHttp(c.state) { ReqNameReads(c, ch); } else { ReqVersionReads(c, ch); }
  }

  lemma ReqNameReads(c: Core, ch: byte)
    requires Inv(c) && InReqHttp(c.state) && !ReqHttpTurn(c, ch).act.Fail? && ch != LF
    ensures var t := ReqHttpTurn(c, ch);
            && t.act.Break? && !t.resets && InRequestVersion(t.core)
            && ReadsOn(ReqProgress(c.state), c, ch, ReqProgress(t.core.state), t.core)
            && t.core == c.(state := t.core.state)
  {
    hide Inv, Sound;
  }

  lemma ReqVersionReads(c: Core, ch: byte)
    requires Inv(c) && InReqVersion(c.state) && !ReqVersionTurn(c, ch).act.Fail? && ch != LF
    requires (c.state.ReqHttpMajor? ==> c.major <= 999) && (c.state.ReqHttpMinor? ==> c.minor <= 999)
    ensures var t := ReqVersionTurn(c, ch);
            && t.act.Break? && !t.resets && InRequestVersion(t.core)
            && ReadsOn(ReqProgress(c.state), c, ch, ReqProgress(t.core.state), t.core)
            && t.core == c.(state := t.core.state, major := t.core.major, minor := t.core.minor)
  {
    hide Inv, Sound, TimesTen;
    if c.state.ReqHttpMajor? && IsNum(ch) { NextNumber(c.major, ch); }
    if c.state.ReqHttpMinor? && IsNum(ch) { NextNumber(c.minor, ch); }
  }

  lemma ReqLf(c: Core)
    requires Inv(c) && InRequestVersion(c) && !SwitchOn(c, LF).act.Fail?
    ensures SwitchOn(c, LF) == Turn(c.(state := HeaderFieldStart), Break)
    ensures ReqProgress(c.state).MinorN? || ReqProgress(c.state).Past?
  {
    hide Inv, Sound;
    RequestArm(c, LF);
    hide SwitchOn;
  }

  lemma NoRepeats(c: Core, ch: byte)
    requires Inv(c) && InRequestVersion(c)
    ensures !Repeats(SwitchOn(c, ch).act) && !SwitchOn(c, ch).act.Leave?
  {
    hide Inv, Sound;
    RequestArm(c, ch);
    hide SwitchOn;
  }

  // Up to the end of a request line, from its protocol.
  lemma {:induction false} ReqVersionRun(p: Parser, s: seq<byte>, skip: Answers)
    requires Ready(p) && p.core.state.ReqHttpStart? && NoLf(s) && Run(p, s, skip).verdict == Go
    ensures var c := Run(p, s, skip).parser.core;
            && InRequestVersion(c) && Known(ReqProgress(c.state), c.major as int, c.minor as int, s)
            && c == p.core.(state := c.state, major := c.major, minor := c.minor)
    decreases |s|
  {
    hide Run, SwitchOn, Inv;
    if s == [] {
      EmptyRun(p, skip);
      NothingRead();
    } else {
      var n := |s| - 1;
      assert s == s[..n] + [s[n]];
      GoParts(p, s[..n], [s[n]], skip);
      ReqVersionRun(p, s[..n], skip);
      var q := Run(p, s[..n], skip).parser;
      NoRepeats(q.core, s[n]);
      GoByte(q, s[n], skip);
      ReqReads(q.core, s[n]);
      var d := SwitchOn(q.core, s[n]).core;
      hide Known, Reads;
      KnownNext(ReqProgress(q.core.state), q.core.major as int, q.core.minor as int, s[..n], s[n],
                ReqProgress(d.state), d.major as int, d.minor as int);
    }
  }

  // The version of an accepted request line is the one written in it, after the URL and a space.
  lemma ReqVersionExactly(p: Parser, s: seq<byte>, skip: Answers)
    requires Ready(p) && p.core.state.ReqHttpStart? && NoLf(s) && Run(p, s + [LF], skip).verdict == Go
    ensures var c := Run(p, s + [LF], skip).parser.core;
            && c == p.core.(state := HeaderFieldStart, major := c.major, minor := c.minor)
            && c.major as int == MajorOf(s) && c.minor as int == MinorOf(s)
  {
    hide Run, SwitchOn, Inv, DecValue, LeadingDigits, FirstAfter;
    GoParts(p, s, [LF], skip);
    ReqVersionRun(p, s, skip);
    var q := Run(p, s, skip).parser;
    NoRepeats(q.core, LF);
    GoByte(q, LF, skip);
    ReqLf(q.core);
  }

  /* ---- Well-formed lines are accepted. ---- */

  // The parser n header bytes further, with the fields c.
  function Moved(p: Parser, c: Core, n: nat): Parser { p.(core := c, nread := p.nread + n) }

  lemma RunsByte(p: Parser, ch: byte, skip: Answers, t: Turn)
    requires Ready(p) && ParsingHeader(p.core.state) && p.nread < MAX_HEADER_SIZE && t == SwitchOn(p.core, ch)
    requires !Repeats(t.act) && !t.act.Fail? && !t.act.Leave? && !t.resets
    ensures RunsTo(p, [ch], skip, Moved(p, t.core, 1), Emits(t.act, ch)) && Ready(Moved(p, t.core, 1))
  {
    hide Run, SwitchOn, Inv;
    OnePass(p, ch, skip);
    RunsReady(p, [ch], skip, After(Enter(p), t, skip), Emits(t.act, ch));
  }

  lemma RunsOn(p: Parser, a: seq<byte>, c: Core, e: seq<Event>, b: seq<byte>, d: Core, f: seq<Event>, skip: Answers)
    requires RunsTo(p, a, skip, Moved(p, c, |a|), e)
    requires RunsTo(Moved(p, c, |a|), b, skip, Moved(Moved(p, c, |a|), d, |b|), f)
    ensures RunsTo(p, a + b, skip, Moved(p, d, |a + b|), e + f) && Ready(Moved(p, d, |a + b|))
  {
    hide Run, Inv;
    RunsToConcat(p, a, Moved(p, c, |a|), e, b, Moved(Moved(p, c, |a|), d, |b|), f, skip);
    RunsReady(p, a + b, skip, Moved(p, d, |a + b|), e + f);
  }

  lemma RunsInv(p: Parser, a: seq<byte>, c: Core, e: seq<Event>, skip: Answers)
    requires RunsTo(p, a, skip, Moved(p, c, |a|), e)
    ensures Inv(c) && Ready(Moved(p, c, |a|))
  {
    hide Run;
    RunsReady(p, a, skip, Moved(p, c, |a|), e);
  }

  /* ---- Line ends before a message. ---- */

  // A parser of responses takes each of them for the beginning of a message.
  function LeadCore(c: Core, lead: seq<byte>): Core { if c.state.StartRes? && lead != [] then Fresh(c) else c }

  function LeadEvents(c: Core, lead: seq<byte>): seq<Event> {
    if c.state.StartRes? then seq(|lead|, _ => Told(MessageBegin)) else []
  }

  predicate Starting(s: State) { s.StartRes? || s.StartReq? || s.StartReqOrRes? || s.Dead? }

  lemma LeadByte(p: Parser, ch: byte, skip: Answers)
    requires Ready(p) && Starting(p.core.state) && (ch == CR || ch == LF) && p.nread < MAX_HEADER_SIZE
    ensures RunsTo(p, [ch], skip, Moved(p, LeadCore(p.core, [ch]), 1), LeadEvents(p.core, [ch]))
  {
    LeadTurn(p.core, ch);
    hide Run, SwitchOn, Inv;
    RunsByte(p, ch, skip, SwitchOn(p.core, ch));
  }

  lemma LeadTurn(c: Core, ch: byte)
    requires Inv(c) && Starting(c.state) && (ch == CR || ch == LF)
    ensures SwitchOn(c, ch) == Turn(LeadCore(c, [ch]), if c.state.StartRes? then Notify(MessageBegin) else Break)
  {
    hide Sound;
  }

  // They change nothing that outlives the message before, and only a parser of responses reports them.
  lemma {:induction false} EmptyLines(p: Parser, lead: seq<byte>, skip: Answers)
    requires Ready(p) && Starting(p.core.state) && LineEnds(lead) && p.nread + |lead| <= MAX_HEADER_SIZE
    ensures RunsTo(p, lead, skip, Moved(p, LeadCore(p.core, lead), |lead|), LeadEvents(p.core, lead))
    decreases |lead|
  {
    hide Run, SwitchOn, Inv, RunsTo, Ready;
    if lead == [] {
      RunsNothing(p, skip);
    } else {
      var n := |lead| - 1;
      var c := LeadCore(p.core, lead[..n]);
      EmptyLines(p, lead[..n], skip);
      RunsInv(p, lead[..n], c, LeadEvents(p.core, lead[..n]), skip);
      LeadByte(Moved(p, c, n), lead[n], skip);
      RunsOn(p, lead[..n], c, LeadEvents(p.core, lead[..n]), [lead[n]], LeadCore(c, [lead[n]]),
             LeadEvents(c, [lead[n]]), skip);
      assert lead[..n] + [lead[n]] == lead;
      assert LeadEvents(p.core, lead[..n]) + LeadEvents(c, [lead[n]]) == LeadEvents(p.core, lead);
    }
  }

  lemma RunsNothing(p: Parser, skip: Answers)
    requires Ready(p)
    ensures RunsTo(p, [], skip, p, [])
  {
  }

  // A further byte that reports nothing.
  lemma RunsSilent(p: Parser, a: seq<byte>, c: Core, e: seq<Event>, ch: byte, d: Core, skip: Answers)
    requires RunsTo(p, a, skip, Moved(p, c, |a|), e) && ParsingHeader(c.state) && p.nread + |a| < MAX_HEADER_SIZE
    requires Ready(Moved(p, c, |a|)) ==> SwitchOn(c, ch) == Turn(d, Break)
    ensures RunsTo(p, a + [ch], skip, Moved(p, d, |a| + 1), e) && Ready(Moved(p, d, |a| + 1))
  {
    hide Run, Inv, SwitchOn;
    RunsReady(p, a, skip, Moved(p, c, |a|), e);
    RunsByte(Moved(p, c, |a|), ch, skip, Turn(d, Break));
    RunsOn(p, a, c, e, [ch], d, [], skip);
    assert e + [] == e;
  }

  const PROTOCOL: seq<byte> := ['H', 'T', 'T', 'P', '/']

  // After k letters of it, in a request or a response.
  function WordState(req: bool, k: nat): State
    requires k <= 5
  {
    if k == 0 then (if req then ReqHttpStart else StartRes)
    else if k == 1 then (if req then ReqHttpH else ResH)
    else if k == 2 then (if req then ReqHttpHT else ResHT)
    else if k == 3 then (if req then ReqHttpHTT else ResHTT)
    else if k == 4 then (if req then ReqHttpHTTP else ResHTTP)
    else (if req then ReqFirstHttpMajor else ResFirstHttpMajor)
  }

  function WordCore(c: Core, req: bool, k: nat): Core
    requires k <= 5
  {
    (if req || k == 0 then c else Fresh(c)).(state := WordState(req, k))
  }

  function WordEvents(req: bool, k: nat): seq<Event> { if req || k == 0 then [] else [Told(MessageBegin)] }

  lemma WordTurn(c: Core, req: bool, k: nat)
    requires k < 5 && Inv(c) && c.state == WordState(req, k)
    ensures SwitchOn(c, PROTOCOL[k])
            == Turn((if req || k > 0 then c else Fresh(c)).(state := WordState(req, k + 1)),
                    if req || k > 0 then Break else Notify(MessageBegin))
  {
    hide Inv, Sound;
    if req { RequestArm(c, PROTOCOL[k]); } else { StatusArm(c, PROTOCOL[k]); }
    hide SwitchOn;
  }

  lemma {:induction false} WordRuns(p: Parser, req: bool, k: nat, skip: Answers)
    requires Ready(p) && p.core.state == WordState(req, 0) && k <= 5 && p.nread + k <= MAX_HEADER_SIZE
    ensures RunsTo(p, PROTOCOL[..k], skip, Moved(p, WordCore(p.core, req, k), k), WordEvents(req, k))
    ensures Ready(Moved(p, WordCore(p.core, req, k), k))
  {
    hide Run, Inv, SwitchOn;
    if k == 0 {
      EmptyRun(p, skip);
      assert PROTOCOL[..0] == [] && Moved(p, WordCore(p.core, req, 0), 0) == p;
    } else {
      var j := k - 1;
      WordRuns(p, req, j, skip);
      var q := Moved(p, WordCore(p.core, req, j), j);
      WordTurn(q.core, req, j);
      var t := SwitchOn(q.core, PROTOCOL[j]);
      RunsByte(q, PROTOCOL[j], skip, t);
      RunsOn(p, PROTOCOL[..j], q.core, WordEvents(req, j), [PROTOCOL[j]], t.core, Emits(t.act, PROTOCOL[j]), skip);
      assert PROTOCOL[..j] + [PROTOCOL[j]] == PROTOCOL[..k];
    }
  }

  // The numbers of a start line.
  datatype Number = ResMajor | ResMinor | ResCode | ReqMajor | ReqMinor

  function FirstOf(n: Number): State {
    match n
    case ResMajor => ResFirstHttpMajor case ResMinor => ResFirstHttpMinor case ResCode => ResFirstStatusCode
    case ReqMajor => ReqFirstHttpMajor case ReqMinor => ReqFirstHttpMinor
  }

  function MoreOf(n: Number): State {
    match n
    case ResMajor => ResHttpMajor case ResMinor => ResHttpMinor case ResCode => ResStatusCode
    case ReqMajor => ReqHttpMajor case ReqMinor => ReqHttpMinor
  }

  function ValueOf(n: Number, c: Core): uint16 {
    if n.ResMajor? || n.ReqMajor? then c.major else if n.ResCode? then c.statusCode else c.minor
  }

  // The fields once the number has been read so far as v.
  function WithNumber(n: Number, c: Core, v: uint16): Core {
    var d := c.(state := MoreOf(n));
    if n.ResMajor? || n.ReqMajor? then d.(major := v) else if n.ResCode? then d.(statusCode := v) else d.(minor := v)
  }

  lemma FirstDigitTurn(c: Core, n: Number, ch: byte)
    requires Inv(c) && IsNum(ch) && c.state == FirstOf(n) && (n.ReqMajor? ==> ch != '0')
    ensures SwitchOn(c, ch) == Turn(WithNumber(n, c, DigitOf(ch) as uint16), Break)
  {
    hide Inv, Sound;
    if n.ReqMajor? || n.ReqMinor? { RequestArm(c, ch); } else { StatusArm(c, ch); }
    hide SwitchOn;
  }

  lemma NextDigitTurn(c: Core, n: Number, ch: byte)
    requires Inv(c) && IsNum(ch) && c.state == MoreOf(n) && ValueOf(n, c) as int * 10 + DigitOf(ch) <= 999
    ensures SwitchOn(c, ch) == Turn(WithNumber(n, c, (ValueOf(n, c) as int * 10 + DigitOf(ch)) as uint16), Break)
  {
    hide Inv, Sound, TimesTen;
    NextNumber(ValueOf(n, c), ch);
    if n.ReqMajor? || n.ReqMinor? { RequestArm(c, ch); } else { StatusArm(c, ch); }
    hide SwitchOn;
  }

  // A number of a start line: digits, for at most 999.
  predicate IsNumber(ds: seq<byte>) {
    ds != [] && (forall i | 0 <= i < |ds| :: IsNum(ds[i])) && SpacedDigits(ds) && DecValue(ds) <= 999
  }

  function NumberValue(ds: seq<byte>): uint16
    requires IsNumber(ds)
  {
    DecValue(ds) as uint16
  }

  lemma NumberSnoc(ds: seq<byte>)
    requires IsNumber(ds) && |ds| > 1
    ensures var k := |ds| - 1;
            && IsNum(ds[k]) && IsNumber(ds[..k]) && ds[..k][0] == ds[0]
            && NumberValue(ds) as int == NumberValue(ds[..k]) as int * 10 + DigitOf(ds[k]) <= 999
  {
    var k := |ds| - 1;
    assert ds == ds[..k] + [ds[k]];
    DecSnoc(ds[..k], ds[k]);
  }

  lemma {:induction false} NumberRuns(p: Parser, n: Number, ds: seq<byte>, skip: Answers)
    requires Ready(p) && p.core.state == FirstOf(n) && IsNumber(ds) && (n.ReqMajor? ==> ds[0] != '0')
    requires p.nread + |ds| <= MAX_HEADER_SIZE
    ensures var c := WithNumber(n, p.core, NumberValue(ds));
            RunsTo(p, ds, skip, Moved(p, c, |ds|), []) && Ready(Moved(p, c, |ds|))
    decreases |ds|
  {
    hide Run, Inv, SwitchOn, NumberValue, DecValue;
    var k := |ds| - 1;
    if k == 0 {
      SingleDigit(ds);
      FirstDigitTurn(p.core, n, ds[0]);
      RunsByte(p, ds[0], skip, SwitchOn(p.core, ds[0]));
    } else {
      NumberSnoc(ds);
      hide IsNumber, RunsTo, Ready, Moved;
      NumberRuns(p, n, ds[..k], skip);
      NumberOn(p, n, ds, skip);
    }
  }

  lemma SingleDigit(ds: seq<byte>)
    requires IsNumber(ds) && |ds| == 1
    ensures ds == [ds[0]] && IsNum(ds[0]) && NumberValue(ds) as int == DigitOf(ds[0])
  {
    OneDigitText(ds[0]);
  }

  lemma NumberOn(p: Parser, n: Number, ds: seq<byte>, skip: Answers)
    requires IsNumber(ds) && |ds| > 1 && IsNumber(ds[..|ds| - 1]) && p.nread + |ds| <= MAX_HEADER_SIZE
    requires RunsTo(p, ds[..|ds| - 1], skip, Moved(p, WithNumber(n, p.core, NumberValue(ds[..|ds| - 1])), |ds| - 1), [])
    ensures var c := WithNumber(n, p.core, NumberValue(ds));
            RunsTo(p, ds, skip, Moved(p, c, |ds|), []) && Ready(Moved(p, c, |ds|))
  {
    hide IsNumber, NumberValue, RunsTo, Ready, Moved, WithNumber, Run, Inv, DecValue;
    var k := |ds| - 1;
    NumberSnoc(ds);
    assert ds[..k] + [ds[k]] == ds;
    NumberStep(p, ds[..k], n, NumberValue(ds[..k]), ds[k], skip);
  }

  lemma NumberAgain(n: Number, c: Core, v: uint16, w: uint16)
    ensures WithNumber(n, WithNumber(n, c, v), w) == WithNumber(n, c, w)
    ensures WithNumber(n, c, v).state == MoreOf(n) && ValueOf(n, WithNumber(n, c, v)) == v && ParsingHeader(MoreOf(n))
  {
  }

  lemma NumberStep(p: Parser, a: seq<byte>, n: Number, v: uint16, ch: byte, skip: Answers)
    requires RunsTo(p, a, skip, Moved(p, WithNumber(n, p.core, v), |a|), []) && p.nread + |a| < MAX_HEADER_SIZE
    requires IsNum(ch) && v as int * 10 + DigitOf(ch) <= 999
    ensures var c := WithNumber(n, p.core, (v as int * 10 + DigitOf(ch)) as uint16);
            RunsTo(p, a + [ch], skip, Moved(p, c, |a| + 1), []) && Ready(Moved(p, c, |a| + 1))
  {
    hide WithNumber, Run, Inv, SwitchOn, RunsTo, Ready, Moved, MoreOf, ValueOf, ParsingHeader;
    var c, w := WithNumber(n, p.core, v), (v as int * 10 + DigitOf(ch)) as uint16;
    var d := WithNumber(n, p.core, w);
    NumberAgain(n, p.core, v, w);
    RunsInv(p, a, c, [], skip);
    NextDigitTurn(c, n, ch);
    RunsSilent(p, a, c, [], ch, d, skip);
  }

  lemma DotTurn(c: Core, req: bool)
    requires Inv(c) && c.state == MoreOf(if req then ReqMajor else ResMajor)
    ensures SwitchOn(c, '.') == Turn(c.(state := FirstOf(if req then ReqMinor else ResMinor)), Break)
  {
    hide Inv, Sound;
    if req { RequestArm(c, '.'); } else { StatusArm(c, '.'); }
    hide SwitchOn;
  }

  function VersionText(major: seq<byte>, minor: seq<byte>): seq<byte> { PROTOCOL + major + ['.'] + minor }

  // The fields after the number before the dot, and after both.
  function AfterMajor(c: Core, req: bool, major: seq<byte>): Core
    requires IsNumber(major)
  {
    WithNumber(if req then ReqMajor else ResMajor, WordCore(c, req, 5), NumberValue(major))
  }

  function AfterVersion(c: Core, req: bool, major: seq<byte>, minor: seq<byte>): Core
    requires IsNumber(major) && IsNumber(minor)
  {
    WithNumber(if req then ReqMinor else ResMinor, AfterMajor(c, req, major), NumberValue(minor))
  }

  lemma MajorRuns(p: Parser, req: bool, major: seq<byte>, skip: Answers)
    requires Ready(p) && p.core.state == WordState(req, 0) && IsNumber(major) && (req ==> major[0] != '0')
    requires p.nread + 5 + |major| <= MAX_HEADER_SIZE
    ensures var c, n := AfterMajor(p.core, req, major), 5 + |major|;
            RunsTo(p, PROTOCOL + major, skip, Moved(p, c, n), WordEvents(req, 5)) && Ready(Moved(p, c, n))
  {
    hide Run, Inv, SwitchOn, IsNumber, NumberValue;
    WordRuns(p, req, 5, skip);
    assert PROTOCOL[..5] == PROTOCOL && |PROTOCOL| == 5;
    var c := WordCore(p.core, req, 5);
    NumberRuns(Moved(p, c, 5), if req then ReqMajor else ResMajor, major, skip);
    hide RunsTo, Ready;
    RunsOn(p, PROTOCOL, c, WordEvents(req, 5), major, AfterMajor(p.core, req, major), [], skip);
    assert WordEvents(req, 5) + [] == WordEvents(req, 5);
  }

  lemma DotRuns(p: Parser, req: bool, a: seq<byte>, c: Core, e: seq<Event>, skip: Answers)
    requires RunsTo(p, a, skip, Moved(p, c, |a|), e) && c.state == MoreOf(if req then ReqMajor else ResMajor)
    requires p.nread + |a| < MAX_HEADER_SIZE
    ensures var d := c.(state := FirstOf(if req then ReqMinor else ResMinor));
            RunsTo(p, a + ['.'], skip, Moved(p, d, |a| + 1), e) && Ready(Moved(p, d, |a| + 1))
  {
    hide Run, Inv, SwitchOn, RunsTo, Ready;
    RunsInv(p, a, c, e, skip);
    DotTurn(c, req);
    RunsSilent(p, a, c, e, '.', c.(state := FirstOf(if req then ReqMinor else ResMinor)), skip);
  }

  // HTTP/, the numbers and the dot.
  lemma VersionRuns(p: Parser, req: bool, major: seq<byte>, minor: seq<byte>, skip: Answers)
    requires Ready(p) && p.core.state == WordState(req, 0) && IsNumber(major) && IsNumber(minor)
    requires (req ==> major[0] != '0') && p.nread + |VersionText(major, minor)| <= MAX_HEADER_SIZE
    ensures var d, n := AfterVersion(p.core, req, major, minor), |VersionText(major, minor)|;
            RunsTo(p, VersionText(major, minor), skip, Moved(p, d, n), WordEvents(req, 5)) && Ready(Moved(p, d, n))
  {
    hide Run, Inv, SwitchOn, IsNumber, NumberValue, RunsTo, Ready;
    var e, c := WordEvents(req, 5), AfterMajor(p.core, req, major);
    var dotted := c.(state := FirstOf(if req then ReqMinor else ResMinor));
    MajorRuns(p, req, major, skip);
    var a := PROTOCOL + major;
    assert |a| == 5 + |major| && |a + ['.']| == |a| + 1;
    DotRuns(p, req, a, c, e, skip);
    MinorRuns(p, req, a + ['.'], dotted, e, minor, skip);
  }

  lemma MinorRuns(p: Parser, req: bool, a: seq<byte>, c: Core, e: seq<Event>, minor: seq<byte>, skip: Answers)
    requires RunsTo(p, a, skip, Moved(p, c, |a|), e) && c.state == FirstOf(if req then ReqMinor else ResMinor)
    requires IsNumber(minor) && p.nread + |a| + |minor| <= MAX_HEADER_SIZE
    ensures var d := WithNumber(if req then ReqMinor else ResMinor, c, NumberValue(minor));
            RunsTo(p, a + minor, skip, Moved(p, d, |a + minor|), e) && Ready(Moved(p, d, |a + minor|))
  {
    hide Run, Inv, SwitchOn, IsNumber, NumberValue, RunsTo, Ready, WithNumber;
    RunsInv(p, a, c, e, skip);
    NumberRuns(Moved(p, c, |a|), if req then ReqMinor else ResMinor, minor, skip);
    RunsOn(p, a, c, e, minor, WithNumber(if req then ReqMinor else ResMinor, c, NumberValue(minor)), [], skip);
    assert e + [] == e;
  }

  // A status line: HTTP/ and the numbers, the status, and anything after a space.
  datatype Answer = Answer(major: seq<byte>, minor: seq<byte>, spaces: seq<byte>, code: seq<byte>, reason: seq<byte>,
                           crlf: bool)

  predicate ProperAnswer(l: Answer) {
    && IsNumber(l.major) && IsNumber(l.minor) && l.spaces != [] && AllSpaces(l.spaces) && IsNumber(l.code)
    && NoLineEnd(l.reason) && (l.reason != [] ==> l.reason[0] == ' ')
  }

  function AnswerText(l: Answer): seq<byte> {
    VersionText(l.major, l.minor) + l.spaces + l.code + l.reason + Eol(l.crlf)
  }

  function AnswerCore(c: Core, l: Answer): Core
    requires ProperAnswer(l)
  {
    Fresh(c).(major := NumberValue(l.major), minor := NumberValue(l.minor), statusCode := NumberValue(l.code),
              state := HeaderFieldStart)
  }

  function AnswerEvents(l: Answer): seq<Event> {
    [Told(MessageBegin)] + if l.crlf then [Told(StatusComplete)] else []
  }

  lemma SpaceTurn(c: Core)
    requires Inv(c) && (c.state.ResHttpMinor? || c.state.ResFirstStatusCode?)
    ensures SwitchOn(c, ' ') == Turn(c.(state := ResFirstStatusCode), Break)
  {
    hide Inv, Sound;
    StatusArm(c, ' ');
    hide SwitchOn;
  }

  lemma {:induction false} SpacesRuns(p: Parser, a: seq<byte>, c: Core, e: seq<Event>, spaces: seq<byte>, skip: Answers)
    requires RunsTo(p, a, skip, Moved(p, c, |a|), e) && c.state.ResHttpMinor? && spaces != [] && AllSpaces(spaces)
    requires p.nread + |a| + |spaces| <= MAX_HEADER_SIZE
    ensures var d := c.(state := ResFirstStatusCode);
            RunsTo(p, a + spaces, skip, Moved(p, d, |a + spaces|), e) && Ready(Moved(p, d, |a + spaces|))
    decreases |spaces|
  {
    hide Run, Inv, SwitchOn, RunsTo, Ready;
    var k := |spaces| - 1;
    var before := a + spaces[..k];
    assert spaces[k] == ' ' && a + spaces == before + [' '] && |before| == |a| + k;
    var b := if k == 0 then c else c.(state := ResFirstStatusCode);
    if k == 0 { assert before == a; } else { SpacesRuns(p, a, c, e, spaces[..k], skip); }
    RunsInv(p, before, b, e, skip);
    SpaceTurn(b);
    RunsSilent(p, before, b, e, ' ', c.(state := ResFirstStatusCode), skip);
  }

  lemma ReasonTurn(c: Core, ch: byte)
    requires Inv(c) && ch != CR && ch != LF && (c.state.ResStatus? || (c.state.ResStatusCode? && ch == ' '))
    ensures SwitchOn(c, ch) == Turn(c.(state := ResStatus), Break)
  {
    hide Inv, Sound;
    StatusArm(c, ch);
    hide SwitchOn;
  }

  lemma {:induction false} ReasonRuns(p: Parser, a: seq<byte>, c: Core, e: seq<Event>, reason: seq<byte>, skip: Answers)
    requires RunsTo(p, a, skip, Moved(p, c, |a|), e) && c.state.ResStatusCode? && NoLineEnd(reason)
    requires (reason != [] ==> reason[0] == ' ') && p.nread + |a| + |reason| <= MAX_HEADER_SIZE
    ensures var d := if reason == [] then c else c.(state := ResStatus);
            RunsTo(p, a + reason, skip, Moved(p, d, |a + reason|), e) && Ready(Moved(p, d, |a + reason|))
    decreases |reason|
  {
    hide Run, Inv, SwitchOn, RunsTo, Ready;
    var k := |reason| - 1;
    if reason == [] {
      assert a + reason == a;
      RunsInv(p, a, c, e, skip);
    } else {
      var before, ch := a + reason[..k], reason[k];
      assert a + reason == before + [ch] && |before| == |a| + k;
      ReasonRuns(p, a, c, e, reason[..k], skip);
      var b := if k == 0 then c else c.(state := ResStatus);
      RunsInv(p, before, b, e, skip);
      ReasonTurn(b, ch);
      RunsSilent(p, before, b, e, ch, c.(state := ResStatus), skip);
    }
  }

  lemma LineTurns(c: Core)
    requires Inv(c)
    ensures c.state.ResStatus? || c.state.ResStatusCode? ==>
              && SwitchOn(c, CR) == Turn(c.(state := ResLineAlmostDone), Break)
              && SwitchOn(c, LF) == Turn(c.(state := HeaderFieldStart), Break)
    ensures c.state.ResLineAlmostDone? ==>
              SwitchOn(c, LF) == Turn(c.(state := HeaderFieldStart), Notify(StatusComplete))
  {
    hide Inv, Sound;
    if InStatus(c.state) {
      StatusArm(c, CR);
      StatusArm(c, LF);
    }
    hide SwitchOn;
  }

  lemma LineRuns(p: Parser, a: seq<byte>, c: Core, e: seq<Event>, crlf: bool, skip: Answers)
    requires RunsTo(p, a, skip, Moved(p, c, |a|), e) && (c.state.ResStatus? || c.state.ResStatusCode?)
    requires p.nread + |a| + |Eol(crlf)| <= MAX_HEADER_SIZE
    ensures var d, f := c.(state := HeaderFieldStart), if crlf then [Told(StatusComplete)] else [];
            RunsTo(p, a + Eol(crlf), skip, Moved(p, d, |a + Eol(crlf)|), e + f)
  {
    hide Run, Inv, SwitchOn, RunsTo, Ready;
    RunsInv(p, a, c, e, skip);
    LineTurns(c);
    if crlf {
      var done := c.(state := ResLineAlmostDone);
      RunsSilent(p, a, c, e, CR, done, skip);
      assert |a + [CR]| == |a| + 1;
      RunsInv(p, a + [CR], done, e, skip);
      LineTurns(done);
      var q, d := Moved(p, done, |a + [CR]|), c.(state := HeaderFieldStart);
      RunsByte(q, LF, skip, Turn(d, Notify(StatusComplete)));
      RunsOn(p, a + [CR], done, e, [LF], d, [Told(StatusComplete)], skip);
      assert a + [CR] + [LF] == a + Eol(true);
    } else {
      RunsSilent(p, a, c, e, LF, c.(state := HeaderFieldStart), skip);
      assert e + [] == e && |a + Eol(false)| == |a| + 1;
    }
  }

  // Every well-formed status line is accepted, and leaves the numbers in it.
  lemma AnswerRuns(p: Parser, l: Answer, skip: Answers)
    requires Ready(p) && p.core.state.StartRes? && ProperAnswer(l) && p.nread + |AnswerText(l)| <= MAX_HEADER_SIZE
    ensures RunsTo(p, AnswerText(l), skip, Moved(p, AnswerCore(p.core, l), |AnswerText(l)|), AnswerEvents(l))
  {
    hide Run, Inv, SwitchOn, RunsTo, IsNumber, NumberValue, AllSpaces, NoLineEnd, VersionText;
    var e, a := [Told(MessageBegin)], VersionText(l.major, l.minor);
    assert WordEvents(false, 5) == e;
    VersionRuns(p, false, l.major, l.minor, skip);
    var c := AfterVersion(p.core, false, l.major, l.minor);
    SpacesRuns(p, a, c, e, l.spaces, skip);
    var c1 := c.(state := ResFirstStatusCode);
    CodeRuns(p, a + l.spaces, c1, e, l.code, skip);
    var c2 := WithNumber(ResCode, c1, NumberValue(l.code));
    ReasonRuns(p, a + l.spaces + l.code, c2, e, l.reason, skip);
    var c3 := if l.reason == [] then c2 else c2.(state := ResStatus);
    LineRuns(p, a + l.spaces + l.code + l.reason, c3, e, l.crlf, skip);
    assert c3.(state := HeaderFieldStart) == AnswerCore(p.core, l);
  }

  lemma CodeRuns(p: Parser, a: seq<byte>, c: Core, e: seq<Event>, code: seq<byte>, skip: Answers)
    requires RunsTo(p, a, skip, Moved(p, c, |a|), e) && c.state.ResFirstStatusCode? && IsNumber(code)
    requires p.nread + |a| + |code| <= MAX_HEADER_SIZE
    ensures var d := WithNumber(ResCode, c, NumberValue(code));
            RunsTo(p, a + code, skip, Moved(p, d, |a + code|), e) && Ready(Moved(p, d, |a + code|))
  {
    hide Run, Inv, SwitchOn, IsNumber, NumberValue, RunsTo, Ready, WithNumber;
    RunsInv(p, a, c, e, skip);
    NumberRuns(Moved(p, c, |a|), ResCode, code, skip);
    RunsOn(p, a, c, e, code, WithNumber(ResCode, c, NumberValue(code)), [], skip);
    assert e + [] == e;
  }

  /* ---- The same for requests. ---- */

  // The protocol after the URL; without one, it is HTTP/0.9.
  datatype Protocol = Protocol(spaces: seq<byte>, major: seq<byte>, minor: seq<byte>)

  datatype Query = Query(verb: Method, name: seq<byte>, spaces: seq<byte>, url: seq<byte>, protocol: Option<Protocol>,
                         crlf: bool)

  // A URL that the automaton accepts, and may end.
  ghost predicate UrlWhole(url: seq<byte>, isConnect: bool) {
    && url != [] && ParseUrl.UrlAccepted(url, isConnect)
    && UrlMayEnd(ParseUrl.UrlState(ParseUrl.UrlStart(isConnect), url))
  }

  ghost predicate ProperQuery(l: Query) {
    && Methods.Spelt(l.verb, l.name) && AllSpaces(l.spaces) && UrlWhole(l.url, l.verb == CONNECT)
    && (l.protocol.Some? ==>
          var v := l.protocol.value;
          AllSpaces(v.spaces) && IsNumber(v.major) && v.major[0] != '0' && IsNumber(v.minor))
  }

  function ProtocolText(v: Option<Protocol>): seq<byte> {
    if v.None? then [] else [' '] + v.value.spaces + VersionText(v.value.major, v.value.minor)
  }

  function QueryText(l: Query): seq<byte> {
    l.name + [' '] + l.spaces + l.url + ProtocolText(l.protocol) + Eol(l.crlf)
  }

  ghost function QueryCore(c: Core, l: Query): Core
    requires ProperQuery(l)
  {
    var d := Fresh(c).(verb := l.verb, index := |l.name| + 1, state := HeaderFieldStart);
    if l.protocol.None? then d.(major := 0, minor := 9)
    else d.(major := NumberValue(l.protocol.value.major), minor := NumberValue(l.protocol.value.minor))
  }

  function QueryEvents(l: Query): seq<Event> { [Told(MessageBegin)] + Singles(Url, l.url) + [Data(Url, [])] }

  // The method and the space after it.
  lemma MethodRuns(p: Parser, m: Method, name: seq<byte>, skip: Answers)
    requires Ready(p) && p.core.state.StartReq? && Methods.Spelt(m, name) && p.nread + |name| < MAX_HEADER_SIZE
    ensures var d := Fresh(p.core).(verb := m, index := |name| + 1, state := ReqSpacesBeforeUrl);
            RunsTo(p, name + [' '], skip, Moved(p, d, |name + [' ']|), [Told(MessageBegin)])
  {
    hide Run, Inv, SwitchOn, MethodString, Methods.GuessAt, Methods.Unchecked;
    Methods.FirstOf(p.core, m, name);
    Methods.SpeltRuns(p, m, name, |name|, skip);
    assert name[..|name|] == name;
    Methods.Whole(m);
    var c := Fresh(p.core).(verb := m, index := |name|, state := ReqMethod);
    assert Methods.AfterLetters(p, m, |name|) == Moved(p, c, |name|);
    RunsInv(p, name, c, [Told(MessageBegin)], skip);
    Methods.SpaceEnds(c, m, name);
    RunsSilent(p, name, c, [Told(MessageBegin)], ' ', c.(index := |name| + 1, state := ReqSpacesBeforeUrl), skip);
  }

  lemma StaySpace(c: Core)
    requires Inv(c) && (c.state.ReqSpacesBeforeUrl? || c.state.ReqHttpStart?)
    ensures SwitchOn(c, ' ') == Turn(c, Break)
  {
    hide Inv, Sound, ParseUrlChar;
    if c.state.ReqHttpStart? { RequestArm(c, ' '); } else { UrlAgreement.SpaceBeforeUrl(c); }
    hide SwitchOn;
  }

  lemma {:induction false} StayRuns(p: Parser, a: seq<byte>, c: Core, e: seq<Event>, spaces: seq<byte>, skip: Answers)
    requires RunsTo(p, a, skip, Moved(p, c, |a|), e) && (c.state.ReqSpacesBeforeUrl? || c.state.ReqHttpStart?)
    requires AllSpaces(spaces) && p.nread + |a| + |spaces| <= MAX_HEADER_SIZE
    ensures RunsTo(p, a + spaces, skip, Moved(p, c, |a + spaces|), e) && Ready(Moved(p, c, |a + spaces|))
    decreases |spaces|
  {
    hide Run, Inv, SwitchOn, RunsTo, Ready;
    var k := |spaces| - 1;
    if spaces == [] {
      assert a + spaces == a;
      RunsInv(p, a, c, e, skip);
    } else {
      var before := a + spaces[..k];
      assert spaces[k] == ' ' && a + spaces == before + [' '] && |before| == |a| + k;
      StayRuns(p, a, c, e, spaces[..k], skip);
      RunsInv(p, before, c, e, skip);
      StaySpace(c);
      RunsSilent(p, before, c, e, ' ', c, skip);
    }
  }

  function UrlStateAt(url: seq<byte>, isConnect: bool, k: nat): State
    requires k <= |url|
  {
    ParseUrl.UrlState(ParseUrl.UrlStart(isConnect), url[..k])
  }

  lemma UrlStateNext(url: seq<byte>, isConnect: bool, k: nat)
    requires k < |url| && ParseUrl.UrlAccepted(url, isConnect)
    ensures UrlStateAt(url, isConnect, k + 1)
            == ParseUrlChar(UrlStateAt(url, isConnect, k), url[k]) && InUrl(UrlStateAt(url, isConnect, k + 1))
    ensures UrlStateAt(url, isConnect, 0) == ParseUrl.UrlStart(isConnect)
    ensures url[k] != ' ' && url[k] != CR && url[k] != LF
  {
    ParseUrl.NextUrlState(url, isConnect, k);
  }

  lemma UrlTurns(c: Core, url: seq<byte>, k: nat)
    requires Inv(c) && k < |url| && ParseUrl.UrlAccepted(url, c.verb == CONNECT)
    requires c.state == if k == 0 then ReqSpacesBeforeUrl else UrlStateAt(url, c.verb == CONNECT, k)
    ensures var t := SwitchOn(c, url[k]);
            && t.core == c.(state := UrlStateAt(url, c.verb == CONNECT, k + 1)) && InUrl(t.core.state)
            && (t.act == Mark(Url) || t.act == Keep(Url)) && !t.resets
  {
    UrlStateNext(url, c.verb == CONNECT, k);
    if k > 0 { UrlStateNext(url, c.verb == CONNECT, k - 1); }
    hide Inv, Sound, ParseUrlChar, ParseUrl.UrlAccepted, UrlStateAt, SwitchOn;
    UrlAgreement.UrlChar(c, url[k]);
    NoReset(c, url[k]);
  }

  lemma NoReset(c: Core, ch: byte)
    requires Inv(c) && (c.state.ReqSpacesBeforeUrl? || InUrl(c.state))
    ensures !SwitchOn(c, ch).resets
  {
    hide ParseUrlChar, Sound, Inv;
  }

  lemma {:induction false} UrlRuns(p: Parser, a: seq<byte>, c: Core, e: seq<Event>, url: seq<byte>, k: nat,
                                   skip: Answers)
    requires RunsTo(p, a, skip, Moved(p, c, |a|), e) && c.state.ReqSpacesBeforeUrl? && k <= |url|
    requires ParseUrl.UrlAccepted(url, c.verb == CONNECT) && p.nread + |a| + k <= MAX_HEADER_SIZE
    ensures var d := if k == 0 then c else c.(state := UrlStateAt(url, c.verb == CONNECT, k));
            RunsTo(p, a + url[..k], skip, Moved(p, d, |a + url[..k]|), e + Singles(Url, url[..k]))
    decreases k
  {
    hide Run, Inv, SwitchOn, RunsTo, Ready, ParseUrl.UrlAccepted, Singles, UrlStateAt;
    if k == 0 {
      NoSingles(Url);
      assert a + url[..0] == a && e + [] == e && url[..0] == [];
    } else {
      var j := k - 1;
      var before, ch := a + url[..j], url[j];
      assert a + url[..k] == before + [ch] && |before| == |a| + j && url[..k] == url[..j] + [ch];
      UrlRuns(p, a, c, e, url, j, skip);
      var b, f := if j == 0 then c else c.(state := UrlStateAt(url, c.verb == CONNECT, j)), e + Singles(Url, url[..j]);
      RunsInv(p, before, b, f, skip);
      UrlTurns(b, url, j);
      var t := SwitchOn(b, ch);
      if j > 0 { UrlStateNext(url, c.verb == CONNECT, j - 1); }
      RunsByte(Moved(p, b, |before|), ch, skip, t);
      RunsOn(p, before, b, f, [ch], t.core, [Data(Url, [ch])], skip);
      SinglesSnoc(Url, url[..j], ch);
      assert f + [Data(Url, [ch])] == e + Singles(Url, url[..k]);
    }
  }

  // The byte after the URL.
  lemma UrlEndTurn(c: Core, ch: byte)
    requires Inv(c) && InUrl(c.state) && UrlMayEnd(c.state) && (ch == ' ' || ch == CR || ch == LF)
    ensures SwitchOn(c, ch) ==
            Turn(if ch == ' ' then c.(state := ReqHttpStart)
                 else c.(major := 0, minor := 9, state := if ch == CR then ReqLineAlmostDone else HeaderFieldStart),
                 Flush(Url))
  {
    hide ParseUrlChar, Sound, Inv, UrlMayEnd;
  }

  lemma UrlEndRuns(p: Parser, a: seq<byte>, c: Core, e: seq<Event>, ch: byte, skip: Answers)
    requires RunsTo(p, a, skip, Moved(p, c, |a|), e) && InUrl(c.state) && UrlMayEnd(c.state)
    requires (ch == ' ' || ch == CR || ch == LF) && p.nread + |a| < MAX_HEADER_SIZE
    ensures var d := if ch == ' ' then c.(state := ReqHttpStart)
                     else c.(major := 0, minor := 9, state := if ch == CR then ReqLineAlmostDone else HeaderFieldStart);
            RunsTo(p, a + [ch], skip, Moved(p, d, |a + [ch]|), e + [Data(Url, [])])
  {
    hide Run, Inv, SwitchOn, RunsTo, Ready, UrlMayEnd;
    RunsInv(p, a, c, e, skip);
    UrlEndTurn(c, ch);
    assert ParsingHeader(c.state) by { hide UrlMayEnd; }
    hide InUrl, ParsingHeader;
    var t := SwitchOn(c, ch);
    RunsByte(Moved(p, c, |a|), ch, skip, t);
    RunsOn(p, a, c, e, [ch], t.core, [Data(Url, [])], skip);
  }

  lemma EndTurns(c: Core)
    requires Inv(c)
    ensures c.state.ReqHttpMinor? ==>
              && SwitchOn(c, CR) == Turn(c.(state := ReqLineAlmostDone), Break)
              && SwitchOn(c, LF) == Turn(c.(state := HeaderFieldStart), Break)
    ensures c.state.ReqLineAlmostDone? ==> SwitchOn(c, LF) == Turn(c.(state := HeaderFieldStart), Break)
  {
    hide Inv, Sound;
    if InReqVersion(c.state) {
      RequestArm(c, CR);
      RequestArm(c, LF);
    }
    hide SwitchOn;
  }

  lemma EndRuns(p: Parser, a: seq<byte>, c: Core, e: seq<Event>, crlf: bool, skip: Answers)
    requires RunsTo(p, a, skip, Moved(p, c, |a|), e) && c.state.ReqHttpMinor?
    requires p.nread + |a| + |Eol(crlf)| <= MAX_HEADER_SIZE
    ensures RunsTo(p, a + Eol(crlf), skip, Moved(p, c.(state := HeaderFieldStart), |a + Eol(crlf)|), e)
  {
    hide Run, Inv, SwitchOn, RunsTo, Ready;
    RunsInv(p, a, c, e, skip);
    EndTurns(c);
    if crlf {
      RunsSilent(p, a, c, e, CR, c.(state := ReqLineAlmostDone), skip);
      assert |a + [CR]| == |a| + 1;
      LastLf(p, a + [CR], c.(state := ReqLineAlmostDone), e, skip);
      assert a + [CR] + [LF] == a + Eol(true);
    } else {
      RunsSilent(p, a, c, e, LF, c.(state := HeaderFieldStart), skip);
      assert |a + Eol(false)| == |a| + 1;
    }
  }

  lemma LastLf(p: Parser, a: seq<byte>, c: Core, e: seq<Event>, skip: Answers)
    requires RunsTo(p, a, skip, Moved(p, c, |a|), e) && c.state.ReqLineAlmostDone? && p.nread + |a| < MAX_HEADER_SIZE
    ensures RunsTo(p, a + [LF], skip, Moved(p, c.(state := HeaderFieldStart), |a + [LF]|), e)
  {
    hide Run, Inv, SwitchOn, RunsTo, Ready;
    RunsInv(p, a, c, e, skip);
    EndTurns(c);
    RunsSilent(p, a, c, e, LF, c.(state := HeaderFieldStart), skip);
    assert |a + [LF]| == |a| + 1;
  }

  // From the URL to the end of a line with a protocol.
  lemma ProtocolRuns(p: Parser, a: seq<byte>, c: Core, e: seq<Event>, v: Protocol, crlf: bool, skip: Answers)
    requires RunsTo(p, a, skip, Moved(p, c, |a|), e) && InUrl(c.state) && UrlMayEnd(c.state)
    requires AllSpaces(v.spaces) && IsNumber(v.major) && v.major[0] != '0' && IsNumber(v.minor)
    requires p.nread + |a + ProtocolText(Some(v)) + Eol(crlf)| <= MAX_HEADER_SIZE
    ensures var d := c.(major := NumberValue(v.major), minor := NumberValue(v.minor), state := HeaderFieldStart);
            var text := a + ProtocolText(Some(v)) + Eol(crlf);
            RunsTo(p, text, skip, Moved(p, d, |text|), e + [Data(Url, [])])
  {
    hide Run, Inv, SwitchOn, RunsTo, Ready, UrlMayEnd, InUrl, IsNumber, NumberValue, AllSpaces, VersionText;
    var f, s := e + [Data(Url, [])], c.(state := ReqHttpStart);
    var b, w := a + [' '] + v.spaces, VersionText(v.major, v.minor);
    assert a + ProtocolText(Some(v)) == b + w;
    UrlEndRuns(p, a, c, e, ' ', skip);
    StayRuns(p, a + [' '], s, f, v.spaces, skip);
    VersionRuns(Moved(p, s, |b|), true, v.major, v.minor, skip);
    var d := AfterVersion(s, true, v.major, v.minor);
    RunsOn(p, b, s, f, w, d, [], skip);
    assert f + [] == f;
    EndRuns(p, b + w, d, f, crlf, skip);
  }

  lemma BareRuns(p: Parser, a: seq<byte>, c: Core, e: seq<Event>, crlf: bool, skip: Answers)
    requires RunsTo(p, a, skip, Moved(p, c, |a|), e) && InUrl(c.state) && UrlMayEnd(c.state)
    requires p.nread + |a + Eol(crlf)| <= MAX_HEADER_SIZE
    ensures var d := c.(major := 0, minor := 9, state := HeaderFieldStart);
            RunsTo(p, a + Eol(crlf), skip, Moved(p, d, |a + Eol(crlf)|), e + [Data(Url, [])])
  {
    hide Run, Inv, SwitchOn, RunsTo, Ready, UrlMayEnd, InUrl;
    UrlEndRuns(p, a, c, e, if crlf then CR else LF, skip);
    if crlf {
      LastLf(p, a + [CR], c.(major := 0, minor := 9, state := ReqLineAlmostDone), e + [Data(Url, [])], skip);
      assert a + [CR] + [LF] == a + Eol(true);
    }
  }

  // Up to the end of the URL.
  ghost function AtUrlEnd(c: Core, l: Query): Core {
    Fresh(c).(verb := l.verb, index := |l.name| + 1, state := UrlStateAt(l.url, l.verb == CONNECT, |l.url|))
  }

  lemma QueryParts(l: Query)
    requires ProperQuery(l)
    ensures Methods.Spelt(l.verb, l.name) && AllSpaces(l.spaces) && ParseUrl.UrlAccepted(l.url, l.verb == CONNECT)
    ensures l.url != [] && l.url[..|l.url|] == l.url
    ensures var s := UrlStateAt(l.url, l.verb == CONNECT, |l.url|); InUrl(s) && UrlMayEnd(s)
  {
    UrlStateNext(l.url, l.verb == CONNECT, |l.url| - 1);
    assert l.url[..|l.url|] == l.url;
    hide InUrl, UrlMayEnd, Methods.Spelt, AllSpaces, ParseUrl.UrlAccepted, IsNumber;
  }

  lemma UrlPartRuns(p: Parser, l: Query, skip: Answers)
    requires Ready(p) && p.core.state.StartReq? && ProperQuery(l)
    requires p.nread + |l.name + [' '] + l.spaces + l.url| <= MAX_HEADER_SIZE
    ensures var a := l.name + [' '] + l.spaces + l.url;
            RunsTo(p, a, skip, Moved(p, AtUrlEnd(p.core, l), |a|), [Told(MessageBegin)] + Singles(Url, l.url))
    ensures InUrl(AtUrlEnd(p.core, l).state) && UrlMayEnd(AtUrlEnd(p.core, l).state)
  {
    hide Run, Inv, SwitchOn, RunsTo, Ready, UrlMayEnd, InUrl, AllSpaces, UrlStateAt, ParseUrl.UrlAccepted;
    hide Methods.Spelt, Singles, ProperQuery;
    var k := |l.url|;
    QueryParts(l);
    var c := Fresh(p.core).(verb := l.verb, index := |l.name| + 1, state := ReqSpacesBeforeUrl);
    MethodRuns(p, l.verb, l.name, skip);
    StayRuns(p, l.name + [' '], c, [Told(MessageBegin)], l.spaces, skip);
    UrlRuns(p, l.name + [' '] + l.spaces, c, [Told(MessageBegin)], l.url, k, skip);
  }

  // Every well-formed request line is accepted, and leaves the method, the numbers and the URL in it.
  lemma QueryRuns(p: Parser, l: Query, skip: Answers)
    requires Ready(p) && p.core.state.StartReq? && ProperQuery(l) && p.nread + |QueryText(l)| <= MAX_HEADER_SIZE
    ensures RunsTo(p, QueryText(l), skip, Moved(p, QueryCore(p.core, l), |QueryText(l)|), QueryEvents(l))
  {
    hide Run, Inv, SwitchOn, RunsTo, Ready, UrlMayEnd, InUrl, IsNumber, NumberValue, AllSpaces, UrlStateAt, UrlWhole;
    hide Methods.Spelt, Singles, ProtocolText;
    var a, d, e := l.name + [' '] + l.spaces + l.url, AtUrlEnd(p.core, l), [Told(MessageBegin)] + Singles(Url, l.url);
    UrlPartRuns(p, l, skip);
    if l.protocol.None? {
      NoProtocol();
      assert a + [] == a;
      BareRuns(p, a, d, e, l.crlf, skip);
    } else {
      ProtocolRuns(p, a, d, e, l.protocol.value, l.crlf, skip);
    }
  }

  lemma NoProtocol()
    ensures ProtocolText(None) == []
  {
  }
}
