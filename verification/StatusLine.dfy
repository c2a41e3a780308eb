/** The status line of a response, byte by byte: the status is the number that stands after the version
    (src/http_parser.c:683-871). */
module StatusLine {
  import opened Bytes
  import opened ParserState
  import opened Switch
  import opened Trace
  import opened Machine
  import opened Lengths
  import opened Headers

  /* ---- The status, from the text. ---- */

  function FromSpace(s: seq<byte>): (t: seq<byte>)
    ensures t == [] <==> ' ' !in s
  {
    if s == [] || s[0] == ' ' then s else FromSpace(s[1..])
  }

  function SkipSpaces(s: seq<byte>): seq<byte> { if s != [] && s[0] == ' ' then SkipSpaces(s[1..]) else s }

  function LeadingDigits(s: seq<byte>): (d: seq<byte>)
    ensures SpacedDigits(d) && d <= s && forall i | 0 <= i < |d| :: IsNum(d[i])
  {
    if s != [] && IsNum(s[0]) then [s[0]] + LeadingDigits(s[1..]) else []
  }

  // What stands after the version and the spaces.
  function AfterVersion(s: seq<byte>): seq<byte> { SkipSpaces(FromSpace(s)) }

  function StatusOf(s: seq<byte>): nat { DecValue(LeadingDigits(AfterVersion(s))) }

  lemma {:induction false} FromSpaceSnoc(s: seq<byte>, ch: byte)
    ensures FromSpace(s + [ch]) == if ' ' in s then FromSpace(s) + [ch] else if ch == ' ' then [ch] else []
  {
    if s == [] {
      assert s + [ch] == [ch] && FromSpace([ch][1..]) == [];
    } else {
      assert (s + [ch])[1..] == s[1..] + [ch];
      if s[0] != ' ' { FromSpaceSnoc(s[1..], ch); }
    }
  }

  lemma {:induction false} SkipSpacesSnoc(s: seq<byte>, ch: byte)
    ensures SkipSpaces(s + [ch]) == if SkipSpaces(s) != [] then SkipSpaces(s) + [ch] else if ch == ' ' then [] else [ch]
  {
    if s == [] {
      assert s + [ch] == [ch] && [ch][1..] == [];
    } else if s[0] == ' ' {
      assert (s + [ch])[1..] == s[1..] + [ch];
      SkipSpacesSnoc(s[1..], ch);
    }
  }

  lemma {:induction false} LeadingDigitsSnoc(s: seq<byte>, ch: byte)
    ensures LeadingDigits(s + [ch]) == if LeadingDigits(s) == s && IsNum(ch) then s + [ch] else LeadingDigits(s)
  {
    if s == [] {
      assert s + [ch] == [ch] && [ch][1..] == [] && LeadingDigits([]) == [];
    } else if IsNum(s[0]) {
      assert (s + [ch])[1..] == s[1..] + [ch];
      LeadingDigitsSnoc(s[1..], ch);
      assert s == [s[0]] + s[1..];
      assert LeadingDigits(s) == s <==> LeadingDigits(s[1..]) == s[1..] by {
        assert LeadingDigits(s)[1..] == LeadingDigits(s[1..]);
      }
    }
  }

  /* ---- The fields while the line is read. ---- */

  // In the status line of a response: nothing is known yet about the body.
  ghost predicate InStatusLine(c: Core) {
    && (c.state.StartRes? || InResVersion(c.state) || InStatus(c.state))
    && Opened(c) && (c.state.StartRes? || c.contentLength == ULLONG_MAX)
  }

  // The fields that a new response parser keeps up to its headers.
  ghost predicate Opened(c: Core) { c.kind == Response && c.verb == DELETE && c.flags == NO_FLAGS }

  lemma StatusByte(c: Core, ch: byte)
    requires Inv(c) && InStatusLine(c) && !SwitchOn(c, ch).act.Fail?
    ensures var t := SwitchOn(c, ch);
            && OfHeader(t.act)
            && (InStatusLine(t.core)
                || (ch == LF && t.core.state.HeaderFieldStart? && Opened(t.core) && t.core.contentLength == ULLONG_MAX))
  {
    hide Inv, Sound;
    StatusArm(c, ch);
    hide SwitchOn;
  }

  // The arms of the switch for the status line.
  lemma StatusArm(c: Core, ch: byte)
    requires Inv(c) && (c.state.StartRes? || InResVersion(c.state) || InStatus(c.state))
    ensures SwitchOn(c, ch) == if c.state.StartRes? then StartResTurn(c, ch)
                               else if InResVersion(c.state) then ResVersionTurn(c, ch) else StatusTurn(c, ch)
  {
    hide Inv, StartResTurn, ResVersionTurn, StatusTurn;
  }

  // What the text s of the line so far says of the state and the status.
  ghost predicate StatusKnown(c: Core, s: seq<byte>) {
    var d := AfterVersion(s);
    var ds := LeadingDigits(d);
    if ' ' !in s then c.state.StartRes? || InResVersion(c.state)
    else if d == [] then c.state.ResFirstStatusCode?
    else
      && ds != [] && c.statusCode as int == DecValue(ds) <= 999
      && (if ds == d then c.state.ResStatusCode? else c.state.ResStatus? || c.state.ResLineAlmostDone?)
  }

  lemma StatusKnownNext(c: Core, s: seq<byte>, ch: byte)
    requires Inv(c) && InStatusLine(c) && StatusKnown(c, s) && ch != LF && !SwitchOn(c, ch).act.Fail?
    ensures StatusKnown(SwitchOn(c, ch).core, s + [ch])
  {
    hide SwitchOn, DecValue, FromSpace, SkipSpaces, LeadingDigits, Inv, InStatusLine;
    var d := AfterVersion(s);
    FromSpaceSnoc(s, ch);
    SkipSpacesSnoc(FromSpace(s), ch);
    LeadingDigitsSnoc(d, ch);
    NoText(ch);
    if ' ' !in s {
      VersionNext(c, ch);
    } else {
      if d != [] && LeadingDigits(d) == d && IsNum(ch) { DecSnoc(d, ch); }
      StatusNext(c, ch);
    }
  }

  lemma VersionNext(c: Core, ch: byte)
    requires Inv(c) && (c.state.StartRes? || InResVersion(c.state)) && ch != LF && !SwitchOn(c, ch).act.Fail?
    ensures var s := SwitchOn(c, ch).core.state;
            if ch == ' ' then s.ResFirstStatusCode? else s.StartRes? || InResVersion(s)
  {
    hide Inv, Sound;
    StatusArm(c, ch);
    hide SwitchOn;
  }

  lemma StatusNext(c: Core, ch: byte)
    requires Inv(c) && InStatus(c.state) && ch != LF && !SwitchOn(c, ch).act.Fail?
    ensures var d := SwitchOn(c, ch).core;
            && (c.state.ResFirstStatusCode? ==>
                  if ch == ' ' then d.state.ResFirstStatusCode?
                  else IsNum(ch) && d.state.ResStatusCode? && d.statusCode as int == DigitOf(ch))
            && (c.state.ResStatusCode? && IsNum(ch) && c.statusCode <= 999 ==>
                  d.state.ResStatusCode? && d.statusCode as int == c.statusCode as int * 10 + DigitOf(ch) <= 999)
            && (c.state.ResStatusCode? && !IsNum(ch) ==>
                  (d.state.ResStatus? || d.state.ResLineAlmostDone?) && d.statusCode == c.statusCode)
            && (c.state.ResStatus? || c.state.ResLineAlmostDone? ==>
                  (d.state.ResStatus? || d.state.ResLineAlmostDone?) && d.statusCode == c.statusCode)
  {
    hide Inv, Sound;
    StatusArm(c, ch);
    hide SwitchOn;
  }

  lemma NoText(ch: byte)
    ensures FromSpace([]) == [] && SkipSpaces([]) == [] && SkipSpaces([' ']) == [] && LeadingDigits([]) == []
    ensures IsNum(ch) ==> LeadingDigits([ch]) == [ch] && DecValue([ch]) == DigitOf(ch)
  {
    assert [' '][1..] == [] && [ch][1..] == [] && [ch][..0] == [];
  }

  predicate NoLf(s: seq<byte>) { forall i | 0 <= i < |s| :: s[i] != LF }

  // Up to the end of the line.
  lemma {:induction false} StatusRun(p: Parser, s: seq<byte>, skip: Answers)
    requires Ready(p) && InStatusLine(p.core) && p.core.state.StartRes? && NoLf(s) && Run(p, s, skip).verdict == Go
    ensures var c := Run(p, s, skip).parser.core; InStatusLine(c) && StatusKnown(c, s)
    ensures Quiet(p, Run(p, s, skip))
    decreases |s|
  {
    hide Run, SwitchOn, Inv, Quiet, InStatusLine, StatusKnown;
    if s == [] {
      NothingKnown(p.core);
      QuietEmpty(p, skip);
    } else {
      var n := |s| - 1;
      assert s == s[..n] + [s[n]];
      GoParts(p, s[..n], [s[n]], skip);
      StatusRun(p, s[..n], skip);
      var q := Run(p, s[..n], skip).parser;
      StatusGo(q, s[n], skip);
      StatusKnownNext(q.core, s[..n], s[n]);
      QuietParts(p, s[..n], [s[n]], skip);
    }
  }

  lemma NothingKnown(c: Core)
    requires c.state.StartRes?
    ensures StatusKnown(c, [])
  {
  }

  lemma StatusGo(q: Parser, ch: byte, skip: Answers)
    requires Ready(q) && InStatusLine(q.core) && Run(q, [ch], skip).verdict == Go
    ensures Quiet(q, Run(q, [ch], skip)) && !SwitchOn(q.core, ch).act.Fail?
    ensures var c := Run(q, [ch], skip).parser.core;
            && c == SwitchOn(q.core, ch).core
            && (InStatusLine(c)
                || (ch == LF && c.state.HeaderFieldStart? && Opened(c) && c.contentLength == ULLONG_MAX))
  {
    StatusTurns(q.core, ch);
    hide Run, SwitchOn, Inv, Quiet;
    GoByte(q, ch, skip);
    StatusByte(q.core, ch);
  }

  lemma StatusTurns(c: Core, ch: byte)
    requires Inv(c) && InStatusLine(c)
    ensures !Repeats(SwitchOn(c, ch).act) && !SwitchOn(c, ch).act.Leave?
  {
    hide Inv, Sound;
  }

  // The line feed: after a status it ends the line, on an empty line it changes nothing, and nowhere else is it
  // accepted.
  lemma StatusLf(c: Core, s: seq<byte>)
    requires Inv(c) && InStatusLine(c) && StatusKnown(c, s) && !SwitchOn(c, LF).act.Fail?
    ensures var d := SwitchOn(c, LF).core;
            if ' ' in s then d.state.HeaderFieldStart? && d.statusCode == c.statusCode
              && LeadingDigits(AfterVersion(s)) != []
            else d.state.StartRes?
  {
    hide Inv, Sound, Opened;
    StatusArm(c, LF);
    hide SwitchOn, DecValue, FromSpace, SkipSpaces, LeadingDigits;
  }

  // An accepted line with a space in it is a status line, and its status is the number after the version.
  lemma StatusExactly(p: Parser, s: seq<byte>, skip: Answers)
    requires Ready(p) && InStatusLine(p.core) && p.core.state.StartRes? && NoLf(s)
    requires Run(p, s + [LF], skip).verdict == Go && ' ' in s
    ensures var c := Run(p, s + [LF], skip).parser.core;
            && c.state.HeaderFieldStart? && Opened(c) && c.contentLength == ULLONG_MAX
            && c.statusCode as int == StatusOf(s) <= 999
    ensures Quiet(p, Run(p, s + [LF], skip))
  {
    hide Run, SwitchOn, Inv, Quiet, Opened, DecValue, LeadingDigits, AfterVersion;
    GoParts(p, s, [LF], skip);
    StatusRun(p, s, skip);
    var q := Run(p, s, skip).parser;
    StatusGo(q, LF, skip);
    StatusLf(q.core, s);
    QuietParts(p, s, [LF], skip);
  }

  // Empty lines before it are skipped, though each CR and LF begins a message.
  lemma {:induction false} EmptyLinesRun(p: Parser, lead: seq<byte>, skip: Answers)
    requires Ready(p) && InStatusLine(p.core) && p.core.state.StartRes? && Run(p, lead, skip).verdict == Go
    requires LineEnds(lead)
    ensures var c := Run(p, lead, skip).parser.core; InStatusLine(c) && c.state.StartRes?
    ensures Quiet(p, Run(p, lead, skip))
    decreases |lead|
  {
    hide Run, SwitchOn, Inv, Quiet, InStatusLine;
    if lead == [] {
      QuietEmpty(p, skip);
    } else {
      var n := |lead| - 1;
      assert lead == lead[..n] + [lead[n]];
      GoParts(p, lead[..n], [lead[n]], skip);
      EmptyLinesRun(p, lead[..n], skip);
      var q := Run(p, lead[..n], skip).parser;
      StatusGo(q, lead[n], skip);
      StaysThere(q.core, lead[n]);
      QuietParts(p, lead[..n], [lead[n]], skip);
    }
  }

  lemma StaysThere(c: Core, ch: byte)
    requires Inv(c) && c.state.StartRes? && (ch == CR || ch == LF)
    ensures SwitchOn(c, ch).core.state.StartRes?
  {
    hide Inv, Sound;
    StatusArm(c, ch);
    hide SwitchOn;
  }

  /* ---- A status line, and what it leaves of a new parser. ---- */

  const STATUS_200: seq<byte> := ['H', 'T', 'T', 'P', '/', '1', '.', '1', ' ', '2', '0', '0', LF]

  // A parser of responses, n bytes into its first head, with these numbers read so far.
  function Early(s: State, n: nat, major: uint16, minor: uint16, status: uint16): Parser {
    Parser(Core(Response, NO_FLAGS, s, General, 0, ULLONG_MAX, major, minor, status, DELETE, false), n, OK, 0)
  }

  lemma Onward(s: seq<byte>, p: Parser, ch: byte, q: Parser, skip: Answers)
    requires RunsTo(Initial(Response), s, skip, p, [Told(MessageBegin)]) && ParsingHeader(p.core.state)
    requires p.nread < MAX_HEADER_SIZE && q == p.(core := q.core, nread := p.nread + 1)
    requires Inv(p.core) && SwitchOn(p.core, ch) == Turn(q.core, Break)
    ensures RunsTo(Initial(Response), s + [ch], skip, q, [Told(MessageBegin)]) && Inv(q.core)
  {
    hide Run, SwitchOn, Inv;
    Silent(Initial(Response), s, p, [Told(MessageBegin)], ch, skip);
    RunsReady(Initial(Response), s + [ch], skip, q, [Told(MessageBegin)]);
  }

  function ArmTurn(c: Core, ch: byte): Turn
    requires Inv(c) && (InResVersion(c.state) || InStatus(c.state))
  {
    if InResVersion(c.state) then ResVersionTurn(c, ch) else StatusTurn(c, ch)
  }

  // A pass over the status line that goes on.
  lemma EarlyTurn(p: Parser, ch: byte)
    requires InResVersion(p.core.state) || InStatus(p.core.state)
    ensures Inv(p.core)
    ensures SwitchOn(p.core, ch) == ArmTurn(p.core, ch)
  {
    StatusArm(p.core, ch);
  }

  // So many bytes of the status line leave the parser p.
  ghost predicate Leaves(n: nat, p: Parser, skip: Answers) {
    n <= |STATUS_200| && RunsTo(Initial(Response), STATUS_200[..n], skip, p, [Told(MessageBegin)])
  }

  lemma Another(n: nat, p: Parser, q: Parser, skip: Answers)
    requires Leaves(n, p, skip) && n < |STATUS_200| && p.nread == n && q == p.(core := q.core, nread := n + 1)
    requires InResVersion(p.core.state) || InStatus(p.core.state)
    requires Inv(p.core) ==> ArmTurn(p.core, STATUS_200[n]) == Turn(q.core, Break)
    ensures Leaves(n + 1, q, skip)
  {
    hide Run, SwitchOn, Inv, ResVersionTurn, StatusTurn;
    EarlyTurn(p, STATUS_200[n]);
    Onward(STATUS_200[..n], p, STATUS_200[n], q, skip);
    assert STATUS_200[..n] + [STATUS_200[n]] == STATUS_200[..n + 1];
  }

  lemma FirstLetter(skip: Answers)
    ensures Leaves(1, Early(ResH, 1, 0, 0, 0), skip)
  {
    var p := Initial(Response);
    InitialReady(Response);
    StatusArm(p.core, 'H');
    hide SwitchOn, Run, Inv;
    OnePass(p, 'H', skip);
    assert STATUS_200[..1] == ['H'];
  }

  lemma Protocol(skip: Answers)
    requires Leaves(1, Early(ResH, 1, 0, 0, 0), skip)
    ensures Leaves(5, Early(ResFirstHttpMajor, 5, 0, 0, 0), skip)
  {
    hide Leaves, Inv;
    Another(1, Early(ResH, 1, 0, 0, 0), Early(ResHT, 2, 0, 0, 0), skip);
    Another(2, Early(ResHT, 2, 0, 0, 0), Early(ResHTT, 3, 0, 0, 0), skip);
    Another(3, Early(ResHTT, 3, 0, 0, 0), Early(ResHTTP, 4, 0, 0, 0), skip);
    Another(4, Early(ResHTTP, 4, 0, 0, 0), Early(ResFirstHttpMajor, 5, 0, 0, 0), skip);
  }

  lemma Version(skip: Answers)
    requires Leaves(5, Early(ResFirstHttpMajor, 5, 0, 0, 0), skip)
    ensures Leaves(9, Early(ResFirstStatusCode, 9, 1, 1, 0), skip)
  {
    hide Leaves, Inv;
    Another(5, Early(ResFirstHttpMajor, 5, 0, 0, 0), Early(ResHttpMajor, 6, 1, 0, 0), skip);
    Another(6, Early(ResHttpMajor, 6, 1, 0, 0), Early(ResFirstHttpMinor, 7, 1, 0, 0), skip);
    Another(7, Early(ResFirstHttpMinor, 7, 1, 0, 0), Early(ResHttpMinor, 8, 1, 1, 0), skip);
    Another(8, Early(ResHttpMinor, 8, 1, 1, 0), Early(ResFirstStatusCode, 9, 1, 1, 0), skip);
  }

  lemma Status(skip: Answers)
    requires Leaves(9, Early(ResFirstStatusCode, 9, 1, 1, 0), skip)
    ensures Leaves(13, Early(HeaderFieldStart, 13, 1, 1, 200), skip)
  {
    hide Leaves, Inv;
    Another(9, Early(ResFirstStatusCode, 9, 1, 1, 0), Early(ResStatusCode, 10, 1, 1, 2), skip);
    Another(10, Early(ResStatusCode, 10, 1, 1, 2), Early(ResStatusCode, 11, 1, 1, 20), skip);
    Another(11, Early(ResStatusCode, 11, 1, 1, 20), Early(ResStatusCode, 12, 1, 1, 200), skip);
    Another(12, Early(ResStatusCode, 12, 1, 1, 200), Early(HeaderFieldStart, 13, 1, 1, 200), skip);
  }

  // HTTP/1.1 200, ended by LF.
  lemma PlainStatus(skip: Answers)
    ensures RunsTo(Initial(Response), STATUS_200, skip, Early(HeaderFieldStart, 13, 1, 1, 200), [Told(MessageBegin)])
  {
    hide Run;
    FirstLetter(skip);
    Protocol(skip);
    Version(skip);
    Status(skip);
    assert STATUS_200[..13] == STATUS_200;
  }
}
