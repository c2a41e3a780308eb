/** Which headers are accepted, and what is reported of them: names are tokens as section 2.2 of RFC 2616 has them, and
    values are anything without a line end, a Content-Length apart (src/http_parser.c:138-177, 1174-1551). */
module HeaderSyntax {
  import opened Bytes
  import opened ParserState
  import opened Switch
  import opened Trace
  import opened Machine
  import opened Lengths
  import opened Headers
  import opened HeadEnd
  import opened HeaderBlocks

  /* ---- Tokens. ---- */

  const SEPARATORS: set<byte> :=
    {'(', ')', '<', '>', '@', ',', ';', ':', '\\', '\"', '/', '[', ']', '?', '=', '{', '}'}

  // Any character except control characters, the space and the separators.
  predicate IsToken(c: byte) { 32 < c as int < 127 && c !in SEPARATORS }

  lemma TokenTable(c: byte)
    ensures Token(c) != '\0' <==> IsToken(c)
    ensures IsToken(c) ==> Token(c) == if 'A' <= c <= 'Z' then (c as int - 'A' as int + 'a' as int) as char else c
  {
  }

  predicate IsName(s: seq<byte>) { forall i | 0 <= i < |s| :: IsToken(s[i]) }

  lemma NameTokens(s: seq<byte>)
    ensures IsName(s) <==> AllTokens(s)
  {
    hide Token, IsToken;
    forall i | 0 <= i < |s| ensures Token(s[i]) != '\0' <==> IsToken(s[i]) { TokenTable(s[i]); }
  }

  /* ---- Accepted stretches of a header. ---- */

  // All the bytes are accepted, counted once each, and reported as e.
  ghost predicate Takes(p: Parser, bytes: seq<byte>, skip: Answers, e: seq<Event>)
    requires Ready(p)
  {
    var r := Run(p, bytes, skip);
    r.verdict == Go && r.events == e && r.parser.nread == p.nread + |bytes| && r.parser.heads == p.heads
  }

  lemma TakesConcat(p: Parser, a: seq<byte>, e: seq<Event>, b: seq<byte>, f: seq<Event>, skip: Answers)
    requires Ready(p) && Takes(p, a, skip, e) && Takes(Run(p, a, skip).parser, b, skip, f)
    ensures Takes(p, a + b, skip, e + f)
    ensures Run(p, a + b, skip).parser == Run(Run(p, a, skip).parser, b, skip).parser
  {
    hide Run;
    RunConcat(p, a, b, skip);
  }

  lemma TakesNothing(p: Parser, skip: Answers)
    requires Ready(p)
    ensures Takes(p, [], skip, []) && Run(p, [], skip).parser == p
  {
    EmptyRun(p, skip);
  }

  // A byte of the header that one pass consumes.
  lemma TakesByte(p: Parser, ch: byte, skip: Answers, t: Turn)
    requires Ready(p) && ParsingHeader(p.core.state) && p.nread < MAX_HEADER_SIZE && t == SwitchOn(p.core, ch)
    requires !Repeats(t.act) && !t.act.Fail? && !t.act.Leave? && !t.resets
    ensures Takes(p, [ch], skip, Emits(t.act, ch)) && Run(p, [ch], skip).parser.core == t.core
  {
    hide Run, SwitchOn, Inv;
    OnePass(p, ch, skip);
  }

  // A byte that is refused.
  lemma RefusedByte(p: Parser, ch: byte, skip: Answers, t: Turn)
    requires Ready(p) && ParsingHeader(p.core.state) && p.nread < MAX_HEADER_SIZE && t == SwitchOn(p.core, ch)
    requires t.act.Fail?
    ensures var r := Run(p, [ch], skip);
            r.verdict == Stop && r.events == [] && r.used == 0 && r.parser.errno == t.act.error
  {
    hide Run, SwitchOn, Inv;
    OneRefusal(p, ch, skip);
  }

  /* ---- Names. ---- */

  lemma FirstNameByte(p: Parser, ch: byte, skip: Answers)
    requires Ready(p) && p.core.state.HeaderFieldStart? && Token(ch) != '\0' && p.nread < MAX_HEADER_SIZE
    ensures Takes(p, [ch], skip, [Data(Field, [ch])]) && Run(p, [ch], skip).parser.core.state.HeaderField?
  {
    hide Run, SwitchOn, Inv, Token, NameState, Takes, Tracked;
    FirstOfName(p.core, ch);
    TakesByte(p, ch, skip, SwitchOn(p.core, ch));
  }

  lemma NextNameByte(q: Parser, ch: byte, skip: Answers)
    requires Ready(q) && q.core.state.HeaderField? && Token(ch) != '\0' && q.nread < MAX_HEADER_SIZE
    ensures Takes(q, [ch], skip, [Data(Field, [ch])]) && Run(q, [ch], skip).parser.core.state.HeaderField?
  {
    hide Run, SwitchOn, Inv, Token, MatchField, Takes;
    RestOfName(q.core, ch);
    StillField(q.core, ch);
    TakesByte(q, ch, skip, SwitchOn(q.core, ch));
  }

  lemma {:induction false} NameTakes(p: Parser, name: seq<byte>, skip: Answers)
    requires Ready(p) && p.core.state.HeaderFieldStart? && name != [] && AllTokens(name)
    requires p.nread + |name| <= MAX_HEADER_SIZE
    ensures Takes(p, name, skip, Singles(Field, name)) && Run(p, name, skip).parser.core.state.HeaderField?
    decreases |name|
  {
    hide Run, SwitchOn, Inv, Token, Singles;
    var n := |name| - 1;
    var ch := name[n];
    SinglesSnoc(Field, name[..n], ch);
    assert name == name[..n] + [ch];
    if n == 0 {
      NoSingles(Field);
      assert name == [ch] && name[..0] == [] && [] + [Data(Field, [ch])] == [Data(Field, [ch])];
      FirstNameByte(p, ch, skip);
    } else {
      NameTakes(p, name[..n], skip);
      NextNameByte(Run(p, name[..n], skip).parser, ch, skip);
      TakesConcat(p, name[..n], Singles(Field, name[..n]), [ch], [Data(Field, [ch])], skip);
    }
  }

  lemma NoSingles(k: Kind)
    ensures Singles(k, []) == []
  {
  }

  lemma StillField(c: Core, ch: byte)
    requires Inv(c) && c.state.HeaderField? && Token(ch) != '\0'
    ensures MatchField(c, ch).state.HeaderField?
  {
    hide MatchField;
  }

  // What a byte that is no token does to a name.
  lemma NoTokenTurns(c: Core, ch: byte)
    requires Inv(c) && Token(ch) == '\0'
    ensures c.state.HeaderField? ==>
              SwitchOn(c, ch) == if ch == ':' then Turn(c.(state := HeaderValueStart), Flush(Field))
                                 else if ch == CR then Turn(c.(state := HeaderAlmostDone), Flush(Field))
                                 else if ch == LF then Turn(c.(state := HeaderFieldStart), Flush(Field))
                                 else Turn(c, Fail(InvalidHeaderToken))
    ensures c.state.HeaderFieldStart? && ch != LF ==>
              SwitchOn(c, ch) == if ch == CR then Turn(c.(state := HeadersAlmostDone), Break)
                                 else Turn(c, Fail(InvalidHeaderToken))
  {
    hide Sound, MatchField, Token;
  }

  // A name is refused exactly at its first byte that is no token, a colon or line end after it apart: the beginning is
  // reported, and nothing of the byte.
  lemma NameExactly(p: Parser, s: seq<byte>, ch: byte, skip: Answers)
    requires Ready(p) && p.core.state.HeaderFieldStart? && IsName(s) && p.nread + |s| < MAX_HEADER_SIZE
    requires s != [] || ch != LF
    ensures var r := Run(p, s + [ch], skip);
            && (r.verdict == Go <==> IsToken(ch) || ch == CR || (s != [] && (ch == ':' || ch == LF)))
            && (r.verdict != Go ==> r.verdict == Stop && r.parser.errno == InvalidHeaderToken && r.used == |s|
                                    && r.events == Singles(Field, s))
  {
    hide Run, SwitchOn, Inv, IsToken, IsName, AllTokens, Singles, Token;
    NameTokens(s);
    TokenTable(ch);
    Separated(ch);
    RunConcat(p, s, [ch], skip);
    NoSingles(Field);
    if s == [] { TakesNothing(p, skip); } else { NameTakes(p, s, skip); }
    var q := Run(p, s, skip).parser;
    if Token(ch) != '\0' {
      OneMoreToken(q, ch, skip);
    } else {
      NoTokenTurns(q.core, ch);
      var t := SwitchOn(q.core, ch);
      if t.act.Fail? { RefusedByte(q, ch, skip, t); } else { TakesByte(q, ch, skip, t); }
    }
    assert Singles(Field, s) + [] == Singles(Field, s);
  }

  lemma Separated(ch: byte)
    ensures IsToken(ch) ==> ch != ':' && ch != CR && ch != LF
  {
  }

  lemma OneMoreToken(q: Parser, ch: byte, skip: Answers)
    requires Ready(q) && (q.core.state.HeaderFieldStart? || q.core.state.HeaderField?) && Token(ch) != '\0'
    requires q.nread < MAX_HEADER_SIZE
    ensures Run(q, [ch], skip).verdict == Go
  {
    hide Run, Inv, Token;
    if q.core.state.HeaderFieldStart? { FirstNameByte(q, ch, skip); } else { NextNameByte(q, ch, skip); }
  }

  /* ---- Values. ---- */

  // A value of digits that a Content-Length may have: read on, it neither drops nor becomes 2^64 - 1.
  predicate IsLength(v: seq<byte>) { SpacedDigits(v) && DecClimbs(v) }

  // What follows the colon, or continues a value, is not refused as a length.
  predicate Fits(h: HeaderState, part: Part) {
    var v := SkipBlanks(part.value);
    h.ContentLength? && v != [] ==> IsLength(v)
  }

  function PartEvents(part: Part): seq<Event> { Singles(Value, SkipBlanks(part.value)) + [Data(Value, [])] }

  lemma {:induction false} BlanksTake(p: Parser, blanks: seq<byte>, skip: Answers)
    requires Ready(p) && p.core.state.HeaderValueStart? && AllBlank(blanks) && p.nread + |blanks| <= MAX_HEADER_SIZE
    ensures Takes(p, blanks, skip, []) && Run(p, blanks, skip).parser.core == p.core
    decreases |blanks|
  {
    hide SwitchOn, Run, Inv;
    if blanks == [] {
      TakesNothing(p, skip);
    } else {
      assert blanks == [blanks[0]] + blanks[1..];
      BlankByte(p.core, blanks[0]);
      TakesByte(p, blanks[0], skip, Turn(p.core, Break));
      var q := Run(p, [blanks[0]], skip).parser;
      BlanksTake(q, blanks[1..], skip);
      TakesConcat(p, [blanks[0]], [], blanks[1..], [], skip);
    }
  }

  // Only a length is ever refused.
  lemma OnlyLengths(c: Core, ch: byte)
    requires Inv(c) && ch != CR && ch != LF && !c.headerState.ContentLength?
    ensures c.state.HeaderValueStart? && ch != ' ' && ch != '\t' ==> !SwitchOn(c, ch).act.Fail?
    ensures c.state.HeaderValue? ==> !ValueTurn(c, ch).act.Fail?
  {
    hide Sound, Advance, Lower, FoldAll;
  }

  lemma FirstTakes(p: Parser, ch: byte, skip: Answers)
    requires Ready(p) && p.core.state.HeaderValueStart? && ch != ' ' && ch != '\t' && ch != CR && ch != LF
    requires p.nread < MAX_HEADER_SIZE && (p.core.headerState.ContentLength? ==> Run(p, [ch], skip).verdict == Go)
    ensures Takes(p, [ch], skip, [Data(Value, [ch])])
  {
    hide Run, SwitchOn, Inv, ValueTracked, Fold;
    var t := SwitchOn(p.core, ch);
    if !p.core.headerState.ContentLength? { OnlyLengths(p.core, ch); }
    FirstTurn(p.core, ch);
    if t.act.Fail? { RefusedByte(p, ch, skip, t); }
    FirstOfValue(p.core, ch);
    TakesByte(p, ch, skip, t);
  }

  lemma NextTakes(q: Parser, ch: byte, skip: Answers)
    requires Ready(q) && q.core.state.HeaderValue? && ch != CR && ch != LF && q.nread < MAX_HEADER_SIZE
    requires q.core.headerState.ContentLength? ==> Run(q, [ch], skip).verdict == Go
    ensures Takes(q, [ch], skip, [Data(Value, [ch])])
  {
    hide Run, SwitchOn, Inv, ValueTurn;
    if !q.core.headerState.ContentLength? { OnlyLengths(q.core, ch); }
    RestOfValue(q.core, ch);
    var t := SwitchOn(q.core, ch);
    if t.act.Fail? { RefusedByte(q, ch, skip, t); }
    TakesByte(q, ch, skip, t);
  }

  // A value is accepted, unless it is refused as a length.
  lemma {:induction false} ValueTakes(p: Parser, v: seq<byte>, skip: Answers)
    requires Ready(p) && p.core.state.HeaderValueStart? && v != [] && NoLineEnd(v) && v[0] != ' ' && v[0] != '\t'
    requires p.nread + |v| <= MAX_HEADER_SIZE && (p.core.headerState.ContentLength? ==> Run(p, v, skip).verdict == Go)
    ensures Takes(p, v, skip, Singles(Value, v))
    decreases |v|
  {
    hide Run, SwitchOn, Inv, Singles, ValueTracked, FoldAll;
    var n, h := |v| - 1, p.core.headerState;
    var ch := v[n];
    assert v == v[..n] + [ch];
    SinglesSnoc(Value, v[..n], ch);
    if n == 0 {
      NoSingles(Value);
      assert v == [ch] && v[..0] == [] && [] + [Data(Value, [ch])] == [Data(Value, [ch])];
      FirstTakes(p, ch, skip);
    } else {
      if h.ContentLength? { GoParts(p, v[..n], [ch], skip); }
      ValueTakes(p, v[..n], skip);
      var q := Run(p, v[..n], skip).parser;
      ValueRun(p, v[..n], skip);
      InValue(q.core, h, FoldAll(v[..n]));
      NextTakes(q, ch, skip);
      TakesConcat(p, v[..n], Singles(Value, v[..n]), [ch], [Data(Value, [ch])], skip);
    }
  }

  lemma InValue(c: Core, h: HeaderState, low: seq<byte>)
    requires ValueTracked(c, h, low)
    ensures c.headerState.ContentLength? <==> h.ContentLength?
  {
    hide Spaced;
  }

  // A length, from its first character that is not a blank: exactly a number that climbs is accepted.
  lemma LengthExactly(p: Parser, v: seq<byte>, skip: Answers)
    requires Ready(p) && p.core.state.HeaderValueStart? && p.core.headerState.ContentLength? && v != [] && NoLineEnd(v)
    requires v[0] != ' ' && v[0] != '\t' && p.nread + |v| <= MAX_HEADER_SIZE
    ensures Run(p, v, skip).verdict == Go <==> IsLength(v)
  {
    hide Run, SwitchOn, Inv, DecClimbs, DecValue, Reflects;
    if Run(p, v, skip).verdict == Go { LengthRun(p, v, skip); }
    if SpacedDigits(v) { DecRun(p, v, skip); }
  }

  // The value of a line, blanks and all.
  lemma ValueExactly(p: Parser, part: Part, skip: Answers)
    requires Ready(p) && p.core.state.HeaderValueStart? && NoLineEnd(part.value)
    requires p.nread + |part.value| <= MAX_HEADER_SIZE
    ensures Run(p, part.value, skip).verdict == Go <==> Fits(p.core.headerState, part)
    ensures Fits(p.core.headerState, part) ==> Takes(p, part.value, skip, Singles(Value, SkipBlanks(part.value)))
  {
    hide Run, SwitchOn, Inv, Singles, IsLength, SkipBlanks;
    var v := SkipBlanks(part.value);
    SkipBlanksSplits(part.value);
    var blanks := part.value[..|part.value| - |v|];
    assert part.value == blanks + v;
    BlanksTake(p, blanks, skip);
    var q := Run(p, blanks, skip).parser;
    RunConcat(p, blanks, v, skip);
    if v == [] {
      NoSingles(Value);
      EmptyRun(q, skip);
      assert blanks + [] == blanks;
    } else {
      forall i | 0 <= i < |v| ensures v[i] != CR && v[i] != LF { assert v[i] == part.value[|blanks| + i]; }
      if q.core.headerState.ContentLength? { LengthExactly(q, v, skip); }
      if Fits(q.core.headerState, part) {
        ValueTakes(q, v, skip);
        TakesConcat(p, blanks, [], v, Singles(Value, v), skip);
        assert [] + Singles(Value, v) == Singles(Value, v);
      }
    }
  }

  /* ---- The ends of lines. ---- */

  // What the end of a line reports: the end of the name or the value it ends.
  function EolEvents(s: State): seq<Event> { [Data(if s.HeaderField? then Field else Value, [])] }

  lemma EolTurns(c: Core)
    requires Inv(c) && (c.state.HeaderField? || c.state.HeaderValue? || c.state.HeaderValueStart?)
    ensures var t := SwitchOn(c, CR);
            && (t.act.Flush? || t.act.MarkFlush?) && !t.act.kind.Body? && !t.resets && t.core.state.HeaderAlmostDone?
            && Emits(t.act, CR) == EolEvents(c.state)
    ensures var t := SwitchOn(c, LF);
            && !t.resets && Emits(t.act, LF) == EolEvents(c.state)
            && (if c.state.HeaderValue? then t.act == FlushAgain(Value) && t.core.state.HeaderAlmostDone?
                else t.act.Flush? || t.act.MarkFlush?)
  {
    LineFeedTurns(c);
    PartEnds(c);
    hide SwitchOn, Inv, GainedFlags;
  }

  lemma AlmostDoneTurn(c: Core)
    requires Inv(c) && c.state.HeaderAlmostDone?
    ensures var t := SwitchOn(c, LF); t.act.Break? && !t.resets
  {
    hide Sound;
  }

  lemma EolTakes(p: Parser, crlf: bool, skip: Answers)
    requires Ready(p) && (p.core.state.HeaderField? || p.core.state.HeaderValue? || p.core.state.HeaderValueStart?)
    requires p.nread + |Eol(crlf)| <= MAX_HEADER_SIZE
    ensures Takes(p, Eol(crlf), skip, EolEvents(p.core.state))
  {
    hide Run, SwitchOn, Inv, EolEvents;
    EolTurns(p.core);
    var e := EolEvents(p.core.state);
    if crlf {
      TakesByte(p, CR, skip, SwitchOn(p.core, CR));
      var q := Run(p, [CR], skip).parser;
      AlmostDoneTurn(q.core);
      TakesByte(q, LF, skip, SwitchOn(q.core, LF));
      TakesConcat(p, [CR], e, [LF], [], skip);
      assert e + [] == e;
    } else if p.core.state.HeaderValue? {
      LfInValue(p, skip);
    } else {
      TakesByte(p, LF, skip, SwitchOn(p.core, LF));
    }
  }

  lemma LfInValue(p: Parser, skip: Answers)
    requires Ready(p) && p.core.state.HeaderValue? && p.nread < MAX_HEADER_SIZE
    ensures Takes(p, [LF], skip, EolEvents(p.core.state))
  {
    hide Run, RunMid, SwitchOn, Inv;
    EolTurns(p.core);
    var t := SwitchOn(p.core, LF);
    Counted(p, [LF], skip);
    PassOn(Enter(p), [LF], skip, t);
    AlmostDoneTurn(t.core);
    PassEnds(After(Enter(p), t, skip), LF, skip, SwitchOn(t.core, LF));
  }

  /* ---- Lines. ---- */

  // One line of a value.
  lemma PartExactly(p: Parser, part: Part, skip: Answers)
    requires Ready(p) && p.core.state.HeaderValueStart? && NoLineEnd(part.value)
    requires p.nread + |Text(part)| <= MAX_HEADER_SIZE
    ensures Run(p, Text(part), skip).verdict == Go <==> Fits(p.core.headerState, part)
    ensures Fits(p.core.headerState, part) ==> Takes(p, Text(part), skip, PartEvents(part))
  {
    hide Run, SwitchOn, Inv, Singles, Fits, SkipBlanks, ValueState, FoldAll;
    ValueExactly(p, part, skip);
    RunConcat(p, part.value, Eol(part.crlf), skip);
    if Fits(p.core.headerState, part) {
      ValuePart(p, part.value, skip);
      var q := Run(p, part.value, skip).parser;
      EolTakes(q, part.crlf, skip);
      TakesConcat(p, part.value, Singles(Value, SkipBlanks(part.value)), Eol(part.crlf), [Data(Value, [])], skip);
    }
  }

  // A line that continues a value.
  lemma MoreExactly(p: Parser, part: Part, skip: Answers)
    requires Ready(p) && p.core.state.HeaderValueLws? && NoLineEnd(part.value) && Folded(part)
    requires p.nread + |Text(part)| <= MAX_HEADER_SIZE
    ensures Run(p, Text(part), skip).verdict == Go <==> Fits(p.core.headerState, part)
    ensures Fits(p.core.headerState, part) ==> Takes(p, Text(part), skip, PartEvents(part))
  {
    hide Run, SwitchOn, Inv, Singles, IsLength;
    var blank, rest := part.value[0], Part(part.value[1..], part.crlf);
    assert Text(part) == [blank] + Text(rest);
    RunConcat(p, [blank], Text(rest), skip);
    LwsBlank(p.core, blank);
    TakesByte(p, blank, skip, SwitchOn(p.core, blank));
    var q := Run(p, [blank], skip).parser;
    PartExactly(q, rest, skip);
    assert SkipBlanks(part.value) == SkipBlanks(rest.value);
    if Fits(p.core.headerState, part) {
      TakesConcat(p, [blank], [], Text(rest), PartEvents(rest), skip);
      assert [] + PartEvents(rest) == PartEvents(rest);
    }
  }

  function PartsEvents(parts: seq<Part>): seq<Event> {
    if parts == [] then [] else PartEvents(parts[0]) + PartsEvents(parts[1..])
  }

  // No blank line ended by LF alone stands before another: it ends the header.
  predicate Unbroken(parts: seq<Part>) {
    |parts| > 1 ==> (SkipBlanks(parts[0].value) == [] ==> parts[0].crlf) && Unbroken(parts[1..])
  }

  // The lines of a Content-Length, up to a blank one, are lengths.
  predicate Lengthy(parts: seq<Part>) {
    parts != [] ==> SkipBlanks(parts[0].value) != [] ==> IsLength(SkipBlanks(parts[0].value)) && Lengthy(parts[1..])
  }

  // Lines that continue a value of a header recognised as h.
  predicate Continued(atStart: bool, h: HeaderState, parts: seq<Part>) {
    (atStart ==> parts == []) && Unbroken(parts) && (h.ContentLength? ==> Lengthy(parts))
  }

  lemma ContinuedFirst(c: Core, parts: seq<Part>, d: Core)
    requires parts != [] && AfterPart(c, parts[0], d)
    ensures Continued(false, c.headerState, parts) <==>
            && Fits(c.headerState, parts[0]) && Continued(d.state.HeaderFieldStart?, d.headerState, parts[1..])
  {
    Settles(c, parts[0], d);
    BlankLine(c, parts[0], d);
    hide AfterPart, SkipBlanks, IsLength;
  }

  // What a line leaves, as far as later lines go.
  lemma BlankLine(c: Core, part: Part, d: Core)
    requires AfterPart(c, part, d)
    ensures d.state.HeaderFieldStart? <==> SkipBlanks(part.value) == [] && !part.crlf
    ensures SkipBlanks(part.value) == [] && part.crlf ==> !d.headerState.ContentLength?
  {
    hide SkipBlanks, FoldAll, ValueState, GainedFlags, DecValue;
  }

  lemma {:induction false} LinesExactly(p: Parser, parts: seq<Part>, skip: Answers)
    requires Ready(p) && AtLineStart(p.core.state) && Values(parts) && FoldedAll(parts)
    requires p.nread + |Texts(parts)| <= MAX_HEADER_SIZE
    ensures var fine := Continued(p.core.state.HeaderFieldStart?, p.core.headerState, parts);
            && (Run(p, Texts(parts), skip).verdict == Go <==> fine)
            && (fine ==> Takes(p, Texts(parts), skip, PartsEvents(parts)))
    decreases |parts|
  {
    hide Run, SwitchOn, Inv, Fits, AfterPart, PartEvents, NoLineEnd, Folded, Unbroken, Lengthy;
    if parts == [] {
      TakesNothing(p, skip);
      NothingContinues(p.core.state.HeaderFieldStart?, p.core.headerState);
    } else {
      var part, rest := parts[0], parts[1..];
      RunConcat(p, Text(part), Texts(rest), skip);
      if p.core.state.HeaderFieldStart? {
        if Run(p, Texts(parts), skip).verdict == Go { OnlyAfterLws(p, part, Texts(rest), skip); }
      } else {
        MoreExactly(p, part, skip);
        if Fits(p.core.headerState, part) {
          MorePart(p, part, skip);
          var q := Run(p, Text(part), skip).parser;
          AfterLine(p.core, part, q.core);
          LinesExactly(q, rest, skip);
          ContinuedFirst(p.core, parts, q.core);
          if Continued(q.core.state.HeaderFieldStart?, q.core.headerState, rest) {
            TakesConcat(p, Text(part), PartEvents(part), Texts(rest), PartsEvents(rest), skip);
          }
        } else {
          NoContinuing(p.core.headerState, parts);
        }
      }
    }
  }

  lemma AfterLine(c: Core, part: Part, d: Core)
    requires AfterPart(c, part, d)
    ensures AtLineStart(d.state)
  {
    hide SkipBlanks, FoldAll, ValueState, GainedFlags, DecValue;
  }

  lemma NothingContinues(atStart: bool, h: HeaderState)
    ensures Continued(atStart, h, []) && PartsEvents([]) == []
  {
  }

  lemma NoContinuing(h: HeaderState, parts: seq<Part>)
    requires parts != [] && !Fits(h, parts[0])
    ensures !Continued(false, h, parts)
  {
    hide SkipBlanks, IsLength;
  }

  /* ---- Headers. ---- */

  function HeaderEvents(h: Header): seq<Event> {
    Singles(Field, h.name) + [Data(Field, [])] + PartsEvents(h.parts)
  }

  // What is refused in a header with a proper name: a Content-Length that is none, and a line that should continue the
  // value but begins a header.
  predicate Accepted(h: Header) {
    && (!h.colon && !h.crlf ==> h.parts == []) && Unbroken(h.parts)
    && (SameName(h.name, CONTENT_LENGTH) ==> Lengthy(h.parts))
  }

  lemma StartTakes(p: Parser, h: Header, skip: Answers)
    requires Ready(p) && p.core.state.HeaderFieldStart? && h.name != [] && AllTokens(h.name)
    requires p.nread + |h.name + (if h.colon then [':'] else Eol(h.crlf))| <= MAX_HEADER_SIZE
    ensures Takes(p, h.name + (if h.colon then [':'] else Eol(h.crlf)), skip,
                  Singles(Field, h.name) + [Data(Field, [])])
  {
    hide Run, SwitchOn, Inv, Singles, AllTokens, Token;
    NameTakes(p, h.name, skip);
    var q := Run(p, h.name, skip).parser;
    if h.colon {
      PartEnds(q.core);
      TakesByte(q, ':', skip, SwitchOn(q.core, ':'));
      TakesConcat(p, h.name, Singles(Field, h.name), [':'], [Data(Field, [])], skip);
    } else {
      EolTakes(q, h.crlf, skip);
      TakesConcat(p, h.name, Singles(Field, h.name), Eol(h.crlf), [Data(Field, [])], skip);
    }
  }

  lemma ValueLinesExactly(p: Parser, h: Header, skip: Answers)
    requires Ready(p) && Proper(h) && p.core.headerState == NameState(FoldAll(h.name))
    requires p.core.state == if h.colon then HeaderValueStart else if h.crlf then HeaderValueLws else HeaderFieldStart
    requires p.nread + |Texts(h.parts)| <= MAX_HEADER_SIZE
    ensures Run(p, Texts(h.parts), skip).verdict == Go <==> Accepted(h)
    ensures Accepted(h) ==> Takes(p, Texts(h.parts), skip, PartsEvents(h.parts))
  {
    hide Run, SwitchOn, Inv, Fits, AfterPart, PartEvents, NoLineEnd, Folded, Unbroken, Lengthy, NameState, FoldAll;
    NameMeaning(h.name);
    if h.colon {
      var part, rest := h.parts[0], h.parts[1..];
      RunConcat(p, Text(part), Texts(rest), skip);
      PartExactly(p, part, skip);
      if Fits(p.core.headerState, part) {
        PartRun(p, part, skip);
        var q := Run(p, Text(part), skip).parser;
        AfterLine(p.core, part, q.core);
        LinesExactly(q, rest, skip);
        ContinuedFirst(p.core, h.parts, q.core);
        if Continued(q.core.state.HeaderFieldStart?, q.core.headerState, rest) {
          TakesConcat(p, Text(part), PartEvents(part), Texts(rest), PartsEvents(rest), skip);
        }
      } else {
        NoContinuing(p.core.headerState, h.parts);
      }
    } else {
      LinesExactly(p, h.parts, skip);
      Broken(p.core.state.HeaderFieldStart?, p.core.headerState, h.parts);
    }
  }

  lemma Broken(atStart: bool, h: HeaderState, parts: seq<Part>)
    ensures Continued(atStart, h, parts) <==>
            (atStart ==> parts == []) && Unbroken(parts) && (h.ContentLength? ==> Lengthy(parts))
  {
    hide Unbroken, Lengthy;
  }

  // A header with a proper name and proper lines is accepted exactly in that case, and reported as its name and the
  // lines of its value, their leading blanks dropped.
  lemma HeaderExactly(p: Parser, h: Header, skip: Answers)
    requires Ready(p) && p.core.state.HeaderFieldStart? && Proper(h) && p.nread + |HeaderText(h)| <= MAX_HEADER_SIZE
    ensures Run(p, HeaderText(h), skip).verdict == Go <==> Accepted(h)
    ensures Accepted(h) ==> Takes(p, HeaderText(h), skip, HeaderEvents(h))
  {
    hide Run, SwitchOn, Inv, Singles, AllTokens, FoldAll, NameState, Values, FoldedAll, Accepted;
    var start, e := h.name + (if h.colon then [':'] else Eol(h.crlf)), Singles(Field, h.name) + [Data(Field, [])];
    RunConcat(p, start, Texts(h.parts), skip);
    StartTakes(p, h, skip);
    NameOrLine(p, h, skip);
    ValueLinesExactly(Run(p, start, skip).parser, h, skip);
    if Accepted(h) { TakesConcat(p, start, e, Texts(h.parts), PartsEvents(h.parts), skip); }
  }

  // A header on one line: any name of tokens and any value without a line end are accepted, but for a Content-Length
  // whose value is not empty and no length.
  lemma PlainHeader(p: Parser, name: seq<byte>, value: seq<byte>, skip: Answers)
    requires Ready(p) && p.core.state.HeaderFieldStart? && name != [] && IsName(name) && NoLineEnd(value)
    requires p.nread + |name| + |value| + 3 <= MAX_HEADER_SIZE
    ensures var r, v := Run(p, name + [':'] + value + [CR, LF], skip), SkipBlanks(value);
            && (r.verdict == Go <==> (SameName(name, "content-length") && v != [] ==> IsLength(v)))
            && (r.verdict == Go ==>
                  r.events == Singles(Field, name) + [Data(Field, [])] + (Singles(Value, v) + [Data(Value, [])]))
  {
    var part := Part(value, true);
    var h := Header(name, true, false, [part]);
    NameTokens(name);
    assert h.parts[1..] == [];
    assert Texts(h.parts) == Text(part) by { assert Texts([]) == [] && Text(part) + [] == Text(part); }
    assert HeaderText(h) == name + [':'] + value + [CR, LF];
    assert PartsEvents(h.parts) == PartEvents(part) by {
      assert PartsEvents([]) == [] && PartEvents(part) + [] == PartEvents(part);
    }
    assert Unbroken(h.parts) && (Lengthy(h.parts) <==> (SkipBlanks(value) != [] ==> IsLength(SkipBlanks(value)))) by {
      assert Lengthy([]);
    }
    hide Run, Inv, AllTokens, IsName, NoLineEnd, SkipBlanks, IsLength, FoldAll, Singles, Texts, Unbroken, Lengthy;
    assert Proper(h);
    hide Proper, HeaderText, PartsEvents;
    HeaderExactly(p, h, skip);
  }

  /* ---- Blocks. ---- */

  predicate AllAccepted(hs: seq<Header>) { forall i | 0 <= i < |hs| :: Accepted(hs[i]) }

  function BlockEvents(hs: seq<Header>): seq<Event> {
    if hs == [] then [] else BlockEvents(hs[..|hs| - 1]) + HeaderEvents(hs[|hs| - 1])
  }

  // The next line does not care how the one before it ended.
  lemma SameNewLine(p: Parser, bytes: seq<byte>, skip: Answers)
    requires Ready(p) && AtLineStart(p.core.state) && bytes != [] && bytes[0] != ' ' && bytes[0] != '\t'
    requires p.nread < MAX_HEADER_SIZE
    ensures Ready(Fielded(p)) && Run(p, bytes, skip) == Run(Fielded(p), bytes, skip)
  {
    hide Run, RunMid, SwitchOn;
    if p.core.state.HeaderValueLws? {
      LwsTurns(p.core, bytes[0]);
      Counted(p, bytes, skip);
      Counted(Fielded(p), bytes, skip);
      var t := Turn(p.core.(state := HeaderFieldStart), Again);
      PassOn(Enter(p), bytes, skip, t);
      hide Ready, Mid, Inv;
      var s := RunMid(Enter(Fielded(p)), bytes, skip);
      assert After(Enter(p), t, skip) == Enter(Fielded(p));
      assert [] + s.events == s.events;
    }
  }

  // A block of headers is accepted exactly if all of them are, and reported header by header.
  lemma {:induction false} BlockExactly(p: Parser, hs: seq<Header>, skip: Answers)
    requires Ready(p) && p.core.state.HeaderFieldStart? && AllProper(hs) && p.nread + |Block(hs)| <= MAX_HEADER_SIZE
    ensures Run(p, Block(hs), skip).verdict == Go <==> AllAccepted(hs)
    ensures AllAccepted(hs) ==> Takes(p, Block(hs), skip, BlockEvents(hs))
    decreases |hs|
  {
    hide Run, SwitchOn, Inv, Proper, Accepted, HeaderEvents, HeaderText, AllGained, LengthGiven;
    if hs == [] {
      TakesNothing(p, skip);
    } else {
      var n := |hs| - 1;
      var h, some := hs[n], hs[..n];
      RunConcat(p, Block(some), HeaderText(h), skip);
      BlockExactly(p, some, skip);
      if AllAccepted(some) {
        BlockRun(p, some, skip);
        var q := Run(p, Block(some), skip).parser;
        HeaderStarts(h);
        SameNewLine(q, HeaderText(h), skip);
        HeaderExactly(Fielded(q), h, skip);
        if Accepted(h) {
          FieldedTakes(q, HeaderText(h), HeaderEvents(h), skip);
          TakesConcat(p, Block(some), BlockEvents(some), HeaderText(h), HeaderEvents(h), skip);
        }
      }
    }
  }

  lemma FieldedTakes(q: Parser, bytes: seq<byte>, e: seq<Event>, skip: Answers)
    requires Ready(q) && Ready(Fielded(q)) && Run(q, bytes, skip) == Run(Fielded(q), bytes, skip)
    requires Takes(Fielded(q), bytes, skip, e)
    ensures Takes(q, bytes, skip, e)
  {
    hide Run;
  }

  /* ---- The empty line. ---- */

  // Accepted headers, up to the line feed of the empty line: what the fields are there.
  lemma BeforeLfTakes(p: Parser, hs: seq<Header>, crlf: bool, skip: Answers) returns (q: Parser)
    requires Ready(p) && p.core.state.HeaderFieldStart? && AllProper(hs) && AllAccepted(hs)
    requires p.nread + |FullHead(hs, crlf)| <= MAX_HEADER_SIZE
    ensures Takes(p, BeforeLf(hs, crlf), skip, BlockEvents(hs)) && q == Run(p, BeforeLf(hs, crlf), skip).parser
    ensures Ready(q) && q.nread < MAX_HEADER_SIZE && OnEmptyLine(q.core.state) && q.heads == p.heads
    ensures q.core == p.core.(index := q.core.index, state := q.core.state, headerState := q.core.headerState,
                              flags := AllGained(p.core.flags, hs),
                              contentLength := LengthGiven(p.core.contentLength, hs))
  {
    hide Run, SwitchOn, Inv, Block, AllGained, LengthGiven, BlockEvents, AllProper, AllAccepted;
    BlockExactly(p, hs, skip);
    BlockRun(p, hs, skip);
    q := Run(p, Block(hs), skip).parser;
    if crlf {
      SameNewLine(q, [CR], skip);
      CrTurn(Fielded(q).core);
      TakesByte(Fielded(q), CR, skip, SwitchOn(Fielded(q).core, CR));
      FieldedTakes(q, [CR], [], skip);
      TakesConcat(p, Block(hs), BlockEvents(hs), [CR], [], skip);
      assert BlockEvents(hs) + [] == BlockEvents(hs);
      q := Run(q, [CR], skip).parser;
    }
  }

  // The line feed of the empty line after a trailer completes the message.
  lemma TrailerLf(p: Parser, skip: Answers)
    requires Ready(p) && OnEmptyLine(p.core.state) && p.core.flags.trailing && p.nread < MAX_HEADER_SIZE
    ensures RunsTo(p, [LF], skip, p.(core := p.core.(state := NewMessage(p.core)), nread := p.nread + 1),
                   [Told(MessageComplete)])
  {
    hide Run, RunMid, SwitchOn, Inv;
    Counted(p, [LF], skip);
    TrailerMid(Enter(p), skip);
  }

  lemma {:induction false} TrailerMid(p: Parser, skip: Answers)
    requires Mid(p) && OnEmptyLine(p.core.state) && p.core.flags.trailing
    ensures RunMid(p, [LF], skip)
            == Result(p.(core := p.core.(state := NewMessage(p.core))), [Told(MessageComplete)], 1, Go)
    decreases Rank(p.core.state)
  {
    hide Run, RunMid, SwitchOn, Inv, NewMessage;
    TrailerTurns(p.core);
    var t := SwitchOn(p.core, LF);
    if t.act.Again? {
      PassOn(p, [LF], skip, t);
      TrailerMid(After(p, t, skip), skip);
      assert [] + [Told(MessageComplete)] == [Told(MessageComplete)];
      StateApart(p.core, t.core.state);
    } else {
      PassEnds(p, LF, skip, t);
    }
  }

  // The state does not matter to the one that follows the message.
  lemma StateApart(c: Core, s: State)
    ensures NewMessage(c.(state := s)) == NewMessage(c)
  {
  }

  lemma TrailerTurns(c: Core)
    requires Inv(c) && OnEmptyLine(c.state) && c.flags.trailing
    ensures c.state.HeaderValueLws? ==> SwitchOn(c, LF) == Turn(c.(state := HeaderFieldStart), Again)
    ensures c.state.HeaderFieldStart? ==> SwitchOn(c, LF) == Turn(c.(state := HeadersAlmostDone), Again)
    ensures c.state.HeadersAlmostDone? ==>
              SwitchOn(c, LF) == Turn(c.(state := NewMessage(c)), Notify(MessageComplete))
  {
    hide Sound, Token;
  }

  /* ---- What a CR leads to. ---- */

  // A line, a chunk's size or data, or the empty line has come to its CR.
  predicate AwaitsLf(s: State) {
    || s.ResLineAlmostDone? || s.ReqLineAlmostDone? || s.HeaderAlmostDone? || s.HeadersAlmostDone? || s.HeadersDone?
    || s.ChunkSizeAlmostDone? || s.ChunkDataDone?
  }

  // Nothing but LF is accepted there, and nothing but CR after the data of a chunk.
  lemma OnlyLf(c: Core, ch: byte)
    requires Inv(c)
    ensures AwaitsLf(c.state) ==> (SwitchOn(c, ch).act.Fail? <==> ch != LF)
    ensures c.state.ChunkDataAlmostDone? ==> (SwitchOn(c, ch).act.Fail? <==> ch != CR)
  {
    hide Sound, NewMessage, NeedsEof;
  }
}
