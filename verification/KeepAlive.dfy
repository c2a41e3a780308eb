/** Keep-alive: what http_should_keep_alive answers when the headers are complete, and when the message is
    (src/http_parser.c:386-394, 1553-1690, 1848-1888). */
module KeepAlive {
  import opened Bytes
  import opened ParserState
  import opened Switch
  import opened Trace
  import opened Machine
  import opened HeadEnd
  import opened StatusLine

  predicate InTrailer(s: State) {
    s.HeaderFieldStart? || s.HeaderField? || s.HeaderValueStart? || s.HeaderValue? || s.HeaderValueLws?
    || s.HeaderAlmostDone?
    || s.HeadersAlmostDone?
  }

  // c is a moment between on_headers_complete, when the fields were c0, and on_message_complete.
  ghost predicate Phase(c0: Core, c: Core) {
    && Inv(c) && c.kind == c0.kind && c.major == c0.major && c.minor == c0.minor && c.statusCode == c0.statusCode
    && c.flags.skipBody == c0.flags.skipBody
    && (if c.state.HeadersDone? then c == c0
        else if c.state.BodyIdentity? || c.state.MessageDone? || c.state.BodyIdentityEof? then
          c.flags == c0.flags && (c.contentLength == ULLONG_MAX <==> c0.contentLength == ULLONG_MAX)
        else (InChunk(c.state) || (InTrailer(c.state) && c.flags.trailing)) && c.flags.chunked && c0.flags.chunked)
  }

  // Whether the end of the stream is needed does not change in between.
  lemma PhaseNeedsEof(c0: Core, c: Core)
    requires Phase(c0, c)
    ensures NeedsEof(c) == NeedsEof(c0) && c.kind == c0.kind && c.major == c0.major && c.minor == c0.minor
    ensures c.flags.close == c0.flags.close && c.flags.keepAlive == c0.flags.keepAlive ==>
              ShouldKeepAlive(c) == ShouldKeepAlive(c0)
  {
  }

  // A pass in between either fails, stays in between without completing a message, or completes it from the fields c.
  ghost predicate PhaseKept(c0: Core, c: Core, t: Turn) {
    || t.act.Fail?
    || ((t.act == Notify(MessageComplete) || t.act.Leave?) && t.core == c.(state := NewMessage(c)))
    || (Phase(c0, t.core) && !t.act.Notify? && !t.act.Leave? && !t.act.Head?)
  }

  lemma BodyPhase(c0: Core, c: Core, ch: byte)
    requires Phase(c0, c) && (c.state.HeadersDone? || c.state.BodyIdentity? || c.state.BodyIdentityEof?
                              || c.state.MessageDone?)
    ensures PhaseKept(c0, c, SwitchOn(c, ch))
  {
    hide Sound, MovesMarks, ShouldKeepAlive, NewMessage;
  }

  lemma ChunkHeadPhase(c0: Core, c: Core, ch: byte)
    requires Phase(c0, c) && InChunkHead(c.state)
    ensures PhaseKept(c0, c, SwitchOn(c, ch))
  {
    hide Inv, MovesMarks, ShouldKeepAlive, NewMessage, Accumulate, LengthRefused, Unhex;
  }

  lemma ChunkDataPhase(c0: Core, c: Core, ch: byte)
    requires Phase(c0, c) && InChunk(c.state) && !InChunkHead(c.state)
    ensures PhaseKept(c0, c, SwitchOn(c, ch))
  {
    hide MovesMarks, ShouldKeepAlive, NewMessage, Accumulate, LengthRefused, Unhex;
  }

  lemma FieldPhase(c0: Core, c: Core, ch: byte)
    requires Phase(c0, c) && InTrailer(c.state)
    requires c.state.HeaderFieldStart? || c.state.HeaderField? || c.state.HeadersAlmostDone?
    ensures PhaseKept(c0, c, SwitchOn(c, ch))
  {
    hide Inv, MovesMarks, ShouldKeepAlive, NewMessage, Token, FirstOfField;
  }

  lemma LinePhase(c0: Core, c: Core, ch: byte)
    requires Phase(c0, c) && InTrailer(c.state) && (c.state.HeaderValueLws? || c.state.HeaderAlmostDone?)
    ensures PhaseKept(c0, c, SwitchOn(c, ch))
  {
    hide Inv, MovesMarks, ShouldKeepAlive, NewMessage;
  }

  lemma ValuePhase(c0: Core, c: Core, ch: byte)
    requires Phase(c0, c) && InTrailer(c.state) && (c.state.HeaderValueStart? || c.state.HeaderValue?)
    ensures PhaseKept(c0, c, SwitchOn(c, ch))
  {
    InTheValue(c, ch);
    hide SwitchOn, Inv, ShouldKeepAlive, NewMessage;
  }

  // What a pass over a value may do to the fields.
  ghost predicate InValueStill(c: Core, t: Turn) {
    || t.act.Fail?
    || (&& InTrailer(t.core.state) && !t.act.Notify? && !t.act.Leave? && !t.act.Head?
        && t.core == c.(state := t.core.state, headerState := t.core.headerState, index := t.core.index,
                        contentLength := t.core.contentLength, flags := c.flags.(upgrade := t.core.flags.upgrade)))
  }

  lemma InTheValue(c: Core, ch: byte)
    requires Inv(c) && (c.state.HeaderValueStart? || c.state.HeaderValue?)
    ensures var t := SwitchOn(c, ch); InValueStill(c, t) && (t.act.Fail? || Inv(t.core))
  {
    assert SwitchOn(c, ch) == if c.state.HeaderValueStart? then ValueStartTurn(c, ch) else ValueTurn(c, ch) by {
      hide ValueStartTurn, ValueTurn, Inv;
    }
    hide SwitchOn, Inv, MovesMarks, ValueStartTurn, ValueTurn, InValueStill;
    if c.state.HeaderValueStart? { StartStill(c, ch); } else { ValueStill(c, ch); }
  }

  lemma StartStill(c: Core, ch: byte)
    requires Inv(c) && c.state.HeaderValueStart?
    ensures InValueStill(c, ValueStartTurn(c, ch))
  {
    hide Lower, Sound;
  }

  lemma ValueStill(c: Core, ch: byte)
    requires Inv(c) && c.state.HeaderValue?
    ensures InValueStill(c, ValueTurn(c, ch))
  {
    hide Lower, Sound, Accumulate, LengthRefused, Advance;
  }

  lemma PhaseTurn(c0: Core, c: Core, ch: byte)
    requires Phase(c0, c)
    ensures PhaseKept(c0, c, SwitchOn(c, ch))
  {
    hide Inv, SwitchOn, PhaseKept;
    if InChunkHead(c.state) { ChunkHeadPhase(c0, c, ch); }
    else if InChunk(c.state) { ChunkDataPhase(c0, c, ch); }
    else if c.state.HeaderFieldStart? || c.state.HeaderField? || c.state.HeadersAlmostDone? { FieldPhase(c0, c, ch); }
    else if c.state.HeaderValueLws? || c.state.HeaderAlmostDone? { LinePhase(c0, c, ch); }
    else if InTrailer(c.state) { ValuePhase(c0, c, ch); }
    else { BodyPhase(c0, c, ch); }
  }

  // What a completed message leaves, when the headers were complete with the fields c0.
  ghost predicate Completes(c0: Core, c: Core) {
    && NeedsEof(c) == NeedsEof(c0) && c.kind == c0.kind && c.major == c0.major && c.minor == c0.minor
    && c.state == NewMessage(c)
    && (c.flags.close == c0.flags.close && c.flags.keepAlive == c0.flags.keepAlive ==>
        ShouldKeepAlive(c) == ShouldKeepAlive(c0))
  }

  lemma {:induction false} FinishPhase(c0: Core, p: Parser, ch: byte, skip: Answers)
    requires Mid(p) && Phase(c0, p.core)
    ensures var o := Finish(p, ch, skip);
            if Told(MessageComplete) in o.events then o.verdict != Stop ==> Completes(c0, o.parser.core)
            else o.verdict == Stop || (o.verdict == Go && Phase(c0, o.parser.core))
    decreases Rank(p.core.state)
  {
    hide SwitchOn, Inv, Phase;
    PhaseTurn(c0, p.core, ch);
    PhaseNeedsEof(c0, p.core);
    var t := SwitchOn(p.core, ch);
    if Repeats(t.act) {
      FinishPhase(c0, After(p, t, skip), ch, skip);
    }
  }

  // The first byte completes the message from the fields c0, or leaves it in between.
  ghost predicate Proceeds(c0: Core, o: Outcome) {
    if Told(MessageComplete) in o.events then o.verdict != Stop ==> Completes(c0, o.parser.core)
    else o.verdict == Stop || (o.verdict == Go && Ready(o.parser) && Phase(c0, o.parser.core))
  }

  // From the end of the headers, when the fields were c0, to the end of the message.
  lemma {:induction false} KeepAliveOnce(c0: Core, p: Parser, bytes: seq<byte>, skip: Answers)
    requires Ready(p) && bytes != [] && Proceeds(c0, Byte(p, bytes[0], skip))
    requires Told(MessageComplete) !in Run(p, bytes[..|bytes| - 1], skip).events
    requires var r := Run(p, bytes, skip); r.verdict != Stop && Told(MessageComplete) in r.events
    ensures Completes(c0, Run(p, bytes, skip).parser.core)
    decreases |bytes|
  {
    hide SwitchOn, Inv, Phase, Finish, Completes;
    var n, o := |bytes| - 1, Byte(p, bytes[0], skip);
    assert Enter(p).nread <= MAX_HEADER_SIZE && o.verdict != Stop;
    if n == 0 {
      assert bytes[1..] == [];
    } else {
      assert bytes[..n][0] == bytes[0] && bytes[..n][1..] == bytes[1..][..n - 1];
      OneByteRun(p, bytes[..n], skip);
      assert Told(MessageComplete) !in o.events;
      var q, rest := o.parser, bytes[1..];
      NextProceeds(c0, q, rest, skip);
      KeepAliveOnce(c0, q, rest, skip);
    }
  }

  lemma NextProceeds(c0: Core, p: Parser, bytes: seq<byte>, skip: Answers)
    requires Ready(p) && Phase(c0, p.core) && bytes != [] && Run(p, bytes, skip).verdict != Stop
    ensures Proceeds(c0, Byte(p, bytes[0], skip))
  {
    hide SwitchOn, Inv, Phase, Finish, Completes;
    WithinLimit(p, bytes, skip);
    FinishPhase(c0, Enter(p), bytes[0], skip);
  }

  lemma OneByteRun(p: Parser, bytes: seq<byte>, skip: Answers)
    requires Ready(p) && bytes != []
    ensures forall e | e in Byte(p, bytes[0], skip).events :: e in Run(p, bytes, skip).events
  {
    hide Byte;
  }

  /* ---- From on_headers_complete to on_message_complete. ---- */

  // What the version and the connection flags say, the end of the stream apart.
  predicate Persists(c: Core) { if c.major > 0 && c.minor > 0 then !c.flags.close else c.flags.keepAlive }

  // The byte on which on_headers_complete runs.
  ghost predicate EndsHeaders(p: Parser, ch: byte, skip: Answers)
    requires Ready(p)
  {
    Told(HeadersComplete) in Byte(p, ch, skip).events
  }

  lemma HeadByte(p: Parser, ch: byte, skip: Answers)
    requires Ready(p) && EndsHeaders(p, ch, skip)
    ensures OnEmptyLine(p.core.state) && !p.core.flags.trailing && ch == LF && p.nread < MAX_HEADER_SIZE
  {
    hide Finish, SwitchOn, Inv;
    OnlyThere(Enter(p), ch, skip);
  }

  // The rest of its passes start from the fields on_headers_complete leaves.
  lemma {:induction false} FinishHead(p: Parser, skip: Answers)
    requires Mid(p) && OnEmptyLine(p.core.state) && !p.core.flags.trailing
    ensures var e := PastHead(p, skip);
            && Mid(e)
            && var a, b := Finish(p, LF, skip), Finish(e, LF, skip);
               a.parser == b.parser && a.verdict == b.verdict && a.events == [Told(HeadersComplete)] + b.events
    decreases Rank(p.core.state)
  {
    hide SwitchOn, Inv, Finish;
    var t, q := SwitchOn(p.core, LF), After(p, SwitchOn(p.core, LF), skip);
    EmptyPass(p, skip);
    FinishOn(p, LF, skip, t);
    if t.act.Again? {
      FinishHead(q, skip);
    }
  }

  // One pass towards it.
  lemma EmptyPass(p: Parser, skip: Answers)
    requires Mid(p) && OnEmptyLine(p.core.state) && !p.core.flags.trailing
    ensures var t, q := SwitchOn(p.core, LF), After(p, SwitchOn(p.core, LF), skip);
            && (t.act.Again? || t.act.Head?) && (t.act.Head? ==> q == PastHead(p, skip))
            && (t.act.Again? ==>
                  && OnEmptyLine(q.core.state) && !q.core.flags.trailing && Rank(q.core.state) < Rank(p.core.state)
                  && PastHead(q, skip) == PastHead(p, skip))
  {
    EmptyLineTurns(p.core);
    hide SwitchOn, Inv;
  }

  lemma FinishOn(p: Parser, ch: byte, skip: Answers, t: Turn)
    requires Mid(p) && t == SwitchOn(p.core, ch) && Repeats(t.act)
    ensures var q := After(p, t, skip);
            && Mid(q)
            && var a, b := Finish(p, ch, skip), Finish(q, ch, skip);
               a.parser == b.parser && a.verdict == b.verdict && a.events == Emits(t.act, ch) + b.events
  {
    hide SwitchOn;
  }

  lemma HeadProceeds(p: Parser, ch: byte, skip: Answers)
    requires Ready(p) && EndsHeaders(p, ch, skip)
    ensures Proceeds(Headed(AtHead(p.core), skip(p.heads)), Byte(p, ch, skip))
  {
    hide Finish, SwitchOn, Inv, Completes;
    HeadByte(p, ch, skip);
    FinishHead(Enter(p), skip);
    var e := PastHead(Enter(p), skip);
    assert e.core == Headed(AtHead(p.core), skip(p.heads)) && Phase(e.core, e.core);
    FinishPhase(e.core, e, ch, skip);
  }

  // For every message whose end is not that of the stream: the answer when the message is complete decides the state
  // that follows, no is s_dead. Unless a trailer sets a connection flag, it is the answer that on_headers_complete
  // could give once its own reply counts; and it is the answer while on_headers_complete runs, if and only if that
  // reply did not turn a message that needs the end of the stream, on a connection that persists, into one without a
  // body.
  lemma KeepAliveDecides(p: Parser, bytes: seq<byte>, skip: Answers)
    requires Ready(p) && bytes != [] && EndsHeaders(p, bytes[0], skip)
    requires Told(MessageComplete) !in Run(p, bytes[..|bytes| - 1], skip).events
    requires var r := Run(p, bytes, skip); r.verdict != Stop && Told(MessageComplete) in r.events
    ensures var seen, c := AtHead(p.core), Run(p, bytes, skip).parser.core;
            && (c.state.Dead? <==> !ShouldKeepAlive(c)) && c.state == NewMessage(c)
            && NeedsEof(c) == NeedsEof(Headed(seen, skip(p.heads)))
            && c.kind == seen.kind && c.major == seen.major && c.minor == seen.minor
            && (c.flags.close == seen.flags.close && c.flags.keepAlive == seen.flags.keepAlive ==>
                  && ShouldKeepAlive(c) == ShouldKeepAlive(Headed(seen, skip(p.heads)))
                  && (ShouldKeepAlive(c) == ShouldKeepAlive(seen) <==>
                      !(skip(p.heads) && NeedsEof(seen) && Persists(seen))))
  {
    hide Run, Byte, Inv, SwitchOn, ShouldKeepAlive, Persists, NeedsEof;
    var seen := AtHead(p.core);
    HeadProceeds(p, bytes[0], skip);
    KeepAliveOnce(Headed(seen, skip(p.heads)), p, bytes, skip);
    NewMessageIs(Run(p, bytes, skip).parser.core);
    SkipMatters(seen, skip(p.heads));
  }

  lemma NewMessageIs(c: Core)
    ensures NewMessage(c).Dead? <==> !ShouldKeepAlive(c)
  {
  }

  lemma SkipMatters(c: Core, skips: bool)
    ensures ShouldKeepAlive(Headed(c, skips)) == ShouldKeepAlive(c) <==> !(skips && NeedsEof(c) && Persists(c))
  {
  }

  // A response of version 1.1 with neither length nor coding, which the client says has no body: while
  // on_headers_complete runs, the connection is not to be kept; once the message is complete, it is.
  lemma AnswersDiffer(skip: Answers)
    requires skip(0)
    ensures var p, head := Initial(Response), STATUS_200 + [CR];
            && Ready(p) && Run(p, head, skip).verdict == Go && Run(p, head + [LF], skip).verdict == Go
            && EndsHeaders(Run(p, head, skip).parser, LF, skip)
            && !ShouldKeepAlive(AtHead(Run(p, head, skip).parser.core))
            && ShouldKeepAlive(Run(p, head + [LF], skip).parser.core)
  {
    hide Run, SwitchOn, Inv, Byte, ShouldKeepAlive, EndsHeaders;
    var p, q := Initial(Response), Early(HeadersAlmostDone, 14, 1, 1, 200);
    PlainStatus(skip);
    CrAfterStatus(skip);
    RunsReady(p, STATUS_200 + [CR], skip, q, [Told(MessageBegin)]);
    EarlyEnd(skip);
    RunConcat(p, STATUS_200 + [CR], [LF], skip);
  }

  lemma EarlyEnd(skip: Answers)
    requires skip(0)
    ensures var q := Early(HeadersAlmostDone, 14, 1, 1, 200);
            && Ready(q) && EndsHeaders(q, LF, skip) && !ShouldKeepAlive(AtHead(q.core))
            && Run(q, [LF], skip).verdict == Go && ShouldKeepAlive(Run(q, [LF], skip).parser.core)
  {
    hide Run, Byte;
    var q := Early(HeadersAlmostDone, 14, 1, 1, 200);
    HeadersEnd(q, skip);
    OneByte(q, LF, skip);
    assert Told(HeadersComplete) == HeadEvents(PastHead(q, skip).core)[0];
  }

  lemma CrAfterStatus(skip: Answers)
    ensures RunsTo(Initial(Response), STATUS_200 + [CR], skip, Early(HeadersAlmostDone, 14, 1, 1, 200),
                   [Told(MessageBegin)])
  {
    var p := Early(HeaderFieldStart, 13, 1, 1, 200);
    EmptyCr(p.core);
    hide Run, SwitchOn, Inv;
    PlainStatus(skip);
    Onward(STATUS_200, p, CR, Early(HeadersAlmostDone, 14, 1, 1, 200), skip);
  }

  lemma EmptyCr(c: Core)
    requires c.state.HeaderFieldStart?
    ensures Inv(c) && SwitchOn(c, CR) == Turn(c.(state := HeadersAlmostDone), Break)
  {
    hide Sound, Token;
  }

  // A byte that is accepted reports the same on its own.
  lemma OneByte(p: Parser, ch: byte, skip: Answers)
    requires Ready(p) && Run(p, [ch], skip).verdict == Go
    ensures Byte(p, ch, skip).events == Run(p, [ch], skip).events
  {
    hide Byte;
    assert [ch][1..] == [];
    var o := Byte(p, ch, skip);
    if o.verdict == Go {
      EmptyRun(o.parser, skip);
      assert o.events + [] == o.events;
    }
  }
}
