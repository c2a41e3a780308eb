/** A head that the header limit does not spare: its last header value ends in LF alone, one byte before the limit
    (src/http_parser.c:60-109, 632-642, 1430-1434). */
module LongHeader {
  import opened Bytes
  import opened ParserState
  import opened Switch
  import opened Trace
  import opened Machine
  import opened Headers
  import opened HeaderLimit
  import opened StatusLine

  function Letters(n: nat): (s: seq<byte>)
    ensures |s| == n
  {
    if n == 0 then [] else Letters(n - 1) + ['x']
  }

  // A status line, and a header with a value of n letters, not ended yet.
  function Long(n: nat): (s: seq<byte>)
    ensures |s| == n + 15
  {
    STATUS_200 + ['a'] + [':'] + Letters(n)
  }

  // In the value.
  function InLong(n: nat): Parser { Early(if n == 0 then HeaderValueStart else HeaderValue, n + 15, 1, 1, 200) }

  // What is reported up to there.
  function Reported(n: nat): seq<Event> {
    [Told(MessageBegin)] + [Data(Field, ['a'])] + [Data(Field, [])] + Singles(Value, Letters(n))
  }

  lemma NameTurns(c: Core)
    ensures c.state.HeaderFieldStart? ==>
              Inv(c) && SwitchOn(c, 'a')
                == Turn(c.(index := 0, state := HeaderField, headerState := General), Mark(Field))
    ensures c.state.HeaderField? && c.headerState.General? ==>
              Inv(c) && SwitchOn(c, ':') == Turn(c.(state := HeaderValueStart), Flush(Field))
    ensures c.state.HeaderValueStart? && c.headerState.General? ==>
              Inv(c) && SwitchOn(c, 'x') == Turn(c.(index := 0, state := HeaderValue), Mark(Value))
    ensures c.state.HeaderValue? && c.headerState.General? ==>
              Inv(c) && SwitchOn(c, 'x') == Turn(c, Keep(Value))
  {
    hide Sound, Lower;
  }

  // One byte more.
  lemma More(s: seq<byte>, p: Parser, e: seq<Event>, ch: byte, t: Turn, skip: Answers)
    requires RunsTo(Initial(Response), s, skip, p, e) && ParsingHeader(p.core.state) && p.nread < MAX_HEADER_SIZE
    requires Inv(p.core) && t == SwitchOn(p.core, ch) && (t.act.Mark? || t.act.Keep? || t.act.Flush?) && !t.resets
    ensures RunsTo(Initial(Response), s + [ch], skip, p.(core := t.core, nread := p.nread + 1), e + Emits(t.act, ch))
  {
    hide Run, SwitchOn, Inv;
    RunsReady(Initial(Response), s, skip, p, e);
    OnePass(p, ch, skip);
    RunsToConcat(Initial(Response), s, p, e, [ch], p.(core := t.core, nread := p.nread + 1), Emits(t.act, ch), skip);
  }

  lemma NameRead(skip: Answers)
    ensures RunsTo(Initial(Response), Long(0), skip, InLong(0), Reported(0))
  {
    hide Run, SwitchOn, Inv;
    PlainStatus(skip);
    var p := Early(HeaderFieldStart, 13, 1, 1, 200);
    var q := Early(HeaderField, 14, 1, 1, 200);
    NameTurns(p.core);
    More(STATUS_200, p, [Told(MessageBegin)], 'a', SwitchOn(p.core, 'a'), skip);
    NameTurns(q.core);
    More(STATUS_200 + ['a'], q, [Told(MessageBegin)] + [Data(Field, ['a'])], ':', SwitchOn(q.core, ':'), skip);
    assert STATUS_200 + ['a'] + [':'] == Long(0);
    assert Reported(0) == [Told(MessageBegin)] + [Data(Field, ['a'])] + [Data(Field, [])];
  }

  lemma {:induction false} LettersRead(n: nat, skip: Answers)
    requires n + 15 <= MAX_HEADER_SIZE
    ensures RunsTo(Initial(Response), Long(n), skip, InLong(n), Reported(n))
  {
    hide Run, SwitchOn, Inv;
    if n == 0 {
      NameRead(skip);
    } else {
      LettersRead(n - 1, skip);
      var p := InLong(n - 1);
      NameTurns(p.core);
      More(Long(n - 1), p, Reported(n - 1), 'x', SwitchOn(p.core, 'x'), skip);
      assert Long(n - 1) + ['x'] == Long(n);
      SinglesSnoc(Value, Letters(n - 1), 'x');
      assert Reported(n - 1) + [Data(Value, ['x'])] == Reported(n);
    }
  }

  // One byte before the limit the parser goes on, left alone; paused in on_header_value, it is given the line feed
  // again and refuses it.
  lemma LastLf(p: Parser, skip: Answers)
    requires Ready(p) && p.core.state.HeaderValue? && p.nread == MAX_HEADER_SIZE - 1
    ensures Run(p, [LF], skip).verdict == Go && !Spared(p, [LF], skip)
  {
    var e := p.(nread := MAX_HEADER_SIZE);
    var t := Turn(p.core.(state := HeaderAlmostDone), FlushAgain(Value));
    LineFeedTurns(p.core);
    AlmostDone(p.core);
    PartEnds(t.core);
    hide SwitchOn, Inv, RunMid, Run, Spared, SparedMid;
    Counted(p, [LF], skip);
    PassOn(e, [LF], skip, t);
    PassEnds(After(e, t, skip), LF, skip, SwitchOn(t.core, LF));
    NoRoom(p, skip);
  }

  lemma NoRoom(p: Parser, skip: Answers)
    requires Ready(p) && p.core.state.HeaderValue? && p.nread == MAX_HEADER_SIZE - 1
    ensures !Spared(p, [LF], skip)
  {
    LineFeedTurns(p.core);
    hide SwitchOn;
    var e := Enter(p);
    var q := After(e, SwitchOn(e.core, LF), skip);
    assert ParsingHeader(q.core.state) && !Spared(q, [LF], skip);
    assert !SparedMid(e, [LF], skip);
  }

  // So a new parser accepts this stream, and an application that always pauses never gets it past the limit.
  lemma LimitInTheWay(skip: Answers)
    ensures var p, s := Initial(Response), Long(MAX_HEADER_SIZE - 16) + [LF];
            Ready(p) && Run(p, s, skip).verdict == Go && !Spared(p, s, skip)
  {
    hide Run, SwitchOn, Inv, Spared, Long;
    var p, n := Initial(Response), MAX_HEADER_SIZE - 16;
    InitialReady(Response);
    LettersRead(n, skip);
    RunsReady(p, Long(n), skip, InLong(n), Reported(n));
    LastLf(InLong(n), skip);
    RunConcat(p, Long(n), [LF], skip);
    if Spared(p, Long(n) + [LF], skip) { SparedRest(p, Long(n), [LF], skip); }
  }
}
