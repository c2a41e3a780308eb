/** The header limit under pauses (src/http_parser.c:60-109, 632-642, 1598). A byte whose callback pauses the parser
    before the byte is consumed is handed back, and counted again when it is fed again. A stream is spared when the
    limit is not reached even if every such byte is counted again. */
module HeaderLimit {
  import opened Bytes
  import opened ParserState
  import opened Switch
  import opened Trace
  import opened Machine

  // A callback that stops the parser in such a pass leaves the byte unconsumed.
  predicate HandsBack(a: Action) { a.FlushAgain? || a.Head? || a.LastBody? }

  predicate Spared(p: Parser, bytes: seq<byte>, skip: Answers)
    requires Ready(p)
    decreases |bytes|, Rank(p.core.state), 1
  {
    bytes == [] || (Enter(p).nread <= MAX_HEADER_SIZE && SparedMid(Enter(p), bytes, skip))
  }

  // The same for a byte that has been counted.
  predicate SparedMid(p: Parser, bytes: seq<byte>, skip: Answers)
    requires Mid(p) && bytes != []
    decreases |bytes|, Rank(p.core.state), 0
  {
    hide SwitchOn;
    var t := SwitchOn(p.core, bytes[0]);
    var q := After(p, t, skip);
    if t.act.Fail? || t.act.Leave? then true
    else if t.act.Again? then SparedMid(q, bytes, skip)
    else Spared(q, if HandsBack(t.act) then bytes else bytes[1..], skip)
  }

  // A smaller count is spared too.
  lemma {:induction false} SparedFewer(p: Parser, q: Parser, bytes: seq<byte>, skip: Answers)
    requires Ready(p) && Ready(q) && q == p.(nread := q.nread) && q.nread <= p.nread && Spared(p, bytes, skip)
    ensures Spared(q, bytes, skip)
    decreases |bytes|, Rank(p.core.state), 1
  {
    if bytes != [] { SparedFewerMid(Enter(p), Enter(q), bytes, skip); }
  }

  lemma {:induction false} SparedFewerMid(p: Parser, q: Parser, bytes: seq<byte>, skip: Answers)
    requires Mid(p) && Mid(q) && q == p.(nread := q.nread) && q.nread <= p.nread && bytes != []
    requires SparedMid(p, bytes, skip)
    ensures SparedMid(q, bytes, skip)
    decreases |bytes|, Rank(p.core.state), 0
  {
    hide SwitchOn;
    var t := SwitchOn(p.core, bytes[0]);
    var v, w := After(p, t, skip), After(q, t, skip);
    if t.act.Fail? || t.act.Leave? {
    } else if t.act.Again? {
      SparedFewerMid(v, w, bytes, skip);
    } else {
      SparedFewer(v, w, if HandsBack(t.act) then bytes else bytes[1..], skip);
    }
  }

  // Going on without a pause where one was possible.
  lemma SparedOn(p: Parser, bytes: seq<byte>, skip: Answers)
    requires Ready(p) && Mid(p) && bytes != [] && Spared(p, bytes, skip)
    ensures SparedMid(p, bytes, skip)
  {
    SparedFewerMid(Enter(p), p, bytes, skip);
  }

  // A spared stream does not reach the limit.
  lemma {:induction false} SparedRuns(p: Parser, bytes: seq<byte>, skip: Answers)
    requires Ready(p) && Spared(p, bytes, skip)
    ensures !Run(p, bytes, skip).parser.errno.HeaderOverflow?
    decreases |bytes|, Rank(p.core.state), 1
  {
    if bytes != [] {
      SparedRunsMid(Enter(p), bytes, skip);
      hide SwitchOn, Finish;
    }
  }

  lemma {:induction false} SparedRunsMid(p: Parser, bytes: seq<byte>, skip: Answers)
    requires Mid(p) && bytes != [] && SparedMid(p, bytes, skip)
    ensures !RunMid(p, bytes, skip).parser.errno.HeaderOverflow?
    decreases |bytes|, Rank(p.core.state), 0
  {
    hide SwitchOn, Run, RunMid;
    FirstPass(p, bytes, skip);
    var t := SwitchOn(p.core, bytes[0]);
    var q := After(p, t, skip);
    if t.act.Fail? || t.act.Leave? {
    } else if Repeats(t.act) {
      if HandsBack(t.act) { SparedOn(q, bytes, skip); }
      SparedRunsMid(q, bytes, skip);
    } else {
      SparedRuns(q, bytes[1..], skip);
    }
  }

  // What comes after the beginning of a spared stream is spared.
  lemma {:induction false} SparedRest(p: Parser, a: seq<byte>, b: seq<byte>, skip: Answers)
    requires Ready(p) && Spared(p, a + b, skip) && Run(p, a, skip).verdict == Go
    ensures Spared(Run(p, a, skip).parser, b, skip)
    decreases |a|, Rank(p.core.state), 1
  {
    if a == [] {
      EmptyRun(p, skip);
      assert a + b == b;
    } else {
      WithinLimit(p, a, skip);
      Counted(p, a, skip);
      SparedRestMid(Enter(p), a, b, skip);
    }
  }

  lemma {:induction false} SparedRestMid(p: Parser, a: seq<byte>, b: seq<byte>, skip: Answers)
    requires Mid(p) && a != [] && SparedMid(p, a + b, skip) && RunMid(p, a, skip).verdict == Go
    ensures Spared(RunMid(p, a, skip).parser, b, skip)
    decreases |a|, Rank(p.core.state), 0
  {
    hide SwitchOn, Run, RunMid;
    FirstPass(p, a, skip);
    assert (a + b)[0] == a[0] && (a + b)[1..] == a[1..] + b;
    var t := SwitchOn(p.core, a[0]);
    var q := After(p, t, skip);
    if Repeats(t.act) {
      if HandsBack(t.act) { SparedOn(q, a + b, skip); }
      SparedRestMid(q, a, b, skip);
    } else {
      SparedRest(q, a[1..], b, skip);
    }
  }

  /* ---- Bodies are not counted. ---- */

  lemma SparedBodyByte(p: Parser, bytes: seq<byte>, skip: Answers)
    requires Ready(p) && bytes != [] && InBody(p, 1)
    ensures Ready(Fewer(p, 1)) && Spared(p, bytes, skip) == Spared(Fewer(p, 1), bytes[1..], skip)
  {
    BodyTurns(p.core, bytes[0]);
    hide SwitchOn;
  }

  lemma BodyTurns(c: Core, ch: byte)
    requires Inv(c) && (c.state.BodyIdentity? || c.state.ChunkData? || c.state.BodyIdentityEof?)
    ensures c.state.BodyIdentityEof? ==> SwitchOn(c, ch) == Turn(c, Mark(Body))
    ensures c.state.ChunkData? ==>
              0 < c.contentLength
              && SwitchOn(c, ch)
                 == Turn(c.(contentLength := c.contentLength - 1,
                            state := if c.contentLength == 1 then ChunkDataAlmostDone else ChunkData), Mark(Body))
    ensures c.state.BodyIdentity? && c.contentLength > 1 ==>
              SwitchOn(c, ch) == Turn(c.(contentLength := c.contentLength - 1), Mark(Body))
    ensures c.state.BodyIdentity? && c.contentLength == 1 ==>
              SwitchOn(c, ch) == Turn(c.(contentLength := 0, state := MessageDone), LastBody)
  {
    hide Sound;
  }

  lemma {:induction false} SparedBody(p: Parser, bytes: seq<byte>, n: nat, skip: Answers)
    requires Ready(p) && n <= |bytes| && InBody(p, n)
    ensures Ready(Fewer(p, n)) && Spared(p, bytes, skip) == Spared(Fewer(p, n), bytes[n..], skip)
    decreases n
  {
    hide Spared, SwitchOn, Inv;
    if n == 0 {
      assert bytes[0..] == bytes;
    } else {
      SparedBodyByte(p, bytes, skip);
      var q := Fewer(p, 1);
      if n == 1 {
      } else {
        SparedBody(q, bytes[1..], n - 1, skip);
        assert bytes[1..][n - 1..] == bytes[n..] && Fewer(q, n - 1) == Fewer(p, n);
      }
    }
  }

  // The last byte of an identity body of one byte.
  lemma SparedLast(p: Parser, bytes: seq<byte>, skip: Answers)
    requires Ready(p) && bytes != [] && p.core.state.BodyIdentity? && p.core.contentLength == 1
    ensures var q := p.(core := p.core.(contentLength := 0, state := MessageDone));
            Ready(q) && Mid(q) && Spared(p, bytes, skip) == Spared(q, bytes, skip) == SparedMid(q, bytes, skip)
  {
    BodyTurns(p.core, bytes[0]);
    hide SwitchOn;
  }

  /* ---- A bound that needs no run. ---- */

  function CountLf(bytes: seq<byte>): nat {
    if bytes == [] then 0 else (if bytes[0] == LF then 1 else 0) + CountLf(bytes[1..])
  }

  // Only a line end is handed back with the header count on.
  lemma HandedBack(c: Core, ch: byte)
    requires Inv(c)
    ensures var t := SwitchOn(c, ch);
            && (t.act.FlushAgain? || t.act.Head? ==> ch == LF) && (t.act.LastBody? ==> t.core.state.MessageDone?)
            && (HandsBack(t.act) ==> Rank(t.core.state) == 0)
  {
    if HandsBack(SwitchOn(c, ch).act) { RankedState(c, ch); }
    if c.state.HeaderValue? {
      ValueHandsBack(c, ch);
    } else {
      hide Sound, Inv, ValueTurn, LengthRefused, Accumulate, Lower, Token;
      assert c.state.HeaderValueLws? || c.state.HeaderFieldStart? || c.state.HeadersAlmostDone?
             || c.state.StartReqOrRes?
             || c.state.BodyIdentity? || !HandsBack(SwitchOn(c, ch).act);
    }
  }

  lemma RankedState(c: Core, ch: byte)
    requires Inv(c) && HandsBack(SwitchOn(c, ch).act)
    ensures c.state.HeaderValueLws? || c.state.HeaderFieldStart? || c.state.HeadersAlmostDone? || c.state.StartReqOrRes?
            || c.state.HeaderValue? || c.state.BodyIdentity?
  {
    hide SwitchOn, Inv, MovesMarks;
  }

  lemma ValueHandsBack(c: Core, ch: byte)
    requires Inv(c) && c.state.HeaderValue?
    ensures var t := SwitchOn(c, ch);
            HandsBack(t.act) ==> t.act.FlushAgain? && ch == LF && t.core.state.HeaderAlmostDone?
  {
    hide Sound, Advance, Accumulate, LengthRefused, Lower;
  }

  lemma {:induction false} ShortSpared(p: Parser, bytes: seq<byte>, skip: Answers)
    requires Ready(p) && p.nread + |bytes| + CountLf(bytes) <= MAX_HEADER_SIZE
    ensures Spared(p, bytes, skip)
    decreases |bytes|, Rank(p.core.state), 1
  {
    if bytes != [] { ShortSparedMid(Enter(p), bytes, skip); }
  }

  lemma {:induction false} ShortSparedMid(p: Parser, bytes: seq<byte>, skip: Answers)
    requires Mid(p) && bytes != [] && p.nread + |bytes| - 1 + CountLf(bytes) <= MAX_HEADER_SIZE
    ensures SparedMid(p, bytes, skip)
    decreases |bytes|, Rank(p.core.state), 0
  {
    hide SwitchOn;
    var t := SwitchOn(p.core, bytes[0]);
    var q := After(p, t, skip);
    HandedBack(p.core, bytes[0]);
    if t.act.Fail? || t.act.Leave? {
    } else if t.act.Again? {
      ShortSparedMid(q, bytes, skip);
    } else if HandsBack(t.act) {
      ShortAgain(q, bytes, skip);
    } else {
      ShortSpared(q, bytes[1..], skip);
    }
  }

  // A byte that was handed back is consumed by the pass that follows.
  lemma {:induction false} ShortAgain(p: Parser, bytes: seq<byte>, skip: Answers)
    requires Ready(p) && bytes != [] && Rank(p.core.state) == 0
    requires Enter(p).nread + |bytes| - 1 + CountLf(bytes[1..]) <= MAX_HEADER_SIZE
    ensures Spared(p, bytes, skip)
    decreases |bytes|, Rank(p.core.state), 1
  {
    hide SwitchOn;
    var e := Enter(p);
    var t := SwitchOn(e.core, bytes[0]);
    if !t.act.Fail? && !t.act.Leave? { ShortSpared(After(e, t, skip), bytes[1..], skip); }
  }

  /* ---- Outside headers nothing is handed back that counts. ---- */

  // An event that no pass over a header line or at the end of the headers emits.
  predicate PastHeaders(e: Event) { e != Told(HeadersComplete) && !(e.Data? && e.kind.Value?) }

  // A run that reports neither a header value nor the end of headers is spared if it is accepted.
  lemma {:induction false} BodySpared(p: Parser, bytes: seq<byte>, skip: Answers)
    requires Ready(p) && Run(p, bytes, skip).verdict == Go
    requires forall e | e in Run(p, bytes, skip).events :: PastHeaders(e)
    ensures Spared(p, bytes, skip)
    decreases |bytes|, Rank(p.core.state), 1
  {
    if bytes != [] {
      WithinLimit(p, bytes, skip);
      Counted(p, bytes, skip);
      BodySparedMid(Enter(p), bytes, skip);
    }
  }

  lemma {:induction false} BodySparedMid(p: Parser, bytes: seq<byte>, skip: Answers)
    requires Mid(p) && bytes != [] && RunMid(p, bytes, skip).verdict == Go
    requires forall e | e in RunMid(p, bytes, skip).events :: PastHeaders(e)
    ensures SparedMid(p, bytes, skip)
    decreases |bytes|, Rank(p.core.state), 0
  {
    hide SwitchOn, Run, RunMid, PastHeaders, Inv;
    FirstPass(p, bytes, skip);
    var t := SwitchOn(p.core, bytes[0]);
    var q := After(p, t, skip);
    var r := RunMid(p, bytes, skip);
    HandedBack(p.core, bytes[0]);
    if t.act.Fail? || t.act.Leave? {
    } else if Repeats(t.act) {
      PassOn(p, bytes, skip, t);
      var s := RunMid(q, bytes, skip);
      assert r.events == Emits(t.act, bytes[0]) + s.events;
      assert forall e | e in s.events :: e in r.events;
      BodySparedMid(q, bytes, skip);
      if HandsBack(t.act) {
        assert forall e | e in Emits(t.act, bytes[0]) :: e in r.events;
        NotHeader(t.act, bytes[0], p.core);
        assert Enter(q) == q;
      }
    } else {
      var s := Run(q, bytes[1..], skip);
      assert r.events == Emits(t.act, bytes[0]) + s.events;
      assert forall e | e in s.events :: e in r.events;
      BodySpared(q, bytes[1..], skip);
    }
  }

  lemma NotHeader(a: Action, ch: byte, c: Core)
    requires Inv(c) && a == SwitchOn(c, ch).act && HandsBack(a) && forall e | e in Emits(a, ch) :: PastHeaders(e)
    ensures a.LastBody?
  {
    hide SwitchOn, Inv;
    HandedBack(c, ch);
    if !a.LastBody? {
      assert Emits(a, ch)[0] in Emits(a, ch);
      FlushesValues(c, ch);
    }
  }

  lemma FlushesValues(c: Core, ch: byte)
    requires Inv(c)
    ensures SwitchOn(c, ch).act.FlushAgain? ==> SwitchOn(c, ch).act.kind.Value?
  {
    if c.state.HeaderValue? {
      ValueHandsBack(c, ch);
    } else {
      hide SwitchOn, Inv, Rank;
    }
  }

  // The limit is 80 kilobytes: of the header, byte 81921 is the first that is refused.
  lemma LimitIs(p: Parser, ch: byte, skip: Answers)
    requires Ready(p)
    ensures Run(p, [ch], skip).parser.errno.HeaderOverflow? <==> ParsingHeader(p.core.state) && p.nread == 81920
  {
    assert [ch][1..] == [];
    var o := Byte(p, ch, skip);
    if o.verdict == Go { EmptyRun(o.parser, skip); }
    hide Finish, SwitchOn;
  }
}
