/** The byte-at-a-time reading of `http_parser_execute`: each byte is counted, goes round the switch until it is
    consumed, and reports what it contributes to the trace. It knows no buffers, marks, pointer jumps or pauses. */
module Machine {
  import opened Bytes
  import opened ParserState
  import opened Switch
  import opened Trace

  const MAX_HEADER_SIZE: nat := 80 * 1024

  // The fields, the count of header bytes, http_errno, and how often on_headers_complete has run.
  datatype Parser = Parser(core: Core, nread: nat, errno: Errno, heads: nat)

  // Whether the application answers its n-th on_headers_complete with 1, no body.
  type Answers = nat -> bool

  // A client that never says so.
  const NO_SKIP: Answers := n => false

  // Between bytes.
  ghost predicate Ready(p: Parser) {
    p.errno.OK? && Inv(p.core) && p.nread <= MAX_HEADER_SIZE && (p.core.state.ChunkSizeStart? ==> p.nread == 0)
  }

  // At the label reexecute_byte; the source asserts nread == 1 at the start of a chunk size.
  ghost predicate Mid(p: Parser) {
    p.errno.OK? && Inv(p.core) && p.nread <= MAX_HEADER_SIZE && (p.core.state.ChunkSizeStart? ==> p.nread == 1)
  }

  // http_parser_init.
  function Initial(kind: MessageKind): Parser {
    var s := if kind == Request then StartReq else if kind == Response then StartRes else StartReqOrRes;
    Parser(Core(kind, NO_FLAGS, s, General, 0, 0, 0, 0, 0, DELETE, false), 0, OK, 0)
  }

  lemma InitialReady(kind: MessageKind)
    ensures Ready(Initial(kind))
  {
  }

  // Go: the byte was consumed. Stop: an error. Out: the rest belongs to another protocol.
  datatype Verdict = Go | Stop | Out

  datatype Outcome = Outcome(parser: Parser, events: seq<Event>, verdict: Verdict, turns: nat)

  // What one pass over byte ch adds to the trace.
  function Emits(a: Action, ch: byte): seq<Event> {
    if a.Notify? then [Told(a.note)]
    else if a.Leave? then [Told(MessageComplete)]
    else if a.Head? then [Told(HeadersComplete)]
    else if a.LastBody? then [Data(Body, [ch])]
    else if a.Mark? || a.Keep? then [Data(a.kind, [ch])]
    else if a.MarkFlush? || a.FlushAgain? then [Data(a.kind, [])]
    else if a.Flush? then (if a.kind.Body? then [] else [Data(a.kind, [])])
    else []
  }

  // The fields after on_headers_complete answered.
  function Headed(c: Core, skips: bool): Core { c.(flags := c.flags.(skipBody := c.flags.skipBody || skips)) }

  // The parser after a pass.
  function After(p: Parser, t: Turn, skip: Answers): Parser {
    Parser(if t.act.Head? then Headed(t.core, skip(p.heads)) else t.core, if t.resets then 0 else p.nread,
           if t.act.Fail? then t.act.error else OK, if t.act.Head? then p.heads + 1 else p.heads)
  }

  // The loop around reexecute_byte.
  function Finish(p: Parser, ch: byte, skip: Answers): (o: Outcome)
    requires Mid(p)
    ensures o.verdict != Stop ==> Ready(o.parser)
    ensures o.verdict == Stop ==> IsSyntax(o.parser.errno)
    ensures 1 <= o.turns <= Rank(p.core.state) + 1
    decreases Rank(p.core.state)
  {
    hide SwitchOn;
    var t := SwitchOn(p.core, ch);
    var q := After(p, t, skip);
    if t.act.Fail? then Outcome(q, [], Stop, 1)
    else if Repeats(t.act) then
      var o := Finish(q, ch, skip);
      o.(events := Emits(t.act, ch) + o.events, turns := 1 + o.turns)
    else Outcome(q, Emits(t.act, ch), if t.act.Leave? then Out else Go, 1)
  }

  function Enter(p: Parser): Parser { if ParsingHeader(p.core.state) then p.(nread := p.nread + 1) else p }

  function Byte(p: Parser, ch: byte, skip: Answers): (o: Outcome)
    requires Ready(p)
    ensures o.verdict != Stop ==> Ready(o.parser)
    ensures o.verdict == Stop ==> IsSyntax(o.parser.errno) || o.parser.errno.HeaderOverflow?
    ensures o.turns <= 4
  {
    hide SwitchOn, Finish;
    var q := Enter(p);
    if q.nread > MAX_HEADER_SIZE then Outcome(q.(errno := HeaderOverflow), [], Stop, 0) else Finish(q, ch, skip)
  }

  datatype Result = Result(parser: Parser, events: seq<Event>, used: nat, verdict: Verdict)

  function Prepend(events: seq<Event>, n: nat, r: Result): Result {
    r.(events := events + r.events, used := n + r.used)
  }

  function Run(p: Parser, bytes: seq<byte>, skip: Answers): (r: Result)
    requires Ready(p)
    ensures r.verdict != Stop ==> Ready(r.parser)
    ensures r.verdict == Stop ==> IsSyntax(r.parser.errno) || r.parser.errno.HeaderOverflow?
    ensures r.used <= |bytes|
    ensures r.verdict == Go ==> r.used == |bytes|
    decreases |bytes|
  {
    hide Byte;
    if bytes == [] then Result(p, [], 0, Go)
    else
      var o := Byte(p, bytes[0], skip);
      if o.verdict == Go then Prepend(o.events, 1, Run(o.parser, bytes[1..], skip))
      else Result(o.parser, o.events, if o.verdict == Out then 1 else 0, o.verdict)
  }

  // Continuing with a byte that has already been counted.
  function RunMid(p: Parser, bytes: seq<byte>, skip: Answers): Result
    requires Mid(p) && bytes != []
  {
    hide Finish;
    var o := Finish(p, bytes[0], skip);
    if o.verdict == Go then Prepend(o.events, 1, Run(o.parser, bytes[1..], skip))
    else Result(o.parser, o.events, if o.verdict == Out then 1 else 0, o.verdict)
  }

  lemma EmptyRun(p: Parser, skip: Answers)
    requires Ready(p)
    ensures Run(p, [], skip) == Result(p, [], 0, Go)
  {
  }

  /* ---- Composition. ---- */

  // Running over a ++ b is running over a and then over b.
  lemma {:induction false} RunConcat(p: Parser, a: seq<byte>, b: seq<byte>, skip: Answers)
    requires Ready(p)
    ensures Run(p, a + b, skip) ==
            var r := Run(p, a, skip);
            if r.verdict == Go then Prepend(r.events, |a|, Run(r.parser, b, skip)) else r
    decreases |a|
  {
    hide Byte;
    if a == [] {
      assert a + b == b;
      var r := Run(p, b, skip);
      assert [] + r.events == r.events;
    } else {
      assert (a + b)[1..] == a[1..] + b;
      var o := Byte(p, a[0], skip);
      if o.verdict == Go {
        RunConcat(o.parser, a[1..], b, skip);
        var r := Run(o.parser, a[1..], skip);
        if r.verdict == Go {
          assert o.events + (r.events + Run(r.parser, b, skip).events)
                 == (o.events + r.events) + Run(r.parser, b, skip).events;
        }
      }
    }
  }

  // p consumes all the bytes, ends as q and reports the events.
  ghost predicate RunsTo(p: Parser, bytes: seq<byte>, skip: Answers, q: Parser, events: seq<Event>) {
    Ready(p) && Run(p, bytes, skip) == Result(q, events, |bytes|, Go)
  }

  lemma RunsToConcat(p: Parser, a: seq<byte>, q: Parser, e: seq<Event>, b: seq<byte>, r: Parser, f: seq<Event>,
                     skip: Answers)
    requires RunsTo(p, a, skip, q, e) && RunsTo(q, b, skip, r, f)
    ensures RunsTo(p, a + b, skip, r, e + f)
  {
    RunConcat(p, a, b, skip);
  }

  // A byte consumed in one pass.
  lemma OnePass(p: Parser, ch: byte, skip: Answers)
    requires Ready(p) && Enter(p).nread <= MAX_HEADER_SIZE
    requires var a := SwitchOn(p.core, ch).act; !Repeats(a) && !a.Fail? && !a.Leave?
    ensures var t := SwitchOn(p.core, ch);
            RunsTo(p, [ch], skip, After(Enter(p), t, skip), Emits(t.act, ch))
  {
    var t := SwitchOn(p.core, ch);
    var o := Byte(p, ch, skip);
    var r := Run(o.parser, [], skip);
    assert [ch][1..] == [];
    assert o.events + r.events == o.events;
  }

  lemma RunsReady(p: Parser, bytes: seq<byte>, skip: Answers, q: Parser, events: seq<Event>)
    requires RunsTo(p, bytes, skip, q, events)
    ensures Ready(q)
  {
  }

  // One byte that takes one pass and reports nothing.
  lemma Silent(p: Parser, bytes: seq<byte>, q: Parser, e: seq<Event>, ch: byte, skip: Answers)
    requires RunsTo(p, bytes, skip, q, e) && Enter(q).nread <= MAX_HEADER_SIZE
    requires var t := SwitchOn(q.core, ch); !Repeats(t.act) && !t.act.Fail? && !t.act.Leave? && Emits(t.act, ch) == []
    ensures RunsTo(p, bytes + [ch], skip, After(Enter(q), SwitchOn(q.core, ch), skip), e)
  {
    hide Run, SwitchOn, Inv;
    OnePass(q, ch, skip);
    RunsToConcat(p, bytes, q, e, [ch], After(Enter(q), SwitchOn(q.core, ch), skip), [], skip);
    assert e + [] == e;
  }

  /* ---- Single passes, bulk bodies. ---- */

  lemma PrependPrepend(a: seq<Event>, n: nat, b: seq<Event>, m: nat, r: Result)
    ensures Prepend(a, n, Prepend(b, m, r)) == Prepend(a + b, n + m, r)
  {
    assert a + (b + r.events) == (a + b) + r.events;
  }

  // RunMid by its first pass.
  lemma FirstPass(p: Parser, bytes: seq<byte>, skip: Answers)
    requires Mid(p) && bytes != []
    ensures var t := SwitchOn(p.core, bytes[0]);
            var q := After(p, t, skip);
            RunMid(p, bytes, skip) ==
            if t.act.Fail? then Result(q, [], 0, Stop)
            else if Repeats(t.act) then Prepend(Emits(t.act, bytes[0]), 0, RunMid(q, bytes, skip))
            else if t.act.Leave? then Result(q, Emits(t.act, bytes[0]), 1, Out)
            else Prepend(Emits(t.act, bytes[0]), 1, Run(q, bytes[1..], skip))
  {
    hide SwitchOn, Run;
    var t := SwitchOn(p.core, bytes[0]);
    if Repeats(t.act) {
      var o := Finish(After(p, t, skip), bytes[0], skip);
      if o.verdict == Go {
        PrependPrepend(Emits(t.act, bytes[0]), 0, o.events, 1, Run(o.parser, bytes[1..], skip));
      }
    }
  }

  // The first byte is counted.
  lemma Counted(p: Parser, bytes: seq<byte>, skip: Answers)
    requires Ready(p) && bytes != [] && Enter(p).nread <= MAX_HEADER_SIZE
    ensures Mid(Enter(p)) && Run(p, bytes, skip) == RunMid(Enter(p), bytes, skip)
  {
    hide Finish;
  }

  lemma WithinLimit(p: Parser, bytes: seq<byte>, skip: Answers)
    requires Ready(p) && bytes != [] && Run(p, bytes, skip).verdict != Stop
    ensures Enter(p).nread <= MAX_HEADER_SIZE
  {
    hide Finish;
  }

  // A byte whose first pass does not consume it.
  lemma PassOn(p: Parser, bytes: seq<byte>, skip: Answers, t: Turn)
    requires Mid(p) && bytes != [] && t == SwitchOn(p.core, bytes[0]) && Repeats(t.act)
    ensures var q := After(p, t, skip);
            Mid(q) && RunMid(p, bytes, skip) == Prepend(Emits(t.act, bytes[0]), 0, RunMid(q, bytes, skip))
  {
    hide SwitchOn, Run, RunMid;
    FirstPass(p, bytes, skip);
  }

  // A single byte that a pass consumes.
  lemma PassEnds(p: Parser, ch: byte, skip: Answers, t: Turn)
    requires Mid(p) && t == SwitchOn(p.core, ch) && !Repeats(t.act) && !t.act.Fail?
    ensures var q := After(p, t, skip);
            && (!t.act.Leave? ==> Ready(q))
            && RunMid(p, [ch], skip) == Result(q, Emits(t.act, ch), 1, if t.act.Leave? then Out else Go)
  {
    hide SwitchOn, Run, RunMid;
    FirstPass(p, [ch], skip);
    assert [ch][1..] == [];
    var q := After(p, t, skip);
    if !t.act.Leave? {
      EmptyRun(q, skip);
      assert Emits(t.act, ch) + [] == Emits(t.act, ch);
    }
  }

  lemma BodyNeedsNoCount(p: Parser, bytes: seq<byte>, skip: Answers)
    requires Ready(p) && bytes != [] && !ParsingHeader(p.core.state)
    ensures Mid(p) && Run(p, bytes, skip) == RunMid(p, bytes, skip)
  {
  }

  // The fields after n more body bytes.
  function Fewer(p: Parser, n: nat): Parser
    requires p.core.state.BodyIdentity? || p.core.state.ChunkData? ==> n <= p.core.contentLength as int
  {
    if n == 0 || p.core.state.BodyIdentityEof? || p.core.contentLength as int < n then p
    else
      var c := p.core.(contentLength := (p.core.contentLength as int - n) as uint64);
      p.(core := if c.state.ChunkData? && c.contentLength == 0 then c.(state := ChunkDataAlmostDone) else c)
  }

  ghost predicate InBody(p: Parser, n: nat) {
    && (p.core.state.BodyIdentity? || p.core.state.ChunkData? || p.core.state.BodyIdentityEof?)
    && (p.core.state.BodyIdentity? ==> n < p.core.contentLength as int)
    && (p.core.state.ChunkData? ==> n <= p.core.contentLength as int)
  }

  lemma BodyByte(p: Parser, bytes: seq<byte>, skip: Answers)
    requires Ready(p) && bytes != [] && InBody(p, 1)
    ensures Ready(Fewer(p, 1))
    ensures Run(p, bytes, skip) == Prepend([Data(Body, [bytes[0]])], 1, Run(Fewer(p, 1), bytes[1..], skip))
  {
    hide Run;
    BodyNeedsNoCount(p, bytes, skip);
    FirstPass(p, bytes, skip);
  }

  // A stretch of body bytes that does not finish an identity body, taken byte by byte.
  lemma {:induction false} BodyStretch(p: Parser, bytes: seq<byte>, n: nat, skip: Answers)
    requires Ready(p) && n <= |bytes| && InBody(p, n)
    ensures Ready(Fewer(p, n))
    ensures Run(p, bytes, skip) == Prepend(Singles(Body, bytes[..n]), n, Run(Fewer(p, n), bytes[n..], skip))
    decreases n
  {
    hide Run, SwitchOn;
    if n == 0 {
      assert bytes[0..] == bytes;
      var r := Run(p, bytes, skip);
      assert [] + r.events == r.events;
    } else {
      BodyByte(p, bytes, skip);
      var q := Fewer(p, 1);
      if n > 1 {
        BodyStretch(q, bytes[1..], n - 1, skip);
      } else {
        assert [] + Run(q, bytes[1..], skip).events == Run(q, bytes[1..], skip).events;
      }
      assert Fewer(q, n - 1) == Fewer(p, n);
      assert bytes[1..][..n - 1] == bytes[..n][1..] && bytes[1..][n - 1..] == bytes[n..]
             && bytes[..n][..1] == [bytes[0]];
      SinglesCons(Body, bytes[..n]);
      PrependPrepend([Data(Body, [bytes[0]])], 1, Singles(Body, bytes[..n][1..]), n - 1,
                     Run(Fewer(p, n), bytes[n..], skip));
    }
  }

  /* ---- Counting a header byte twice, as a resumed call does. ---- */

  // s is r, but for nread, or breaks off in r where the extra counts exhaust the header limit.
  ghost predicate Agrees(r: Result, s: Result) {
    || (s.parser.errno.HeaderOverflow? && s.events <= r.events)
    || (r.events == s.events && r.used == s.used && r.verdict == s.verdict && r.parser.nread <= s.parser.nread
        && s.parser == r.parser.(nread := s.parser.nread))
  }

  lemma {:induction false} FinishCounted(p: Parser, q: Parser, ch: byte, skip: Answers)
    requires Mid(p) && Mid(q) && q == p.(nread := q.nread) && p.nread <= q.nread
    ensures var a, b := Finish(p, ch, skip), Finish(q, ch, skip);
            b == a.(parser := a.parser.(nread := b.parser.nread)) && a.parser.nread <= b.parser.nread
    decreases Rank(p.core.state)
  {
    hide SwitchOn;
    var t := SwitchOn(p.core, ch);
    if Repeats(t.act) {
      FinishCounted(After(p, t, skip), After(q, t, skip), ch, skip);
    }
  }

  lemma {:induction false} RunCounted(p: Parser, q: Parser, bytes: seq<byte>, skip: Answers)
    requires Ready(p) && Ready(q) && q == p.(nread := q.nread) && p.nread <= q.nread
    ensures Agrees(Run(p, bytes, skip), Run(q, bytes, skip))
    decreases |bytes|
  {
    hide SwitchOn;
    if bytes != [] && Enter(q).nread <= MAX_HEADER_SIZE {
      FinishCounted(Enter(p), Enter(q), bytes[0], skip);
      var a, b := Byte(p, bytes[0], skip), Byte(q, bytes[0], skip);
      if a.verdict == Go {
        RunCounted(a.parser, b.parser, bytes[1..], skip);
      }
    }
  }

  // Handing back a byte that was already counted.
  lemma Recount(p: Parser, bytes: seq<byte>, skip: Answers)
    requires Mid(p) && Ready(p) && bytes != []
    ensures Agrees(RunMid(p, bytes, skip), Run(p, bytes, skip))
  {
    hide SwitchOn;
    if Enter(p).nread <= MAX_HEADER_SIZE {
      FinishCounted(p, Enter(p), bytes[0], skip);
      var a, b := Finish(p, bytes[0], skip), Byte(p, bytes[0], skip);
      if a.verdict == Go {
        RunCounted(a.parser, b.parser, bytes[1..], skip);
      }
    }
  }
}
