/** `http_parser_execute` in its own form: persistent fields, a pointer, marks, bulk jumps over bodies, and callbacks
    that may pause or fail (src/http_parser.c:572-1845, 1898-1906, 2158-2170). It is proved to compute what the
    byte-at-a-time machine computes, and to stop at a point from which feeding the unconsumed bytes goes on as if it had
    not stopped. */
module Execution {
  import opened Bytes
  import opened ParserState
  import opened Switch
  import opened Trace
  import opened Machine
  import opened Marks
  import opened HeaderLimit

  // What a callback does: its return code, and whether it called http_parser_pause(parser, 1).
  datatype Reply = Reply(code: int, paused: bool)

  // An application, answering the latest event of the trace so far. A callback left NULL answers 0.
  type Policy = seq<Event> -> Reply

  // The application never answers its n-th on_headers_complete with the opposite of skip(n) (1: no body; 0: body as
  // announced).
  ghost predicate AnswersHead(policy: Policy, skip: Answers) {
    forall t: seq<Event> | t != [] && t[|t| - 1] == Told(HeadersComplete) ::
      policy(t).code != if skip(HeadsIn(t) - 1) then 0 else 1
  }

  // The account r of a call supposes the application's answers.
  ghost predicate Fair(policy: Policy, skip: Answers, r: Aim) {
    AnswersHead(policy, skip) && (r.exact ==> PausesAlways(policy))
  }

  ghost predicate PausesAlways(policy: Policy) { forall t: seq<Event> :: policy(t).paused }

  // The error of a failing callback, HPE_CB_x.
  function CbFor(e: Event): Errno { if e.Told? then CbNotify(e.note) else CbData(e.kind) }

  function ErrnoOf(reply: Reply, cb: Errno): Errno {
    if reply.code != 0 then cb else if reply.paused then Paused else OK
  }

  // What the reply to the last event of a trace does to http_errno. Only on_headers_complete may answer 1.
  function Stopped(policy: Policy, t: seq<Event>): Errno
    requires t != []
  {
    var reply, last := policy(t), t[|t| - 1];
    ErrnoOf(if last == Told(HeadersComplete) && reply.code == 1 then Reply(0, reply.paused) else reply, CbFor(last))
  }

  predicate IsStop(e: Errno) { e.Paused? || e.CbNotify? || e.CbData? }

  datatype Next = Advance | Repeat | Return(n: nat)

  /* ---- What a call is to be accounted for. ---- */

  // The machine's run over all the data of the call; the bytes that will come after them; whether data and bytes are
  // spared the header limit; and whether the application pauses in every callback, so that every byte that can be
  // handed back is.
  datatype Aim = Aim(run: Result, more: seq<byte>, spared: bool, exact: bool)

  // The parser v, before the bytes and those to come, is spared if the whole was; exactly then if every such byte was
  // handed back.
  ghost predicate Keeps(r: Aim, v: Parser, bytes: seq<byte>, skip: Answers)
    requires Ready(v)
  {
    (r.spared ==> Spared(v, bytes + r.more, skip)) && (r.exact && Spared(v, bytes + r.more, skip) ==> r.spared)
  }

  ghost predicate KeepsMid(r: Aim, v: Parser, bytes: seq<byte>, skip: Answers)
    requires Mid(v) && bytes != []
  {
    (r.spared ==> SparedMid(v, bytes + r.more, skip)) && (r.exact && SparedMid(v, bytes + r.more, skip) ==> r.spared)
  }

  ghost predicate Doing(r: Aim, evs: seq<Event>, p: nat, v: Parser, data: seq<byte>, skip: Answers) {
    Mid(v) && p < |data| && r.run == Prepend(evs, p, RunMid(v, data[p..], skip)) && KeepsMid(r, v, data[p..], skip)
  }

  // The same when the byte at p may be handed back to the caller here.
  ghost predicate Handing(r: Aim, evs: seq<Event>, p: nat, v: Parser, data: seq<byte>, skip: Answers) {
    && Mid(v) && Ready(v) && p < |data| && r.run == Prepend(evs, p, RunMid(v, data[p..], skip))
    && Keeps(r, v, data[p..], skip)
  }

  ghost predicate Between(r: Aim, evs: seq<Event>, p: nat, v: Parser, data: seq<byte>, skip: Answers) {
    Ready(v) && p <= |data| && r.run == Prepend(evs, p, Run(v, data[p..], skip)) && Keeps(r, v, data[p..], skip)
  }

  // The trace t is a beginning of the trace u, up to merging.
  ghost predicate Begins(t: seq<Event>, u: seq<Event>) { exists tail: seq<Event> :: Merge(t + tail) == Merge(u) }

  // Feeding the rest from the parser w gives what was left of the run r, or breaks off in it where bytes counted again
  // exhaust the header limit.
  ghost predicate Resumes(r: Result, t0: seq<Event>, t: seq<Event>, n: nat, w: Parser, rest: seq<byte>, skip: Answers) {
    && Ready(w)
    && var s := Run(w, rest, skip);
       || (s.parser.errno.HeaderOverflow? && !Spared(w, rest, skip) && Begins(t + s.events, t0 + r.events))
       || (r.verdict == s.verdict && r.used == n + s.used && Merge(t0 + r.events) == Merge(t + s.events)
           && r.parser.nread <= s.parser.nread && s.parser == r.parser.(nread := s.parser.nread))
  }

  // The parser once the error of a callback is cleared: had on_headers_complete not failed, it would have answered
  // skip.
  ghost function Cleared(w: Parser, skip: Answers): Parser {
    if w.errno == CbNotify(HeadersComplete) && w.heads > 0 then
      w.(errno := OK, core := Headed(w.core, skip(w.heads - 1)))
    else w.(errno := OK)
  }

  // What a call that returns n, with parser w and trace t, has to do with the run of the machine over all the data.
  ghost predicate Returned(
    r: Aim, t0: seq<Event>, data: seq<byte>, skip: Answers, n: nat, w: Parser, t: seq<Event>)
  {
    && n <= |data| && Begins(t, t0 + r.run.events)
    && if w.errno.OK? then
         && r.run.verdict != Stop && w == r.run.parser && n == r.run.used && Merge(t) == Merge(t0 + r.run.events)
         && (r.run.verdict == Go ==> Ready(w) && Keeps(r, w, [], skip))
       else if IsStop(w.errno) then
         var u := Cleared(w, skip);
         || (r.run.verdict == Out && u == r.run.parser && n == r.run.used && Merge(t) == Merge(t0 + r.run.events))
         || (Resumes(r.run, t0, t, n, u, data[n..], skip) && Keeps(r, u, data[n..], skip))
       else
         r.run.verdict == Stop && w == r.run.parser && n == r.run.used && (w.errno.HeaderOverflow? ==> !r.spared)
  }

  /* ---- One pass, on values. ---- */

  lemma DoingPass(r: Aim, evs: seq<Event>, p: nat, v: Parser, data: seq<byte>, skip: Answers)
    requires Doing(r, evs, p, v, data, skip)
    ensures var t := SwitchOn(v.core, data[p]);
            var w, e := After(v, t, skip), evs + Emits(t.act, data[p]);
            if t.act.Fail? then r.run == Result(w, evs, p, Stop)
            else if t.act.Again? then Doing(r, e, p, w, data, skip)
            else if HandsBack(t.act) then Handing(r, e, p, w, data, skip)
            else if t.act.Leave? then r.run == Result(w, e, p + 1, Out)
            else Between(r, e, p + 1, w, data, skip)
  {
    hide SwitchOn, Run, RunMid, Spared;
    var rest := data[p..];
    assert rest[1..] == data[p + 1..] && rest[0] == data[p];
    assert (rest + r.more)[0] == rest[0] && (rest + r.more)[1..] == rest[1..] + r.more;
    FirstPass(v, rest, skip);
    var t := SwitchOn(v.core, data[p]);
    var w := After(v, t, skip);
    if t.act.Fail? {
      assert evs + [] == evs;
    } else if Repeats(t.act) {
      PrependPrepend(evs, p, Emits(t.act, data[p]), 0, RunMid(w, rest, skip));
    } else if !t.act.Leave? {
      PrependPrepend(evs, p, Emits(t.act, data[p]), 1, Run(w, data[p + 1..], skip));
    }
  }

  // Going on with a byte that could have been handed back.
  lemma NotHanded(r: Aim, evs: seq<Event>, p: nat, v: Parser, data: seq<byte>, skip: Answers)
    requires Handing(r, evs, p, v, data, skip) && (r.exact ==> !ParsingHeader(v.core.state))
    ensures Doing(r, evs, p, v, data, skip)
  {
    hide Run, RunMid;
    if Spared(v, data[p..] + r.more, skip) { SparedOn(v, data[p..] + r.more, skip); }
    assert !ParsingHeader(v.core.state) ==> Enter(v) == v;
    hide SparedMid;
  }

  lemma BeginsNow(t: seq<Event>, t0: seq<Event>, evs: seq<Event>, r: Result, n: nat, s: Result)
    requires r == Prepend(evs, n, s) && Merge(t) == Merge(t0 + evs)
    ensures Begins(t, t0 + r.events) && Merge(t + s.events) == Merge(t0 + r.events)
  {
    MergeCongruence(t, t0 + evs, s.events, s.events);
    assert t0 + r.events == t0 + evs + s.events;
  }

  // Stopped by a callback after consuming the byte before n; v is the parser but for the error.
  lemma StoppedBetween(
    r: Aim, t0: seq<Event>, evs: seq<Event>, data: seq<byte>, skip: Answers, n: nat, v: Parser, w: Parser,
    t: seq<Event>)
    requires Between(r, evs, n, v, data, skip) && Merge(t) == Merge(t0 + evs) && IsStop(w.errno)
    requires Cleared(w, skip) == v
    ensures Returned(r, t0, data, skip, n, w, t)
  {
    hide Run, Merge, Spared;
    BeginsNow(t, t0, evs, r.run, n, Run(v, data[n..], skip));
  }

  // Stopped while the byte at n is still to be consumed: it will be counted again.
  lemma StoppedDoing(
    r: Aim, t0: seq<Event>, evs: seq<Event>, data: seq<byte>, skip: Answers, n: nat, v: Parser, w: Parser,
    t: seq<Event>)
    requires Handing(r, evs, n, v, data, skip) && Merge(t) == Merge(t0 + evs) && IsStop(w.errno)
    requires Cleared(w, skip) == v
    ensures Returned(r, t0, data, skip, n, w, t)
  {
    hide Run, RunMid, Merge, Spared;
    BeginsNow(t, t0, evs, r.run, n, RunMid(v, data[n..], skip));
    Recount(v, data[n..], skip);
    if Spared(v, data[n..], skip) { SparedRuns(v, data[n..], skip); }
    BrokenOff(t, t0, evs, r.run, n, RunMid(v, data[n..], skip), Run(v, data[n..], skip).events);
  }

  lemma BrokenOff(t: seq<Event>, t0: seq<Event>, evs: seq<Event>, r: Result, n: nat, s: Result, some: seq<Event>)
    requires r == Prepend(evs, n, s) && Merge(t) == Merge(t0 + evs)
    ensures some <= s.events ==> Begins(t + some, t0 + r.events)
  {
    if some <= s.events {
      var tail := s.events[|some|..];
      MergeCongruence(t, t0 + evs, some + tail, some + tail);
      assert t + some + tail == t + (some + tail) && t0 + evs + (some + tail) == t0 + r.events;
    }
  }

  // The upgrade exit, stopped by the last callback or not.
  lemma Leaves(r: Aim, t0: seq<Event>, data: seq<byte>, skip: Answers, w: Parser, t: seq<Event>, e: Errno)
    requires r.run.verdict == Out && w == r.run.parser && r.run.used <= |data| && Merge(t) == Merge(t0 + r.run.events)
    requires w.errno.OK? && (e.OK? || (IsStop(e) && e != CbNotify(HeadersComplete)))
    ensures Returned(r, t0, data, skip, r.run.used, w.(errno := e), t)
  {
    hide Run, Merge, Spared;
    assert t + [] == t;
  }

  // A syntax error or the header limit: what was marked is never reported.
  lemma Failed(r: Aim, t0: seq<Event>, data: seq<byte>, skip: Answers, n: nat, w: Parser, t: seq<Event>, marks: Marks)
    requires n <= |data| && r.run.verdict == Stop && w == r.run.parser && n == r.run.used
    requires Shown(t, marks, data, n, t0 + r.run.events)
    requires IsSyntax(w.errno) || (w.errno.HeaderOverflow? && !r.spared)
    ensures Returned(r, t0, data, skip, n, w, t)
  {
    hide Run, Merge, Pending;
  }

  lemma MergeAppend(t: seq<Event>, u: seq<Event>, e: Event)
    requires Merge(t) == Merge(u)
    ensures Merge(t + [e]) == Merge(u + [e])
  {
    MergeCongruence(t, u, [e], [e]);
  }

  // What a pass leaves behind, given what the call is to be accounted for and the trace t0 before it.
  ghost predicate Followed(
    r: Aim, t0: seq<Event>, evs: seq<Event>, data: seq<byte>, skip: Answers, next: Next, q: nat, marks: Marks,
    w: Parser,
    t: seq<Event>)
  {
    match next
    case Advance => q < |data| && Between(r, evs, q + 1, w, data, skip) && Shown(t, marks, data, q + 1, t0 + evs)
    case Repeat => Doing(r, evs, q, w, data, skip) && Shown(t, marks, data, q, t0 + evs)
    case Return(n) => Returned(r, t0, data, skip, n, w, t)
  }

  // The same without regard to the trace: what the loop needs to go on, or the caller to call again.
  ghost predicate Fits(next: Next, p: nat, q: nat, marks: Marks, w: Parser, rank: nat, size: nat) {
    match next
    case Advance => p <= q < size && Ready(w) && MarksOk(w.core.state, marks, q + 1)
      && (forall k :: k in marks ==> marks[k] <= q)
    case Repeat => p <= q < size && Mid(w) && Rank(w.core.state) < rank && MarksOk(w.core.state, marks, q)
    case Return(n) =>
      && p <= n <= size
      && (w.errno.OK? || w.errno.Paused? ==> Ready(w.(errno := OK)))
      && (w.errno.Paused? && n == p ==> Rank(w.core.state) < rank)
  }

  // A pass over the byte at p, from parser v.
  ghost predicate PassAt(v: Parser, t: Turn, data: seq<byte>, p: nat, marks: Marks) {
    Mid(v) && p < |data| && t == SwitchOn(v.core, data[p]) && MarksOk(v.core.state, marks, p)
  }

  // What the pass starts from.
  ghost predicate Under(
    r: Aim, t0: seq<Event>, evs: seq<Event>, p: nat, v: Parser, data: seq<byte>, skip: Answers, marks: Marks,
    trace: seq<Event>)
  {
    Doing(r, evs, p, v, data, skip) && Shown(trace, marks, data, p, t0 + evs)
  }

  lemma FailTurn(
    v: Parser, t: Turn, data: seq<byte>, p: nat, marks: Marks, skip: Answers, r: Aim, t0: seq<Event>, evs: seq<Event>,
    trace: seq<Event>)
    requires PassAt(v, t, data, p, marks) && t.act.Fail?
    ensures var w := After(v, t, skip);
            && Fits(Return(p), p, p, marks, w, Rank(v.core.state), |data|)
            && (Under(r, t0, evs, p, v, data, skip, marks, trace) ==>
                  Followed(r, t0, evs, data, skip, Return(p), p, marks, w, trace))
  {
    hide SwitchOn, RunMid, Merge, Pending, Spared, SparedMid;
    if Under(r, t0, evs, p, v, data, skip, marks, trace) {
      DoingPass(r, evs, p, v, data, skip);
      Failed(r, t0, data, skip, p, After(v, t, skip), trace, marks);
    }
  }

  lemma QuietTurn(
    v: Parser, t: Turn, data: seq<byte>, p: nat, marks: Marks, marks': Marks, skip: Answers, r: Aim, t0: seq<Event>,
    evs: seq<Event>, trace: seq<Event>)
    requires PassAt(v, t, data, p, marks) && !TakesBody(v.core.state)
    requires t.act.Break? || t.act.Again? || t.act.Keep? || t.act.Mark?
    requires marks' == if t.act.Mark? then marks[t.act.kind := p] else marks
    ensures var w, next := After(v, t, skip), if t.act.Again? then Repeat else Advance;
            && Fits(next, p, p, marks', w, Rank(v.core.state), |data|)
            && (Under(r, t0, evs, p, v, data, skip, marks, trace) ==>
                  Followed(r, t0, evs + Emits(t.act, data[p]), data, skip, next, p, marks', w, trace))
  {
    hide SwitchOn, Run, RunMid, Merge, Pending, Shown, Spared, SparedMid;
    if Under(r, t0, evs, p, v, data, skip, marks, trace) {
      DoingPass(r, evs, p, v, data, skip);
      if t.act.Break? || t.act.Again? {
        assert marks == map[] && evs + [] == evs;
        ShownUnmarked(trace, data, p, t0 + evs);
        ShownUnmarked(trace, data, p + 1, t0 + evs);
      } else {
        ShownByte(trace, t.act.kind, marks, marks', data, p, t0 + evs);
        assert t0 + evs + [Data(t.act.kind, [data[p]])] == t0 + (evs + Emits(t.act, data[p]));
      }
    }
  }

  lemma NotifyTurn(
    v: Parser, t: Turn, data: seq<byte>, p: nat, marks: Marks, skip: Answers, r: Aim, t0: seq<Event>, evs: seq<Event>,
    trace: seq<Event>, e: Errno)
    requires PassAt(v, t, data, p, marks) && (t.act.Notify? || t.act.Leave?)
    requires e.OK? || (IsStop(e) && e != CbNotify(HeadersComplete))
    ensures var w := After(v, t, skip).(errno := e);
            var next := if t.act.Leave? || !e.OK? then Return(p + 1) else Advance;
            && Fits(next, p, p, marks, w, Rank(v.core.state), |data|)
            && (Under(r, t0, evs, p, v, data, skip, marks, trace) ==>
                  Followed(r, t0, evs + Emits(t.act, data[p]), data, skip, next, p, marks, w,
                           trace + Emits(t.act, data[p])))
  {
    hide SwitchOn, Run, RunMid, Merge, Pending, Shown, Spared, SparedMid;
    if Under(r, t0, evs, p, v, data, skip, marks, trace) {
      DoingPass(r, evs, p, v, data, skip);
      var w, told := After(v, t, skip), Emits(t.act, data[p])[0];
      assert marks == map[];
      ShownUnmarked(trace, data, p, t0 + evs);
      MergeAppend(trace, t0 + evs, told);
      assert t0 + evs + [told] == t0 + (evs + [told]);
      if t.act.Leave? {
        Leaves(r, t0, data, skip, w, trace + [told], e);
      } else if e.OK? {
        ShownUnmarked(trace + [told], data, p + 1, t0 + (evs + [told]));
      } else {
        StoppedBetween(r, t0, evs + [told], data, skip, p + 1, w, w.(errno := e), trace + [told]);
      }
    }
  }

  // w: the parser after on_headers_complete; when the reply is neither 0 nor 1, it is an error and skip is irrelevant.
  lemma HeadTurn(
    v: Parser, t: Turn, data: seq<byte>, p: nat, marks: Marks, skip: Answers, r: Aim, t0: seq<Event>, evs: seq<Event>,
    trace: seq<Event>, e: Errno, w: Parser)
    requires PassAt(v, t, data, p, marks) && t.act.Head? && (e.OK? || e.Paused? || e == CbNotify(HeadersComplete))
    requires w.errno == e && w.core == t.core.(flags := w.core.flags) && w.nread == v.nread && w.heads == v.heads + 1
    ensures var next := if e.OK? then Repeat else Return(p);
            && Fits(next, p, p, marks, w, Rank(v.core.state), |data|)
            && (Under(r, t0, evs, p, v, data, skip, marks, trace) && (r.exact ==> !e.OK?)
                && Cleared(w, skip) == After(v, t, skip) ==>
                  Followed(r, t0, evs + [Told(HeadersComplete)], data, skip, next, p, marks, w,
                           trace + [Told(HeadersComplete)]))
  {
    hide SwitchOn, Run, RunMid, Merge, Pending, Shown, Spared, SparedMid;
    if Under(r, t0, evs, p, v, data, skip, marks, trace) && (r.exact ==> !e.OK?)
      && Cleared(w, skip) == After(v, t, skip) {
      DoingPass(r, evs, p, v, data, skip);
      var told := Told(HeadersComplete);
      assert marks == map[];
      ShownUnmarked(trace, data, p, t0 + evs);
      MergeAppend(trace, t0 + evs, told);
      assert t0 + evs + [told] == t0 + (evs + [told]);
      if e.OK? {
        NotHanded(r, evs + [told], p, w, data, skip);
        ShownUnmarked(trace + [told], data, p, t0 + (evs + [told]));
      } else {
        StoppedDoing(r, t0, evs + [told], data, skip, p, After(v, t, skip), w, trace + [told]);
      }
    }
  }

  lemma FlushTurn(
    v: Parser, t: Turn, data: seq<byte>, p: nat, marks: Marks, marked: Marks, skip: Answers, r: Aim, t0: seq<Event>,
    evs: seq<Event>, trace: seq<Event>, trace': seq<Event>, e: Errno)
    requires PassAt(v, t, data, p, marks) && (t.act.Flush? || t.act.MarkFlush? || t.act.FlushAgain?)
    requires marked == if t.act.MarkFlush? then marks[t.act.kind := p] else marks
    requires t.act.kind in marked ==>
               marked[t.act.kind] <= p && trace' == trace + [Data(t.act.kind, data[marked[t.act.kind]..p])]
    requires t.act.kind !in marked ==> trace' == trace && e.OK?
    requires e.OK? || (IsStop(e) && e != CbNotify(HeadersComplete))
    ensures var w := After(v, t, skip).(errno := e);
            var next := if !e.OK? then Return(if t.act.FlushAgain? then p else p + 1)
                        else if t.act.FlushAgain? then Repeat else Advance;
            && Fits(next, p, p, if e.OK? then marked - {t.act.kind} else marked, w, Rank(v.core.state), |data|)
            && (Under(r, t0, evs, p, v, data, skip, marks, trace) && (r.exact && t.act.kind in marked ==> !e.OK?) ==>
                  Followed(r, t0, evs + Emits(t.act, data[p]), data, skip, next, p,
                           if e.OK? then marked - {t.act.kind} else marked, w, trace'))
  {
    hide SwitchOn, Run, RunMid, Merge, Pending, Shown, Spared, SparedMid;
    var k := t.act.kind;
    assert marked - {k} == map[];
    if Under(r, t0, evs, p, v, data, skip, marks, trace) && (r.exact && k in marked ==> !e.OK?) {
      DoingPass(r, evs, p, v, data, skip);
      var w, evs' := After(v, t, skip), evs + Emits(t.act, data[p]);
      FlushShown(t, data, p, marks, marked, t0, evs, trace, trace');
      if e.OK? {
        if t.act.FlushAgain? { NotHanded(r, evs', p, w, data, skip); }
        ShownUnmarked(trace', data, if t.act.FlushAgain? then p else p + 1, t0 + evs');
      } else if t.act.FlushAgain? {
        StoppedDoing(r, t0, evs', data, skip, p, w, w.(errno := e), trace');
      } else {
        StoppedBetween(r, t0, evs', data, skip, p + 1, w, w.(errno := e), trace');
      }
    }
  }

  // What was marked has been reported.
  lemma FlushShown(
    t: Turn, data: seq<byte>, p: nat, marks: Marks, marked: Marks, t0: seq<Event>, evs: seq<Event>, trace: seq<Event>,
    trace': seq<Event>)
    requires p < |data| && (t.act.Flush? || t.act.MarkFlush? || t.act.FlushAgain?)
    requires Shown(trace, marks, data, p, t0 + evs)
    requires if t.act.MarkFlush? then marks == map[] && marked == map[t.act.kind := p] && !t.act.kind.Body?
             else marked == marks
    requires t.act.kind !in marked ==> marked == map[] && trace' == trace && t.act.Flush? && t.act.kind.Body?
    requires t.act.kind in marked ==>
               && marked == map[t.act.kind := marked[t.act.kind]] && marked[t.act.kind] <= p
               && (t.act.kind.Body? ==> t.act.Flush? && marked[t.act.kind] < p)
               && trace' == trace + [Data(t.act.kind, data[marked[t.act.kind]..p])]
    ensures Merge(trace') == Merge(t0 + (evs + Emits(t.act, data[p])))
  {
    hide Merge, Pending, Shown;
    var k := t.act.kind;
    if t.act.MarkFlush? {
      ShownUnmarked(trace, data, p, t0 + evs);
      ShownMarked(trace, k, p, data, p, t0 + evs);
    }
    if k in marked {
      ShownFlush(trace, k, marked[k], data, p, t0 + evs);
      assert t0 + evs + [Data(k, [])] == t0 + (evs + [Data(k, [])]);
    } else {
      ShownUnmarked(trace, data, p, t0 + evs);
    }
    assert evs + [] == evs;
  }

  function MarkBody(marks: Marks, p: nat): Marks { if Body in marks then marks else marks[Body := p] }

  // A bulk jump over k body bytes that leaves the message unfinished.
  lemma BodyJump(
    v: Parser, data: seq<byte>, p: nat, k: nat, marks: Marks, skip: Answers, r: Aim, t0: seq<Event>, evs: seq<Event>,
    trace: seq<Event>)
    requires Ready(v) && TakesBody(v.core.state) && MarksOk(v.core.state, marks, p)
    requires 1 <= k && p + k <= |data| && InBody(v, k)
    ensures var w, q := Fewer(v, k), p + k - 1;
            && Fits(Advance, p, q, MarkBody(marks, p), w, Rank(v.core.state), |data|)
            && (Under(r, t0, evs, p, v, data, skip, marks, trace) ==>
                  Followed(r, t0, evs + Singles(Body, data[p..p + k]), data, skip, Advance, q, MarkBody(marks, p), w,
                           trace))
  {
    BodyFits(v, p, k, marks, |data|);
    hide SwitchOn, Run, RunMid, Merge, Pending, Shown, Spared, SparedMid, Fits, Inv;
    var rest := data[p..];
    BodyNeedsNoCount(v, rest, skip);
    BodyStretch(v, rest, k, skip);
    assert rest[..k] == data[p..p + k] && rest[k..] == data[p + k..];
    if Under(r, t0, evs, p, v, data, skip, marks, trace) {
      KeepsBody(r, v, rest, k, skip);
      PrependPrepend(evs, p, Singles(Body, data[p..p + k]), k, Run(Fewer(v, k), data[p + k..], skip));
      BodyShown(data, p, k, marks, t0, evs, trace);
    }
  }

  lemma BodyFits(v: Parser, p: nat, k: nat, marks: Marks, size: nat)
    requires Ready(v) && TakesBody(v.core.state) && MarksOk(v.core.state, marks, p)
    requires 1 <= k && p + k <= size && InBody(v, k)
    ensures Fits(Advance, p, p + k - 1, MarkBody(marks, p), Fewer(v, k), Rank(v.core.state), size)
    ensures marks.Keys <= {Body} && (Body in marks ==> marks[Body] <= p)
  {
  }

  // Body bytes do not count.
  lemma KeepsBody(r: Aim, v: Parser, rest: seq<byte>, k: nat, skip: Answers)
    requires Ready(v) && Mid(v) && rest != [] && k <= |rest| && InBody(v, k) && KeepsMid(r, v, rest, skip)
    ensures Ready(Fewer(v, k)) && Keeps(r, Fewer(v, k), rest[k..], skip)
  {
    hide SparedMid;
    assert Enter(v) == v && Spared(v, rest + r.more, skip) == SparedMid(v, rest + r.more, skip);
    hide Spared;
    SparedBody(v, rest + r.more, k, skip);
    assert (rest + r.more)[k..] == rest[k..] + r.more;
  }

  lemma BodyShown(data: seq<byte>, p: nat, k: nat, marks: Marks, t0: seq<Event>, evs: seq<Event>, trace: seq<Event>)
    requires 1 <= k && p + k <= |data| && marks.Keys <= {Body} && (Body in marks ==> marks[Body] <= p)
    requires Shown(trace, marks, data, p, t0 + evs)
    ensures Shown(trace, MarkBody(marks, p), data, p + k, t0 + (evs + Singles(Body, data[p..p + k])))
  {
    hide Merge, Pending, Shown;
    var m := MarkBody(marks, p)[Body];
    assert MarkBody(marks, p) == map[Body := m];
    if Body !in marks {
      assert marks == map[];
      ShownUnmarked(trace, data, p, t0 + evs);
      ShownMarked(trace, Body, m, data, p, t0 + evs);
    }
    ShownExtend(trace, Body, m, data, p, p + k, t0 + evs);
    assert t0 + evs + Singles(Body, data[p..p + k]) == t0 + (evs + Singles(Body, data[p..p + k]));
  }

  // The last byte of an identity body, reported before message_complete.
  lemma LastByte(v: Parser, bytes: seq<byte>, skip: Answers)
    requires Ready(v) && bytes != [] && v.core.state.BodyIdentity? && v.core.contentLength == 1
    ensures var w := v.(core := v.core.(contentLength := 0, state := MessageDone));
            Mid(w) && Run(v, bytes, skip) == Prepend([Data(Body, [bytes[0]])], 0, RunMid(w, bytes, skip))
  {
    hide Run, RunMid;
    BodyNeedsNoCount(v, bytes, skip);
    FirstPass(v, bytes, skip);
  }

  // An identity body whose last byte has been delivered, with the pointer on that byte.
  function Ended(v: Parser): Parser { v.(core := v.core.(contentLength := 0, state := MessageDone)) }

  lemma RunToEnd(v: Parser, rest: seq<byte>, n: nat, skip: Answers)
    requires Ready(v) && v.core.state.BodyIdentity? && 1 <= n == v.core.contentLength as int && n <= |rest|
    ensures Mid(Ended(v))
    ensures Run(v, rest, skip) == Prepend(Singles(Body, rest[..n]), n - 1, RunMid(Ended(v), rest[n - 1..], skip))
  {
    hide SwitchOn, Run, RunMid, Inv;
    var one, some, last := Fewer(v, n - 1), Singles(Body, rest[..n - 1]), rest[n - 1..];
    BodyStretch(v, rest, n - 1, skip);
    LastByte(one, last, skip);
    assert one.(core := one.core.(contentLength := 0, state := MessageDone)) == Ended(v);
    hide Ready, Mid;
    PrependPrepend(some, n - 1, [Data(Body, [last[0]])], 0, RunMid(Ended(v), last, skip));
    assert rest[..n][..n - 1] == rest[..n - 1] && rest[..n][n - 1..] == [last[0]];
  }

  lemma HandingEnd(v: Parser, data: seq<byte>, p: nat, n: nat, skip: Answers, r: Aim, evs: seq<Event>)
    requires Ready(v) && v.core.state.BodyIdentity? && 1 <= n == v.core.contentLength as int && p + n <= |data|
    requires Doing(r, evs, p, v, data, skip)
    ensures Handing(r, evs + Singles(Body, data[p..p + n]), p + n - 1, Ended(v), data, skip)
  {
    hide SwitchOn, Run, RunMid, Inv, Spared, SparedMid;
    var rest := data[p..];
    assert rest[..n] == data[p..p + n] && rest[n - 1..] == data[p + n - 1..];
    BodyNeedsNoCount(v, rest, skip);
    RunToEnd(v, rest, n, skip);
    PrependPrepend(evs, p, Singles(Body, data[p..p + n]), n - 1, RunMid(Ended(v), data[p + n - 1..], skip));
    KeepsBody(r, v, rest, n - 1, skip);
    SparedLast(Fewer(v, n - 1), rest[n - 1..] + r.more, skip);
  }

  // A bulk jump to the last byte of an identity body of n bytes.
  lemma BodyEnd(
    v: Parser, data: seq<byte>, p: nat, n: nat, marks: Marks, skip: Answers, r: Aim, t0: seq<Event>, evs: seq<Event>,
    trace: seq<Event>, e: Errno)
    requires Ready(v) && v.core.state.BodyIdentity? && MarksOk(v.core.state, marks, p)
    requires e.OK? || (IsStop(e) && e != CbNotify(HeadersComplete))
    requires 1 <= n == v.core.contentLength as int && p + n <= |data|
    ensures var w, q := Ended(v), p + n - 1;
            var next := if e.OK? then Repeat else Return(q);
            && Fits(next, p, q, map[], w.(errno := e), Rank(v.core.state), |data|)
            && (Under(r, t0, evs, p, v, data, skip, marks, trace) ==>
                  Followed(r, t0, evs + Singles(Body, data[p..p + n]), data, skip, next, q, map[], w.(errno := e),
                           trace + [Data(Body, data[MarkBody(marks, p)[Body]..p + n])]))
  {
    hide SwitchOn, Run, RunMid, Merge, Pending, Shown, Doing, Handing;
    var w, q := Ended(v), p + n - 1;
    if Under(r, t0, evs, p, v, data, skip, marks, trace) {
      var evs', m := evs + Singles(Body, data[p..p + n]), MarkBody(marks, p)[Body];
      var trace' := trace + [Data(Body, data[m..p + n])];
      HandingEnd(v, data, p, n, skip, r, evs);
      assert Merge(trace') == Merge(t0 + evs') by {
        BodyShown(data, p, n, marks, t0, evs, trace);
        assert MarkBody(marks, p) == map[Body := m];
        ShownFlush(trace, Body, m, data, p + n, t0 + evs');
      }
      if e.OK? {
        NotHanded(r, evs', q, w, data, skip);
        ShownUnmarked(trace', data, q, t0 + evs');
      } else {
        StoppedDoing(r, t0, evs', data, skip, q, w, w.(errno := e), trace');
      }
    }
  }

  lemma BodyLength(c: Core)
    requires Inv(c)
    ensures c.state.BodyIdentity? || c.state.ChunkData? ==> 0 < c.contentLength < ULLONG_MAX
  {
  }

  // The byte at p is counted, and may exhaust the header limit.
  lemma Entering(
    v: Parser, data: seq<byte>, p: nat, marks: Marks, skip: Answers, r: Aim, t0: seq<Event>, evs: seq<Event>,
    trace: seq<Event>)
    requires Between(r, evs, p, v, data, skip) && p < |data| && Shown(trace, marks, data, p, t0 + evs)
    ensures if Enter(v).nread > MAX_HEADER_SIZE then
              Returned(r, t0, data, skip, p, Enter(v).(errno := HeaderOverflow), trace)
            else Doing(r, evs, p, Enter(v), data, skip)
  {
    hide SwitchOn, Finish, Merge, Pending, Shown, SparedMid;
    assert data[p..] + r.more != [];
    if Enter(v).nread > MAX_HEADER_SIZE {
      assert evs + [] == evs;
      assert !r.spared;
      Failed(r, t0, data, skip, p, Enter(v).(errno := HeaderOverflow), trace, marks);
    }
  }

  // The end of the buffer: what is marked, of kind k from m, has been reported.
  lemma EndOfBuffer(
    v: Parser, data: seq<byte>, marks: Marks, skip: Answers, r: Aim, t0: seq<Event>, evs: seq<Event>, trace: seq<Event>,
    trace': seq<Event>, e: Errno)
    requires Between(r, evs, |data|, v, data, skip) && Shown(trace, marks, data, |data|, t0 + evs)
    requires marks == map[] ==> trace' == trace && e.OK?
    requires |marks| <= 1 && forall k :: k in marks ==>
               marks[k] < |data| && trace' == trace + [Data(k, data[marks[k]..])]
               && (e.OK? || (IsStop(e) && e != CbNotify(HeadersComplete)))
    ensures Returned(r, t0, data, skip, |data|, v.(errno := e), trace')
  {
    hide SwitchOn, Merge, Pending, Shown, Spared, Run;
    assert Merge(trace') == Merge(t0 + evs) by {
      if marks == map[] {
        ShownUnmarked(trace, data, |data|, t0 + evs);
      } else {
        var k :| k in marks;
        assert marks == map[k := marks[k]] by { OnlyKey(marks, k); }
        ShownFlush(trace, k, marks[k], data, |data|, t0 + evs);
        assert data[marks[k]..] == data[marks[k]..|data|];
      }
    }
    if e.OK? {
      assert data[|data|..] == [] && evs + [] == evs && trace' + [] == trace';
      assert Run(v, [], skip) == Result(v, [], 0, Go) by { EmptyRun(v, skip); }
    } else {
      StoppedBetween(r, t0, evs, data, skip, |data|, v, v.(errno := e), trace');
    }
  }

  lemma OnlyKey(marks: Marks, k: Kind)
    requires k in marks && |marks| <= 1
    ensures marks == map[k := marks[k]]
  {
    assert |marks.Keys - {k}| == 0;
    assert marks.Keys == {k};
  }

  // The account opened when a call starts.
  ghost function Account(v: Parser, data: seq<byte>, skip: Answers, more: seq<byte>, exact: bool): Aim
    requires Ready(v)
  {
    Aim(Run(v, data, skip), more, Spared(v, data + more, skip), exact)
  }

  lemma Starting(v: Parser, data: seq<byte>, skip: Answers, more: seq<byte>, exact: bool, t0: seq<Event>)
    requires Ready(v)
    ensures MarksOk(v.core.state, InitialMarks(v.core.state), 0)
    ensures Between(Account(v, data, skip, more, exact), [], 0, v, data, skip)
    ensures Shown(t0, InitialMarks(v.core.state), data, 0, t0 + [])
  {
    hide Run, Merge, Spared;
    InitialMarksOk(v.core.state);
    assert data[0..] == data && t0 + [] == t0;
    var r := Run(v, data, skip);
    assert [] + r.events == r.events;
    assert t0 + Pending(InitialMarks(v.core.state), data, 0) == t0;
  }

  // What the end of the stream means: it completes a read-until-EOF body, is fine between messages, else is an error.
  ghost predicate AtEof(v: Parser, n: nat, w: Parser, t: seq<Event>) {
    if v.core.state.BodyIdentityEof? then
      n == 0 && t == [Told(MessageComplete)] && w == v.(errno := w.errno) && (w.errno.OK? || IsStop(w.errno))
    else if v.core.state.Dead? || v.core.state.StartReqOrRes? || v.core.state.StartRes? || v.core.state.StartReq? then
      n == 0 && t == [] && w == v
    else n == 1 && t == [] && w == v.(errno := InvalidEofState)
  }

  // u continues t, with data events no longer than n, and e is what the callbacks made of http_errno: the first one
  // that pauses or fails is the last one made, and it is the only way to such an error.
  ghost predicate Grew(policy: Policy, t: seq<Event>, u: seq<Event>, n: nat, e: Errno) {
    && t <= u && (forall i | |t| <= i < |u| :: u[i].Data? ==> |u[i].bytes| <= n)
    && (forall i | |t| < i < |u| :: Stopped(policy, u[..i]).OK?)
    && (if IsStop(e) then t != u && Stopped(policy, u) == e else t != u ==> Stopped(policy, u).OK?)
  }

  lemma GrewNone(policy: Policy, t: seq<Event>, n: nat, e: Errno)
    requires !IsStop(e)
    ensures Grew(policy, t, t, n, e)
  {
  }

  lemma GrewOn(policy: Policy, t: seq<Event>, u: seq<Event>, w: seq<Event>, n: nat, e: Errno)
    requires Grew(policy, t, u, n, OK) && Grew(policy, u, w, n, e)
    ensures Grew(policy, t, w, n, e)
  {
    hide Stopped;
    forall i | |t| < i < |w|
      ensures Stopped(policy, w[..i]).OK?
    {
      if i <= |u| { assert w[..i] == u[..i]; assert i == |u| ==> u[..i] == u; }
    }
    forall i | |t| <= i < |w|
      ensures w[i].Data? ==> |w[i].bytes| <= n
    {
      if i < |u| { assert w[i] == u[i]; }
    }
  }

  class HttpParser {
    var kind: MessageKind
    var flags: Flags
    var state: State
    var headerState: HeaderState
    var index: int
    var nread: nat
    var contentLength: uint64
    var major: uint16
    var minor: uint16
    var statusCode: uint16
    var verb: Method
    var errno: Errno
    var upgrade: bool
    var trace: seq<Event> // the callbacks made so far, oldest first

    function Fields(): Core
      reads this
    {
      Core(kind, flags, state, headerState, index, contentLength, major, minor, statusCode, verb, upgrade)
    }

    function View(): Parser
      reads this
    {
      Parser(Fields(), nread, errno, HeadsIn(trace))
    }

    ghost predicate Valid()
      reads this
    {
      errno.OK? || errno.Paused? ==> Ready(View().(errno := OK))
    }

    // http_parser_init, of fresh memory.
    constructor (kind: MessageKind)
      ensures Valid() && trace == [] && View() == Initial(kind)
    {
      this.kind := kind;
      flags, headerState, index, nread, contentLength, major, minor := NO_FLAGS, General, 0, 0, 0, 0, 0;
      statusCode, verb, errno, upgrade, trace := 0, DELETE, OK, false, [];
      state := Initial(kind).core.state;
    }

    // http_parser_init, of a parser that was used before.
    method Init(kind: MessageKind)
      modifies this
      ensures Valid() && trace == [] && View() == Initial(kind)
    {
      hide Inv;
      InitialReady(kind);
      Store(Initial(kind).core);
      nread, errno, trace := 0, OK, [];
    }

    // http_parser_pause; only for a parser that is not in an error state.
    method Pause(paused: bool)
      requires Valid() && (errno.OK? || errno.Paused?)
      modifies this`errno
      ensures Valid() && errno == if paused then Paused else OK
    {
      errno := if paused then Paused else OK;
    }

    method Store(c: Core)
      modifies this
      ensures Fields() == c && nread == old(nread) && errno == old(errno) && trace == old(trace)
    {
      kind, flags, state, headerState, index := c.kind, c.flags, c.state, c.headerState, c.index;
      contentLength, major, minor, statusCode, verb, upgrade := c.contentLength, c.major, c.minor, c.statusCode, c.verb,
        c.upgrade;
    }

    // A callback: settings->on_x(...), and what its reply does to http_errno.
    method Call(e: Event, policy: Policy) returns (stop: bool)
      requires errno.OK? && e != Told(HeadersComplete)
      modifies this`trace, this`errno
      ensures trace == old(trace) + [e] && errno == ErrnoOf(policy(trace), CbFor(e)) && stop == !errno.OK?
      ensures errno == Stopped(policy, trace) && HeadsIn(trace) == HeadsIn(old(trace))
    {
      HeadsSnoc(trace, e);
      assert errno.OK?; // assert(HTTP_PARSER_ERRNO(parser) == HPE_OK)
      trace := trace + [e];
      var reply := policy(trace);
      if reply.paused { errno := Paused; }
      if reply.code != 0 { errno := CbFor(e); }
      stop := errno != OK;
    }

    // CALLBACK_DATA_(k, upto - mark): report what is marked, if anything is, and unset the mark unless stopped.
    method CallData(k: Kind, data: seq<byte>, upto: nat, marks: Marks, policy: Policy)
      returns (stop: bool, marks': Marks)
      requires errno.OK? && (k in marks ==> marks[k] <= upto) && upto <= |data|
      modifies this`trace, this`errno
      ensures k !in marks ==> !stop && trace == old(trace) && errno.OK?
      ensures k in marks ==>
                trace == old(trace) + [Data(k, data[marks[k]..upto])] && errno == ErrnoOf(policy(trace), CbData(k))
      ensures stop == !errno.OK? && HeadsIn(trace) == HeadsIn(old(trace))
      ensures marks' == if stop then marks else marks - {k}
      ensures Grew(policy, old(trace), trace, |data|, errno)
    {
      stop, marks' := false, marks;
      assert errno.OK?; // assert(HTTP_PARSER_ERRNO(parser) == HPE_OK)
      if k in marks {
        stop := Call(Data(k, data[marks[k]..upto]), policy);
        if !stop { marks' := marks - {k}; }
      }
    }

    // on_headers_complete: 1 announces that no body follows, anything but 0 and 1 is an error.
    method CallHead(policy: Policy) returns (stop: bool)
      requires errno.OK?
      modifies this`trace, this`errno, this`flags
      ensures trace == old(trace) + [Told(HeadersComplete)] && HeadsIn(trace) == HeadsIn(old(trace)) + 1
      ensures var code := policy(trace).code;
              && (errno.OK? || IsStop(errno)) && stop == !errno.OK?
              && (code == 1 ==> flags == old(flags).(skipBody := true))
              && (code != 1 ==> flags == old(flags))
              && (code != 0 && code != 1 ==> errno.CbNotify?)
      ensures errno == Stopped(policy, trace)
    {
      HeadsSnoc(trace, Told(HeadersComplete));
      trace := trace + [Told(HeadersComplete)];
      var reply := policy(trace);
      if reply.paused { errno := Paused; }
      if reply.code == 1 {
        flags := flags.(skipBody := true);
      } else if reply.code != 0 {
        errno := CbNotify(HeadersComplete);
      }
      stop := errno != OK;
    }

    // CALLBACK_NOTIFY, and the return after an upgrade.
    method NotifyPass(
      t: Turn, data: seq<byte>, p: nat, marks: Marks, policy: Policy,
      ghost v: Parser, ghost skip: Answers, ghost r: Aim, ghost t0: seq<Event>, ghost evs: seq<Event>)
      returns (next: Next)
      requires PassAt(v, t, data, p, marks) && View() == After(v, t, skip) && (t.act.Notify? || t.act.Leave?)
      modifies this
      ensures Fits(next, p, p, marks, View(), Rank(v.core.state), |data|) && (next.Return? || errno.OK?)
      ensures Fair(policy, skip, r) && Under(r, t0, evs, p, v, data, skip, marks, old(trace)) ==>
                Followed(r, t0, evs + Emits(t.act, data[p]), data, skip, next, p, marks, View(), trace)
      ensures Grew(policy, old(trace), trace, |data|, errno)
    {
      hide SwitchOn, Run, RunMid, Merge, Inv, Pending, Shown, Doing, MarksOk, Fits, Followed;
      ghost var told := trace;
      var note := if t.act.Leave? then MessageComplete else t.act.note;
      var stop := Call(Told(note), policy);
      next := if stop || t.act.Leave? then Return(p + 1) else Advance;
      NotifyTurn(v, t, data, p, marks, skip, r, t0, evs, told, errno);
    }

    // on_headers_complete.
    method HeadPass(
      t: Turn, data: seq<byte>, p: nat, marks: Marks, policy: Policy,
      ghost v: Parser, ghost skip: Answers, ghost r: Aim, ghost t0: seq<Event>, ghost evs: seq<Event>)
      returns (next: Next)
      requires PassAt(v, t, data, p, marks) && View() == Parser(t.core, v.nread, OK, v.heads) && t.act.Head?
      modifies this
      ensures Fits(next, p, p, marks, View(), Rank(v.core.state), |data|) && (next.Return? || errno.OK?)
      ensures Fair(policy, skip, r) && Under(r, t0, evs, p, v, data, skip, marks, old(trace)) ==>
                Followed(r, t0, evs + Emits(t.act, data[p]), data, skip, next, p, marks, View(), trace)
      ensures Grew(policy, old(trace), trace, |data|, errno)
    {
      hide SwitchOn, Run, RunMid, Merge, Inv, Pending, Shown, Doing, MarksOk, Fits, Followed;
      ghost var told := trace;
      var stop := CallHead(policy);
      next := if stop then Return(p) else Repeat;
      HeadTurn(v, t, data, p, marks, skip, r, t0, evs, told, errno, View());
    }

    // MARK, CALLBACK_DATA and CALLBACK_DATA_NOADVANCE.
    method FlushPass(
      t: Turn, data: seq<byte>, p: nat, marks: Marks, policy: Policy,
      ghost v: Parser, ghost skip: Answers, ghost r: Aim, ghost t0: seq<Event>, ghost evs: seq<Event>)
      returns (next: Next, marks': Marks)
      requires PassAt(v, t, data, p, marks) && View() == After(v, t, skip)
      requires t.act.Flush? || t.act.MarkFlush? || t.act.FlushAgain?
      modifies this
      ensures Fits(next, p, p, marks', View(), Rank(v.core.state), |data|) && (next.Return? || errno.OK?)
      ensures Fair(policy, skip, r) && Under(r, t0, evs, p, v, data, skip, marks, old(trace)) ==>
                Followed(r, t0, evs + Emits(t.act, data[p]), data, skip, next, p, marks', View(), trace)
      ensures Grew(policy, old(trace), trace, |data|, errno)
    {
      hide SwitchOn, Run, RunMid, Merge, Inv, Pending, Shown, Doing, MarksOk, Fits, Followed;
      ghost var told := trace;
      var marked := if t.act.MarkFlush? then marks[t.act.kind := p] else marks;
      assert t.act.kind in marked ==> marked[t.act.kind] <= p by { MarksBehind(v.core.state, marks, p); }
      var stop;
      stop, marks' := CallData(t.act.kind, data, p, marked, policy);
      next := if stop then Return(if t.act.FlushAgain? then p else p + 1)
              else if t.act.FlushAgain? then Repeat else Advance;
      FlushTurn(v, t, data, p, marks, marked, skip, r, t0, evs, told, trace, errno);
    }

    // One pass through the switch, outside the states whose bytes are taken in bulk.
    method SwitchPass(
      data: seq<byte>, p: nat, marks: Marks, policy: Policy,
      ghost skip: Answers, ghost r: Aim, ghost t0: seq<Event>, ghost evs: seq<Event>)
      returns (next: Next, marks': Marks, ghost evs': seq<Event>)
      requires p < |data| && Mid(View()) && MarksOk(state, marks, p) && !TakesBody(state)
      modifies this
      ensures Fits(next, p, p, marks', View(), Rank(old(state)), |data|) && (next.Return? || errno.OK?)
      ensures Fair(policy, skip, r) && Under(r, t0, evs, p, old(View()), data, skip, marks, old(trace))
              ==> Followed(r, t0, evs', data, skip, next, p, marks', View(), trace)
      ensures Grew(policy, old(trace), trace, |data|, errno)
    {
      hide SwitchOn, Run, RunMid, Merge, Inv, Pending, Shown, Doing, MarksOk, Fits, Followed;
      var t := SwitchOn(Fields(), data[p]);
      ghost var v, told := View(), trace;
      assert PassAt(v, t, data, p, marks);
      evs', marks' := evs + Emits(t.act, data[p]), marks;
      Store(t.core);
      if t.resets { nread := 0; }
      if t.act.Fail? {
        errno := t.act.error;
        next, evs' := Return(p), evs;
        FailTurn(v, t, data, p, marks, skip, r, t0, evs, told);
      } else if t.act.Notify? || t.act.Leave? {
        next := NotifyPass(t, data, p, marks, policy, v, skip, r, t0, evs);
      } else if t.act.Head? {
        next := HeadPass(t, data, p, marks, policy, v, skip, r, t0, evs);
      } else if t.act.Flush? || t.act.MarkFlush? || t.act.FlushAgain? {
        next, marks' := FlushPass(t, data, p, marks, policy, v, skip, r, t0, evs);
      } else {
        if t.act.Mark? { marks' := marks[t.act.kind := p]; }
        next := if t.act.Again? then Repeat else Advance;
        QuietTurn(v, t, data, p, marks, marks', skip, r, t0, evs, told);
      }
    }

    // s_body_identity when the buffer holds the rest of the body: deliver it and see its last byte again.
    method LastBodyPass(
      data: seq<byte>, p: nat, marks: Marks, policy: Policy,
      ghost skip: Answers, ghost r: Aim, ghost t0: seq<Event>, ghost evs: seq<Event>)
      returns (next: Next, q: nat, marks': Marks, ghost evs': seq<Event>)
      requires p < |data| && Mid(View()) && MarksOk(state, marks, p) && state.BodyIdentity?
      requires p + contentLength as int <= |data|
      modifies this
      ensures p <= q < |data|
      ensures Fits(next, p, q, marks', View(), Rank(old(state)), |data|) && (next.Return? || errno.OK?)
      ensures Fair(policy, skip, r) && Under(r, t0, evs, p, old(View()), data, skip, marks, old(trace))
              ==> Followed(r, t0, evs', data, skip, next, q, marks', View(), trace)
      ensures Grew(policy, old(trace), trace, |data|, errno)
    {
      hide SwitchOn, Run, RunMid, Merge, Pending, Shown, Doing, Fits, Followed, MarksOk, Inv, Under, Fair, HeadsIn;
      hide Grew;
      BodyLength(Fields());
      assert contentLength != 0 && contentLength != ULLONG_MAX;
      ghost var v, told := View(), trace;
      var n := contentLength as int;
      MarksBehind(state, marks, p);
      var marked := MarkBody(marks, p);
      q, evs' := p + n - 1, evs + Singles(Body, data[p..p + n]);
      contentLength, state := 0, MessageDone;
      assert View() == Ended(v);
      var stop;
      stop, marks' := CallData(Body, data, p + n, marked, policy);
      marks', next := map[], if stop then Return(q) else Repeat;
      BodyEnd(v, data, p, n, marks, skip, r, t0, evs, told, errno);
      assert View() == Ended(v).(errno := errno);
    }

    // One pass in s_body_identity, s_body_identity_eof or s_chunk_data: the pointer jumps over what the buffer holds.
    method BodyPass(
      data: seq<byte>, p: nat, marks: Marks, policy: Policy,
      ghost skip: Answers, ghost r: Aim, ghost t0: seq<Event>, ghost evs: seq<Event>)
      returns (next: Next, q: nat, marks': Marks, ghost evs': seq<Event>)
      requires p < |data| && Mid(View()) && MarksOk(state, marks, p) && TakesBody(state)
      modifies this
      ensures p <= q < |data|
      ensures Fits(next, p, q, marks', View(), Rank(old(state)), |data|) && (next.Return? || errno.OK?)
      ensures Fair(policy, skip, r) && Under(r, t0, evs, p, old(View()), data, skip, marks, old(trace))
              ==> Followed(r, t0, evs', data, skip, next, q, marks', View(), trace)
      ensures Grew(policy, old(trace), trace, |data|, errno)
    {
      hide SwitchOn, Run, RunMid, Merge, Pending, Shown, Doing, Fits, Followed, MarksOk, Inv;
      BodyLength(Fields());
      ghost var v := View();
      assert state.BodyIdentityEof? || (contentLength != 0 && contentLength != ULLONG_MAX);
      if state.BodyIdentity? && contentLength as int <= |data| - p {
        next, q, marks', evs' := LastBodyPass(data, p, marks, policy, skip, r, t0, evs);
      } else {
        var toRead := if state.BodyIdentityEof? || contentLength as int > |data| - p then |data| - p
          else contentLength as int;
        marks', next, q := MarkBody(marks, p), Advance, p + toRead - 1;
        if !state.BodyIdentityEof? {
          contentLength := (contentLength as int - toRead) as uint64;
          if contentLength == 0 { state := ChunkDataAlmostDone; }
        }
        assert View() == Fewer(v, toRead);
        evs' := evs + Singles(Body, data[p..p + toRead]);
        BodyJump(v, data, p, toRead, marks, skip, r, t0, evs, trace);
      }
    }

    // One of the four callbacks after the loop.
    method FinalCall(k: Kind, data: seq<byte>, marks: Marks, policy: Policy) returns (stop: bool, left: Marks)
      requires errno.OK? && |marks| <= 1 && forall l :: l in marks ==> marks[l] < |data|
      modifies this`trace, this`errno
      ensures k !in marks ==> left == marks && trace == old(trace) && errno.OK?
      ensures k in marks ==> (stop || left == map[]) && trace == old(trace) + [Data(k, data[marks[k]..])]
                             && (errno.OK? || (IsStop(errno) && errno != CbNotify(HeadersComplete)))
      ensures stop == !errno.OK? && Grew(policy, old(trace), trace, |data|, errno)
      ensures HeadsIn(trace) == HeadsIn(old(trace))
    {
      if k in marks { OnlyKey(marks, k); }
      stop, left := CallData(k, data, |data|, marks, policy);
      if k in marks { assert data[marks[k]..|data|] == data[marks[k]..]; }
    }

    // The callbacks for marks left over at the end of the buffer; at most one is set.
    method FinalCalls(data: seq<byte>, marks: Marks, policy: Policy)
      requires errno.OK? && |marks| <= 1 && forall k :: k in marks ==> marks[k] < |data|
      modifies this`trace, this`errno
      ensures errno.OK? || (IsStop(errno) && errno != CbNotify(HeadersComplete))
      ensures HeadsIn(trace) == HeadsIn(old(trace))
      ensures marks == map[] ==> trace == old(trace) && errno.OK?
      ensures forall k :: k in marks ==> trace == old(trace) + [Data(k, data[marks[k]..])]
      ensures Grew(policy, old(trace), trace, |data|, errno)
    {
      forall k | k in marks
        ensures marks.Keys == {k}
      {
        OnlyKey(marks, k);
      }
      ghost var was := trace;
      var stop, left := FinalCall(Field, data, marks, policy);
      if !stop { stop, left := FinalCall(Value, data, left, policy); }
      if !stop { stop, left := FinalCall(Url, data, left, policy); }
      if !stop { stop, left := FinalCall(Body, data, left, policy); }
      forall k | k in marks
        ensures trace == was + [Data(k, data[marks[k]..])]
      {
        if k == Field { } else if k == Value { } else if k == Url { } else { }
      }
    }

    // The end of the buffer.
    method EndOfData(
      data: seq<byte>, marks: Marks, policy: Policy,
      ghost skip: Answers, ghost r: Aim, ghost t0: seq<Event>, ghost evs: seq<Event>)
      requires data != [] && Ready(View()) && MarksOk(state, marks, |data|) && forall k ::
               k in marks ==> marks[k] < |data|
      modifies this`trace, this`errno
      ensures errno.OK? || IsStop(errno)
      ensures Fair(policy, skip, r) && Between(r, evs, |data|, old(View()), data, skip)
              && Shown(old(trace), marks, data, |data|, t0 + evs) ==>
                Returned(r, t0, data, skip, |data|, View(), trace)
      ensures Grew(policy, old(trace), trace, |data|, errno)
    {
      hide Run, Merge, Pending, Shown, Between, MarksOk, Inv, Returned, Grew, Fair;
      AtMostOneMark(state, marks, |data|);
      ghost var v, told := View(), trace;
      FinalCalls(data, marks, policy);
      if Fair(policy, skip, r) && Between(r, evs, |data|, v, data, skip) && Shown(told, marks, data, |data|, t0 + evs) {
        EndOfBuffer(v, data, marks, skip, r, t0, evs, told, trace, errno);
      }
    }

    // A call with no bytes announces the end of the stream.
    method EndOfStream(policy: Policy) returns (n: nat)
      requires Valid() && errno.OK?
      modifies this
      ensures Valid() && Grew(policy, old(trace), trace, 0, errno)
      ensures AtEof(old(View()), n, View(), trace[|old(trace)|..])
    {
      hide Inv, HeadsIn, Stopped;
      n := 0;
      if state.BodyIdentityEof? {
        var _ := Call(Told(MessageComplete), policy);
      } else if !state.Dead? && !state.StartReqOrRes? && !state.StartRes? && !state.StartReq? {
        errno := InvalidEofState;
        n := 1;
      }
    }

    // The loop around reexecute_byte: the byte at p0 is taken round the switch until it, or what was jumped to, is
    // consumed.
    method ConsumeByte(
      data: seq<byte>, p0: nat, marks0: Marks, policy: Policy,
      ghost skip: Answers, ghost r: Aim, ghost t0: seq<Event>, ghost evs0: seq<Event>)
      returns (next: Next, p: nat, marks: Marks, ghost evs: seq<Event>)
      requires p0 < |data| && Mid(View()) && MarksOk(state, marks0, p0)
      requires Fair(policy, skip, r) ==> Under(r, t0, evs0, p0, View(), data, skip, marks0, trace)
      modifies this
      ensures !next.Repeat? && p0 <= p < |data| && Fits(next, p0, p, marks, View(), Rank(old(state)) + 1, |data|)
      ensures next.Return? && errno.Paused? && next.n == p0 ==> Rank(state) < Rank(old(state))
      ensures next.Return? || errno.OK?
      ensures Fair(policy, skip, r) ==> Followed(r, t0, evs, data, skip, next, p, marks, View(), trace)
      ensures Grew(policy, old(trace), trace, |data|, errno)
    {
      hide SwitchOn, Run, RunMid, Merge, Pending, Shown, Doing, Between, MarksOk, Inv, Returned, Grew, Fair;
      GrewNone(policy, trace, |data|, OK);
      next, p, marks, evs := Repeat, p0, marks0, evs0;
      ghost var t := trace;
      while next.Repeat?
        invariant p0 <= p < |data| && (next.Repeat? || next.Advance?) && errno.OK?
        invariant next.Repeat? ==> Rank(state) <= Rank(old(state))
        invariant Fits(next, p0, p, marks, View(), Rank(old(state)) + 1, |data|)
        invariant Fair(policy, skip, r) ==> Followed(r, t0, evs, data, skip, next, p, marks, View(), trace)
        invariant Grew(policy, t, trace, |data|, errno)
        decreases if next.Repeat? then Rank(state) + 1 else 0
      {
        ghost var told := trace;
        if TakesBody(state) {
          next, p, marks, evs := BodyPass(data, p, marks, policy, skip, r, t0, evs);
        } else {
          next, marks, evs := SwitchPass(data, p, marks, policy, skip, r, t0, evs);
        }
        GrewOn(policy, t, told, trace, |data|, errno);
        if next.Return? { return; }
      }
    }

    // The header limit: every byte of the start line and the headers is counted.
    method CountByte() returns (over: bool)
      requires Ready(View())
      modifies this`nread, this`errno
      ensures over == (Enter(old(View())).nread > MAX_HEADER_SIZE)
      ensures View() == if over then Enter(old(View())).(errno := HeaderOverflow) else Enter(old(View()))
      ensures !over ==> Mid(View())
    {
      hide Inv;
      over := false;
      if ParsingHeader(state) {
        nread := nread + 1;
        if nread > MAX_HEADER_SIZE {
          errno := HeaderOverflow;
          over := true;
        }
      }
    }

    // http_parser_execute. The result is the number of bytes consumed. In the contract only: skip stands for the
    // application's answers to on_headers_complete, more for the bytes to come after the data, exact for an application
    // that always pauses.
    method Execute(data: seq<byte>, policy: Policy, ghost skip: Answers, ghost more: seq<byte>, ghost exact: bool)
      returns (n: nat)
      requires Valid()
      modifies this
      ensures Valid() && Grew(policy, old(trace), trace, |data|, if old(errno).OK? then errno else OK)
      ensures !old(errno).OK? ==> n == 0 && View() == old(View()) && trace == old(trace)
      ensures old(errno).OK? && data == [] ==> AtEof(old(View()), n, View(), trace[|old(trace)|..])
      ensures old(errno).OK? && data != [] ==>
                n <= |data| && (errno.Paused? && n == 0 ==> Rank(state) < Rank(old(state)))
      ensures old(errno).OK? && data != [] && AnswersHead(policy, skip) && (exact ==> PausesAlways(policy)) ==>
                Returned(Account(old(View()), data, skip, more, exact), old(trace), data, skip, n, View(), trace)
    {
      hide SwitchOn, Run, RunMid, Merge, Pending, Shown, Doing, Between, MarksOk, Inv, Returned, AtEof, Grew;
      hide AnswersHead, Spared, SparedMid, Keeps;
      GrewNone(policy, trace, |data|, OK);
      if errno != OK { return 0; }
      if |data| == 0 {
        n := EndOfStream(policy);
        return;
      }
      ghost var r, t0, evs: seq<Event>, rank := Account(View(), data, skip, more, exact), trace, [], Rank(state);
      assert AnswersHead(policy, skip) && (exact ==> PausesAlways(policy)) ==> Fair(policy, skip, r);
      hide Fair;
      var marks: Marks, p := InitialMarks(state), 0;
      Starting(View(), data, skip, more, exact, t0);
      while p != |data|
        invariant p <= |data| && Ready(View()) && MarksOk(state, marks, p)
        invariant Grew(policy, t0, trace, |data|, errno)
        invariant Fair(policy, skip, r) ==>
                    Between(r, evs, p, View(), data, skip) && Shown(trace, marks, data, p, t0 + evs)
        invariant p > 0 ==> forall k :: k in marks ==> marks[k] < p
        invariant p == 0 ==> Rank(state) <= rank
        decreases |data| - p
      {
        if Fair(policy, skip, r) { Entering(View(), data, p, marks, skip, r, t0, evs, trace); }
        var over := CountByte();
        if over {
          GrewNone(policy, trace, |data|, errno);
          GrewOn(policy, t0, trace, trace, |data|, errno);
          return p;
        }
        ghost var told := trace;
        var next;
        next, p, marks, evs := ConsumeByte(data, p, marks, policy, skip, r, t0, evs);
        GrewOn(policy, t0, told, trace, |data|, errno);
        if next.Return? { return next.n; }
        p := p + 1;
      }
      ghost var told := trace;
      EndOfData(data, marks, policy, skip, r, t0, evs);
      GrewOn(policy, t0, told, trace, |data|, errno);
      return |data|;
    }
  }
}
