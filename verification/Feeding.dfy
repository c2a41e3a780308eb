/** A stream fed to the parser in pieces, with callbacks that may pause it (src/http_parser.h:232-240). However it is
    cut and wherever it is paused, the outcome is that of one uninterrupted run over the whole stream, as long as the
    header limit spares the bytes that are counted again; and a parser that is paused at every chance reaches the limit
    exactly when it does not. */
module Feeding {
  import opened Bytes
  import opened ParserState
  import opened Trace
  import opened Machine
  import opened HeaderLimit
  import opened Execution

  function Concat(pieces: seq<seq<byte>>): seq<byte> { if pieces == [] then [] else pieces[0] + Concat(pieces[1..]) }

  // The application's callbacks never fail: 0, but 1 from on_headers_complete exactly when skip says so.
  ghost predicate NeverFails(policy: Policy, skip: Answers) {
    forall t: seq<Event> | t != [] ::
      policy(t).code == if t[|t| - 1] == Told(HeadersComplete) && skip(HeadsIn(t) - 1) then 1 else 0
  }

  ghost predicate NeverPauses(policy: Policy) { forall t: seq<Event> :: !policy(t).paused }

  // s, continuing after the trace t, ends the way r, continuing after t0, does: exactly, nread included.
  ghost predicate Same(r: Result, t0: seq<Event>, s: Result, t: seq<Event>) {
    r.verdict == s.verdict && r.parser == s.parser && Merge(t0 + r.events) == Merge(t + s.events)
  }

  // The same but for nread, which is larger when header bytes were counted again; or s breaks off in r where it hits
  // the limit.
  ghost predicate Alike(r: Result, t0: seq<Event>, s: Result, t: seq<Event>) {
    || (s.parser.errno.HeaderOverflow? && Begins(t + s.events, t0 + r.events))
    || (r.verdict == s.verdict && s.parser == r.parser.(nread := s.parser.nread) && r.parser.nread <= s.parser.nread
        && Merge(t0 + r.events) == Merge(t + s.events))
  }

  lemma MergePrefix(t: seq<Event>, t': seq<Event>, e: seq<Event>, f: seq<Event>)
    requires Merge(t') == Merge(t + e)
    ensures Merge(t + (e + f)) == Merge(t' + f)
  {
    MergeCongruence(t', t + e, f, f);
    assert t + (e + f) == t + e + f;
  }

  lemma BeginsEqual(t: seq<Event>, u: seq<Event>)
    requires Merge(t) == Merge(u)
    ensures Begins(t, u)
  {
    assert t + [] == t;
  }

  lemma BeginsMore(t: seq<Event>, u: seq<Event>, more: seq<Event>)
    requires Begins(t, u)
    ensures Begins(t, u + more)
  {
    var tail :| Merge(t + tail) == Merge(u);
    MergeCongruence(t + tail, u, more, more);
    assert t + tail + more == t + (tail + more);
  }

  lemma BeginsOn(t: seq<Event>, u: seq<Event>, v: seq<Event>)
    requires Begins(t, u) && Begins(u, v)
    ensures Begins(t, v)
  {
    var a :| Merge(t + a) == Merge(u);
    var b :| Merge(u + b) == Merge(v);
    MergeCongruence(t + a, u, b, b);
    assert t + a + b == t + (a + b);
  }

  // The parser w consumed the piece in one call without being stopped.
  lemma NextPiece(w: Parser, piece: seq<byte>, rest: seq<byte>, skip: Answers, t: seq<Event>, t': seq<Event>)
    requires Ready(w) && Run(w, piece, skip).verdict == Go && Merge(t') == Merge(t + Run(w, piece, skip).events)
    ensures Same(Run(w, piece + rest, skip), t, Run(Run(w, piece, skip).parser, rest, skip), t')
  {
    hide Run, Merge;
    RunConcat(w, piece, rest, skip);
    var p := Run(w, piece, skip);
    MergePrefix(t, t', p.events, Run(p.parser, rest, skip).events);
  }

  // The parser w was paused in the piece: the unpaused w' has to be fed left ++ rest.
  lemma NextPart(
    w: Parser, piece: seq<byte>, rest: seq<byte>, skip: Answers, t: seq<Event>, t': seq<Event>, m: nat, w': Parser,
    left: seq<byte>)
    requires Ready(w) && Resumes(Run(w, piece, skip), t, t', m, w', left, skip)
    ensures Alike(Run(w, piece + rest, skip), t, Run(w', left + rest, skip), t')
    ensures Spared(w', left + rest, skip) ==> !Run(w', left + rest, skip).parser.errno.HeaderOverflow?
  {
    hide Run, Merge, Begins, Spared;
    RunConcat(w, piece, rest, skip);
    RunConcat(w', left, rest, skip);
    if Spared(w', left + rest, skip) { SparedRuns(w', left + rest, skip); }
    var p, s := Run(w, piece, skip), Run(w', left, skip);
    if s.verdict != Go && s.parser.errno.HeaderOverflow? && Begins(t' + s.events, t + p.events) {
      NextBroken(t, p.events, if p.verdict == Go then Run(p.parser, rest, skip).events else [], t' + s.events);
    } else if s.verdict == Go {
      NextCounted(p, s, rest, skip, t, t');
    }
  }

  lemma NextBroken(t: seq<Event>, e: seq<Event>, f: seq<Event>, u: seq<Event>)
    requires Begins(u, t + e)
    ensures Begins(u, t + (e + f)) && e + [] == e
  {
    BeginsMore(u, t + e, f);
    assert t + e + f == t + (e + f);
  }

  lemma NextCounted(p: Result, s: Result, rest: seq<byte>, skip: Answers, t: seq<Event>, t': seq<Event>)
    requires p.verdict == Go && s.verdict == Go && Ready(p.parser) && Ready(s.parser)
    requires p.parser.nread <= s.parser.nread
    requires s.parser == p.parser.(nread := s.parser.nread) && Merge(t + p.events) == Merge(t' + s.events)
    ensures var a, b := Run(p.parser, rest, skip), Run(s.parser, rest, skip);
            && (b.parser.errno.HeaderOverflow? ==> Begins(t' + (s.events + b.events), t + (p.events + a.events)))
            && (!b.parser.errno.HeaderOverflow? ==>
                  && a.verdict == b.verdict && b.parser == a.parser.(nread := b.parser.nread)
                  && a.parser.nread <= b.parser.nread && a.used == b.used
                  && Merge(t + (p.events + a.events)) == Merge(t' + (s.events + b.events)))
  {
    hide Run, Merge, Begins;
    RunCounted(p.parser, s.parser, rest, skip);
    var a, b := Run(p.parser, rest, skip), Run(s.parser, rest, skip);
    MergeCongruence(t + p.events, t' + s.events, b.events, b.events);
    assert t + p.events + b.events == t + (p.events + b.events);
    assert t' + s.events + b.events == t' + (s.events + b.events);
    if b.events <= a.events {
      var tail := a.events[|b.events|..];
      BeginsEqual(t' + (s.events + b.events), t + (p.events + b.events));
      BeginsMore(t' + (s.events + b.events), t + (p.events + b.events), tail);
      assert t + (p.events + b.events) + tail == t + (p.events + a.events);
    }
  }

  // How the application pauses, and whether the header limit spares the stream however it does.
  datatype Pausing = Pausing(never: bool, always: bool, spared: bool)

  // What feeding may leave behind, given the run r over all the bytes, the trace t0 before it, and the bytes still to
  // be fed.
  ghost predicate Fed(r: Result, t0: seq<Event>, h: Parser, t: seq<Event>, rest: seq<byte>, skip: Answers,
                      how: Pausing) {
    if h.errno.OK? then
      && Ready(h) && Alike(r, t0, Run(h, rest, skip), t) && (how.never ==> Same(r, t0, Run(h, rest, skip), t))
      && (how.spared ==> Spared(h, rest, skip)) && (how.always && Spared(h, rest, skip) ==> how.spared)
    else Refused(r, t0, h, t, how)
  }

  // A parser in error: the error is the run's own, unless it is the header limit, which spared streams do not meet.
  ghost predicate Refused(r: Result, t0: seq<Event>, h: Parser, t: seq<Event>, how: Pausing) {
    && Begins(t, t0 + r.events)
    && (h.errno.HeaderOverflow? ==> !how.spared)
    && (!h.errno.HeaderOverflow? ==> r.verdict == Stop && h == r.parser.(nread := h.nread) && r.parser.nread <= h.nread)
    && (how.never ==> r.verdict == Stop && r.parser == h)
  }

  // One call, on values.
  lemma OneCall(
    r: Result, t0: seq<Event>, w: Parser, t: seq<Event>, piece: seq<byte>, rest: seq<byte>, skip: Answers, how: Pausing,
    n: nat, w': Parser, t': seq<Event>)
    requires r.verdict != Out && w.errno.OK? && Fed(r, t0, w, t, piece + rest, skip, how) && piece != []
    requires Returned(Account(w, piece, skip, rest, how.always), t, piece, skip, n, w', t')
    requires !w'.errno.CbNotify? && !w'.errno.CbData? && (how.never ==> !w'.errno.Paused?)
    ensures if w'.errno.Paused? then Fed(r, t0, w'.(errno := OK), t', piece[n..] + rest, skip, how)
            else Fed(r, t0, w', t', rest, skip, how)
    ensures w'.errno.OK? ==> n == |piece|
  {
    hide Run, Merge, Begins, Spared;
    RunConcat(w, piece, rest, skip);
    var p := Run(w, piece, skip);
    assert [] + rest == rest;
    if w'.errno.OK? {
      NextPiece(w, piece, rest, skip, t, t');
      AlikeSame(r, t0, Run(w, piece + rest, skip), t, Run(w', rest, skip), t');
    } else if w'.errno.Paused? {
      NextPart(w, piece, rest, skip, t, t', n, w'.(errno := OK), piece[n..]);
      AlikeOn(r, t0, Run(w, piece + rest, skip), t, Run(w'.(errno := OK), piece[n..] + rest, skip), t');
    } else {
      EndsThere(r, t0, p, t, t');
    }
  }

  lemma AlikeSame(r: Result, t0: seq<Event>, s: Result, t: seq<Event>, u: Result, t': seq<Event>)
    requires Alike(r, t0, s, t) && Same(s, t, u, t')
    ensures Alike(r, t0, u, t') && (Same(r, t0, s, t) ==> Same(r, t0, u, t'))
  {
    hide Merge, Begins;
    if Begins(t + s.events, t0 + r.events) {
      BeginsEqual(t' + u.events, t + s.events);
      BeginsOn(t' + u.events, t + s.events, t0 + r.events);
    }
  }

  lemma AlikeOn(r: Result, t0: seq<Event>, s: Result, t: seq<Event>, u: Result, t': seq<Event>)
    requires Alike(r, t0, s, t) && Alike(s, t, u, t')
    ensures Alike(r, t0, u, t')
  {
    hide Merge, Begins;
    BeginsEqual(t + s.events, t + s.events);
    if Merge(t0 + r.events) == Merge(t + s.events) { BeginsEqual(t + s.events, t0 + r.events); }
    if Merge(t + s.events) == Merge(t' + u.events) { BeginsEqual(t' + u.events, t + s.events); }
    if Begins(t' + u.events, t + s.events) { BeginsOn(t' + u.events, t + s.events, t0 + r.events); }
  }

  // The run that was left ended in an error, in this call.
  lemma EndsThere(r: Result, t0: seq<Event>, s: Result, t: seq<Event>, t': seq<Event>)
    requires Alike(r, t0, s, t) && Begins(t', t + s.events)
    ensures Begins(t', t0 + r.events)
  {
    hide Merge, Begins;
    if Merge(t0 + r.events) == Merge(t + s.events) { BeginsEqual(t + s.events, t0 + r.events); }
    BeginsOn(t', t + s.events, t0 + r.events);
  }

  lemma FedAtStart(w: Parser, t: seq<Event>, bytes: seq<byte>, skip: Answers, how: Pausing)
    requires Ready(w) && how.spared == Spared(w, bytes, skip)
    ensures Fed(Run(w, bytes, skip), t, w, t, bytes, skip, how)
  {
    hide Run, Merge, Spared;
  }

  lemma ConcatStep(pieces: seq<seq<byte>>, i: nat)
    requires i < |pieces|
    ensures Concat(pieces[i..]) == pieces[i] + Concat(pieces[i + 1..])
  {
    assert pieces[i..][1..] == pieces[i + 1..];
  }

  // The whole stream was fed, or the parser refused to go on.
  ghost predicate Outcome(r: Result, t0: seq<Event>, h: Parser, t: seq<Event>, how: Pausing) {
    && (how.spared || how.never || !h.errno.HeaderOverflow? ==>
          && (if h.errno.OK? then r.verdict == Go && Merge(t) == Merge(t0 + r.events)
              else r.verdict == Stop && Begins(t, t0 + r.events))
          && h == r.parser.(nread := h.nread) && r.parser.nread <= h.nread)
    && (how.never ==> h == r.parser)
    && Begins(t, t0 + r.events)
    && (how.always && r.verdict == Go ==> (if how.spared then h.errno.OK? else h.errno.HeaderOverflow?))
  }

  lemma FedFinally(r: Result, t0: seq<Event>, w: Parser, t: seq<Event>, pieces: seq<seq<byte>>, i: nat, skip: Answers,
                   how: Pausing)
    requires i <= |pieces| && (w.errno.OK? ==> i == |pieces|) && Fed(r, t0, w, t, Concat(pieces[i..]), skip, how)
    ensures Outcome(r, t0, w, t, how)
  {
    hide Merge, Begins;
    if w.errno.OK? {
      EmptyRun(w, skip);
      assert t + [] == t;
      hide Run;
      BeginsEqual(t, t0 + r.events);
    }
  }

  // Feeds one piece, again and again from where the parser was paused.
  method FeedPiece(
    h: HttpParser, piece: seq<byte>, policy: Policy,
    ghost rest: seq<byte>, ghost skip: Answers, ghost r: Result, ghost t0: seq<Event>, ghost how: Pausing)
    requires h.Valid() && h.errno.OK? && NeverFails(policy, skip) && r.verdict != Out
    requires how.never == NeverPauses(policy) && how.always == PausesAlways(policy)
    requires Fed(r, t0, h.View(), h.trace, piece + rest, skip, how)
    modifies h
    ensures h.Valid() && !h.errno.Paused? && Fed(r, t0, h.View(), h.trace, rest, skip, how)
  {
    hide Run, Merge, Fed, Returned, Spared, HeadsIn;
    var left := piece;
    while left != []
      invariant h.Valid() && h.errno.OK? && Fed(r, t0, h.View(), h.trace, left + rest, skip, how)
      decreases |left|, Rank(h.state)
    {
      ghost var w, t := h.View(), h.trace;
      var n := h.Execute(left, policy, skip, rest, how.always);
      GrewReplies(policy, skip, t, h.trace, |left|, h.errno);
      OneCall(r, t0, w, t, left, rest, skip, how, n, h.View(), h.trace);
      if h.errno.Paused? {
        h.Pause(false);
        left := left[n..];
      } else if h.errno.OK? {
        left := [];
        assert left + rest == rest;
      } else {
        return;
      }
    }
    assert left + rest == rest;
  }

  // An application that never fails only ever pauses the parser.
  lemma GrewReplies(policy: Policy, skip: Answers, t: seq<Event>, u: seq<Event>, n: nat, e: Errno)
    requires Grew(policy, t, u, n, e) && NeverFails(policy, skip)
    ensures !e.CbNotify? && !e.CbData? && (NeverPauses(policy) ==> !e.Paused?)
  {
    hide HeadsIn;
  }

  // The whole stream, in pieces, with any pausing: unless the header limit is in the way, the outcome is that of one
  // run over its concatenation. The limit is in the way of some pausing application, say one that always pauses,
  // exactly when the stream is not spared.
  method Feed(h: HttpParser, pieces: seq<seq<byte>>, policy: Policy, ghost skip: Answers)
    requires h.Valid() && h.errno.OK? && NeverFails(policy, skip) && [] !in pieces
    requires Run(h.View(), Concat(pieces), skip).verdict != Out
    modifies h
    ensures h.Valid() && !h.errno.Paused?
    ensures Outcome(Run(old(h.View()), Concat(pieces), skip), old(h.trace), h.View(), h.trace,
                    Pausing(NeverPauses(policy), PausesAlways(policy), Spared(old(h.View()), Concat(pieces), skip)))
  {
    hide Run, Merge, Fed, Concat, Spared, Outcome;
    ghost var r, t0 := Run(h.View(), Concat(pieces), skip), h.trace;
    ghost var how := Pausing(NeverPauses(policy), PausesAlways(policy), Spared(h.View(), Concat(pieces), skip));
    FedAtStart(h.View(), t0, Concat(pieces), skip, how);
    var i := 0;
    assert pieces[0..] == pieces;
    while i < |pieces| && h.errno.OK?
      invariant i <= |pieces| && h.Valid() && !h.errno.Paused?
      invariant Fed(r, t0, h.View(), h.trace, Concat(pieces[i..]), skip, how)
    {
      ConcatStep(pieces, i);
      FeedPiece(h, pieces[i], policy, Concat(pieces[i + 1..]), skip, r, t0, how);
      i := i + 1;
    }
    FedFinally(r, t0, h.View(), h.trace, pieces, i, skip, how);
  }

  // Split invariance: one call on a ++ b against two calls, by parsers in the same state.
  method SplitCall(one: HttpParser, two: HttpParser, a: seq<byte>, b: seq<byte>, policy: Policy, ghost skip: Answers)
    returns (n: nat, m: nat, k: nat)
    requires one != two && one.Valid() && one.errno.OK? && a != [] && b != []
    requires two.View() == one.View() && two.trace == one.trace
    requires NeverFails(policy, skip) && NeverPauses(policy)
    modifies one, two
    ensures one.errno.OK? && n == |a + b| ==>
              m == |a| && k == |b| && two.View() == one.View() && Merge(two.trace) == Merge(one.trace)
  {
    hide Run, Merge, Spared, HeadsIn;
    ghost var w, t := one.View(), one.trace;
    RunConcat(w, a, b, skip);
    n := one.Execute(a + b, policy, skip, [], false);
    m := two.Execute(a, policy, skip, [], false);
    ghost var w', t' := two.View(), two.trace;
    GrewReplies(policy, skip, t, t', |a|, two.errno);
    k := two.Execute(b, policy, skip, [], false);
    if one.errno.OK? && n == |a + b| {
      var p := Run(w, a, skip);
      GrewReplies(policy, skip, t', two.trace, |b|, if w'.errno.OK? then two.errno else OK);
      MergePrefix(t, t', p.events, Run(p.parser, b, skip).events);
      assert Merge(two.trace) == Merge(t' + Run(w', b, skip).events);
    }
  }
}
