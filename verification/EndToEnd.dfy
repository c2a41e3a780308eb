/** From the bytes the DVR sends to the image the server hands out: a response head that is followed by everything up to
    the end of the stream, then JPGS frames, received in any pieces (src/rsva11001.c:101-242, 614-655;
    src/http_parser.c:1681-1685). */
module EndToEnd {
  import opened Bytes
  import opened ParserState
  import opened Switch
  import opened Trace
  import opened Machine
  import opened Execution
  import opened Frames
  import opened Receiver
  import opened Headers
  import opened HeadEnd
  import opened HeaderBlocks
  import opened StatusLine
  import Feeding
  import HeaderLimit

  // A response head, all of it and nothing more, that makes everything after it body.
  ghost predicate Streams(head: seq<byte>) {
    InitialReady(Response);
    var r := Run(Initial(Response), head, NO_SKIP);
    r.verdict == Go && r.parser.core.state.BodyIdentityEof? && Delivered(Body, r.events) == []
  }

  // The body bytes among those got so far.
  function BodyOf(head: seq<byte>, got: seq<byte>): seq<byte> { if |got| <= |head| then [] else got[|head|..] }

  // Exactly the bytes after the head are delivered.
  lemma StreamRun(head: seq<byte>, got: seq<byte>)
    requires Streams(head) && (got <= head || head <= got) && Ready(Initial(Response))
    ensures var r := Run(Initial(Response), got, NO_SKIP);
            r.verdict == Go && Delivered(Body, r.events) == BodyOf(head, got)
  {
    hide Run, Inv;
    var p := Initial(Response);
    if got <= head {
      var rest := head[|got|..];
      assert got + rest == head;
      RunConcat(p, got, rest, NO_SKIP);
      var r := Run(p, got, NO_SKIP);
      if r.verdict == Go { DeliveredConcat(Body, r.events, Run(r.parser, rest, NO_SKIP).events); }
    } else {
      var body, r := got[|head|..], Run(p, head, NO_SKIP);
      assert head + body == got;
      RunConcat(p, head, body, NO_SKIP);
      BodyStretch(r.parser, body, |body|, NO_SKIP);
      assert body[..|body|] == body && body[|body|..] == [] && Singles(Body, body) + [] == Singles(Body, body);
      EmptyRun(Fewer(r.parser, |body|), NO_SKIP);
      DeliveredConcat(Body, r.events, Singles(Body, body));
      DeliveredSingles(Body, body);
    }
  }

  lemma {:induction false} PiecesDelivered(t: seq<Event>)
    ensures Feeding.Concat(BodyPieces(t)) == Delivered(Body, t)
  {
    if t != [] {
      var n := |t| - 1;
      PiecesDelivered(t[..n]);
      if t[n].Data? && t[n].kind == Body { ConcatSnoc(BodyPieces(t[..n]), t[n].bytes); }
    }
  }

  lemma BeginsDelivered(u: seq<Event>, w: seq<Event>)
    requires Begins(u, w)
    ensures Delivered(Body, u) <= Delivered(Body, w)
  {
    hide Merge, Delivered;
    var tail :| Merge(u + tail) == Merge(w);
    DeliveredMerge(Body, u + tail);
    DeliveredMerge(Body, w);
    DeliveredConcat(Body, u, tail);
  }

  lemma Shorter(m: nat, n: nat, fs: seq<seq<byte>>)
    requires AllFit(fs) && m <= n && NoLonger(n, fs)
    ensures NoLonger(m, fs)
  {
    hide Frame;
  }

  lemma {:induction false} ShortPieces(t: seq<Event>, u: seq<Event>, n: nat, fs: seq<seq<byte>>)
    requires AllFit(fs) && Extends(t, u, n) && NoLonger(n, fs) && NoLongerThanFrames(BodyPieces(t), fs)
    ensures NoLongerThanFrames(BodyPieces(u), fs)
    decreases |u|
  {
    hide NoLonger;
    if u != t {
      var m := |u| - 1;
      ShortPieces(t, u[..m], n, fs);
      if u[m].Data? && u[m].kind == Body { Shorter(|u[m].bytes|, n, fs); }
    }
  }

  // A trace that begins what the parser is to report of a further piece reassembles to whole frames and the start of
  // one.
  lemma Reassembled(fs: seq<seq<byte>>, whole: seq<byte>, t: seq<Event>, u: seq<Event>, n: nat) returns (c: nat)
    requires AllFit(fs) && Extends(t, u, n) && NoLonger(n, fs) && NoLongerThanFrames(BodyPieces(t), fs)
    requires Delivered(Body, u) <= whole <= Wire(fs)
    ensures NoLongerThanFrames(BodyPieces(u), fs) && UpTo(Received(BodyPieces(u)), fs, Delivered(Body, u), c)
  {
    hide Frame, Wire, Received, BodyPieces, Delivered;
    ShortPieces(t, u, n, fs);
    PiecesDelivered(u);
    c := Reassembly(fs, BodyPieces(u));
  }

  // After got, one more piece: there is space for it, whatever the callbacks make of it.
  lemma SpaceFor(fs: seq<seq<byte>>, whole: seq<byte>, t: seq<Event>, v: Parser, piece: seq<byte>)
    requires AllFit(fs) && NoLonger(|piece|, fs) && NoLongerThanFrames(BodyPieces(t), fs) && Ready(v)
    requires Delivered(Body, t) + Delivered(Body, Run(v, piece, NO_SKIP).events) == whole <= Wire(fs)
    ensures HasSpace(t, v, piece)
  {
    hide Frame, Wire, Received, BodyPieces, Delivered, Run, Begins, Inv, NoLonger, NoLongerThanFrames;
    var r := Run(v, piece, NO_SKIP);
    forall u | Extends(t, u, |piece|) && Begins(u, t + r.events)
      ensures !Received(BodyPieces(u)).Lost?
    {
      BeginsDelivered(u, t + r.events);
      DeliveredConcat(Body, t, r.events);
      var c := Reassembled(fs, whole, t, u, |piece|);
    }
  }

  // What holds between receive calls, after the bytes got.
  ghost predicate Consumed(conn: Connection, head: seq<byte>, fs: seq<seq<byte>>, got: seq<byte>)
    requires AllFit(fs)
    reads conn, conn.parser, conn.pingBuffer, conn.pongBuffer
  {
    && conn.Consistent() && conn.parser.errno.OK? && Ready(Initial(Response))
    && conn.parser.View() == Run(Initial(Response), got, NO_SKIP).parser
    && Delivered(Body, conn.parser.trace) == BodyOf(head, got)
    && NoLongerThanFrames(BodyPieces(conn.parser.trace), fs)
  }

  // One more piece, on values.
  lemma OneMore(head: seq<byte>, fs: seq<seq<byte>>, got: seq<byte>, piece: seq<byte>) returns (r: Result, s: Result)
    requires AllFit(fs) && Streams(head) && got + piece <= head + Wire(fs) && Ready(Initial(Response))
    ensures r == Run(Initial(Response), got, NO_SKIP) && r.verdict == Go && Ready(r.parser)
    ensures s == Run(r.parser, piece, NO_SKIP) && s.verdict == Go
    ensures Run(Initial(Response), got + piece, NO_SKIP).parser == s.parser
    ensures BodyOf(head, got) + Delivered(Body, s.events) == BodyOf(head, got + piece) <= Wire(fs)
  {
    hide Run, Wire, Inv, Streams, Delivered;
    var p, all := Initial(Response), head + Wire(fs);
    assert got == all[..|got|] && got + piece == all[..|got + piece|];
    StreamRun(head, got);
    StreamRun(head, got + piece);
    RunConcat(p, got, piece, NO_SKIP);
    r := Run(p, got, NO_SKIP);
    s := Run(r.parser, piece, NO_SKIP);
    DeliveredConcat(Body, r.events, s.events);
    BodyInside(head, Wire(fs), got + piece);
  }

  lemma BodyInside(head: seq<byte>, body: seq<byte>, got: seq<byte>)
    requires got <= head + body
    ensures BodyOf(head, got) <= body
  {
    if |got| > |head| { assert got[|head|..] == body[..|got| - |head|]; }
  }

  lemma Untroubled(r: Aim, t0: seq<Event>, data: seq<byte>, n: nat, w: Parser, t: seq<Event>)
    requires Returned(r, t0, data, NO_SKIP, n, w, t) && r.run.verdict == Go && !IsStop(w.errno)
    ensures w == r.run.parser && w.errno.OK?
    ensures Delivered(Body, t) == Delivered(Body, t0) + Delivered(Body, r.run.events)
  {
    hide Run, Merge, Delivered, HeaderLimit.Spared;
    DeliveredMerge(Body, t);
    DeliveredMerge(Body, t0 + r.run.events);
    DeliveredConcat(Body, t0, r.run.events);
  }

  method ReceiveOne(conn: Connection, piece: seq<byte>, ghost head: seq<byte>, ghost fs: seq<seq<byte>>,
                    ghost got: seq<byte>)
    requires AllFit(fs) && Streams(head) && got + piece <= head + Wire(fs) && piece != [] && NoLonger(|piece|, fs)
    requires Consumed(conn, head, fs, got)
    modifies conn`active, conn`ping, conn`received, conn.pingBuffer, conn.pongBuffer, conn.parser
    ensures Consumed(conn, head, fs, got + piece)
  {
    hide Run, Wire, Inv, Streams, Received, BodyPieces, Delivered, Frame, Returned, NoLongerThanFrames, HasSpace, Holds;
    hide Grew, HeaderLimit.Spared;
    ghost var was, r := OneMore(head, fs, got, piece);
    ghost var t, v := conn.parser.trace, conn.parser.View();
    SpaceFor(fs, BodyOf(head, got + piece), t, v, piece);
    ghost var n := conn.Receive(piece);
    ghost var aim := Account(v, piece, NO_SKIP, [], false);
    ghost var u := conn.parser.trace;
    ReturnedBegins(aim, t, piece, n, conn.parser.View(), u);
    GrewExtends(t, u, |piece|, conn.parser.errno);
    BeginsDelivered(u, t + r.events);
    DeliveredConcat(Body, t, r.events);
    ghost var c := Reassembled(fs, BodyOf(head, got + piece), t, u, |piece|);
    Untroubled(aim, t, piece, n, conn.parser.View(), u);
  }

  // Whatever the pieces, the image handed out is the payload of the last frame completed, or there is none yet.
  method LatestImage(
    conn: Connection, pieces: seq<seq<byte>>, out: array<byte>, size: nat, ghost head: seq<byte>,
    ghost fs: seq<seq<byte>>)
    returns (ok: bool, written: nat, ghost c: nat)
    requires conn.Consistent() && conn.parser.trace == [] && conn.parser.View() == Initial(Response)
    requires AllFit(fs) && Streams(head) && Feeding.Concat(pieces) <= head + Wire(fs)
    requires forall i | 0 <= i < |pieces| :: pieces[i] != [] && NoLonger(|pieces[i]|, fs)
    requires size <= out.Length && out != conn.pingBuffer && out != conn.pongBuffer
    modifies conn`active, conn`ping, conn`received, conn.pingBuffer, conn.pongBuffer, conn.parser, out
    ensures FramesDone(fs, |BodyOf(head, Feeding.Concat(pieces))|, c)
    ensures ok == (c > 0 ==> |fs[c - 1]| <= size)
    ensures c > 0 && ok ==> written == |fs[c - 1]| && out[..written] == fs[c - 1]
    ensures c == 0 || !ok ==> written == 0
  {
    hide Run, Wire, Inv, Streams, Received, BodyPieces, Frame, Holds, PayloadOf, FrameLike, NoLonger;
    hide NoLongerThanFrames;
    Starts(conn, head, fs);
    ghost var got: seq<byte> := [];
    var i := 0;
    while i < |pieces|
      invariant i <= |pieces| && Consumed(conn, head, fs, got) && got == Feeding.Concat(pieces[..i])
      invariant conn.pingBuffer == old(conn.pingBuffer) && conn.pongBuffer == old(conn.pongBuffer)
    {
      Prefixes(pieces, i);
      ReceiveOne(conn, pieces[i], head, fs, got);
      got, i := got + pieces[i], i + 1;
    }
    assert pieces[..i] == pieces;
    PiecesDelivered(conn.parser.trace);
    c := Reassembly(fs, BodyPieces(conn.parser.trace));
    assert conn.parser.trace[..|conn.parser.trace|] == conn.parser.trace;
    ok, written := conn.GetLatestImage(out, size, LatestOf(fs, c));
    if c > 0 { FramesAreFrameLike(fs[c - 1]); }
  }

  lemma Starts(conn: Connection, head: seq<byte>, fs: seq<seq<byte>>)
    requires AllFit(fs) && conn.Consistent() && conn.parser.trace == [] && conn.parser.View() == Initial(Response)
    ensures Consumed(conn, head, fs, [])
  {
    InitialReady(Response);
    hide Inv;
  }

  lemma {:induction false} Prefixes(pieces: seq<seq<byte>>, i: nat)
    requires i < |pieces|
    ensures Feeding.Concat(pieces[..i + 1]) == Feeding.Concat(pieces[..i]) + pieces[i]
    ensures Feeding.Concat(pieces[..i + 1]) <= Feeding.Concat(pieces)
    decreases |pieces| - i
  {
    ConcatSnoc(pieces[..i], pieces[i]);
    assert pieces[..i + 1] == pieces[..i] + [pieces[i]];
    if i + 1 < |pieces| {
      Prefixes(pieces, i + 1);
    } else {
      assert pieces[..i + 1] == pieces;
    }
  }

  /* ---- Such heads. ---- */

  // A header line that says nothing of the body's length or coding, nor of another protocol.
  predicate SaysNothing(h: Header) {
    var v := SkipBlanks(FirstValue(h));
    && Proper(h) && !GivesLength(h)
    && !(SameName(h.name, TRANSFER_ENCODING) && ValueIs(v, CHUNKED)) && !(SameName(h.name, UPGRADE) && v != [])
  }

  predicate Plain(hs: seq<Header>) { forall i | 0 <= i < |hs| :: SaysNothing(hs[i]) }

  lemma OnePlain(f: Flags, h: Header, length: uint64)
    requires SaysNothing(h)
    ensures SameName(h.name, CONTENT_LENGTH) ==> LengthOver(length, h.parts) == length
    ensures var g := Gained(f, h.name, FirstValue(h));
            g.chunked == f.chunked && g.upgrade == f.upgrade && g.trailing == f.trailing && g.skipBody == f.skipBody
  {
    hide SkipBlanks, ValueIs, SameName;
  }

  lemma {:induction false} PlainGains(f: Flags, hs: seq<Header>, length: uint64)
    requires Plain(hs)
    ensures LengthGiven(length, hs) == length
    ensures var g := AllGained(f, hs);
            g.chunked == f.chunked && g.upgrade == f.upgrade && g.trailing == f.trailing && g.skipBody == f.skipBody
    decreases |hs|
  {
    hide SaysNothing, Gained, LengthOver, SameName, FirstValue;
    if hs != [] {
      var n := |hs| - 1;
      PlainGains(f, hs[..n], length);
      OnePlain(AllGained(f, hs[..n]), hs[n], length);
    }
  }

  // The status line s has a status that allows a body.
  predicate AllowsBody(s: seq<byte>) {
    ' ' in s && StatusOf(s) / 100 != 1 && StatusOf(s) != 204 && StatusOf(s) != 304
  }

  // Every accepted head of a response that says neither how long the body is nor how it is coded, and whose status
  // allows a body, is followed by body up to the end of the stream.
  lemma PlainHeadStreams(lead: seq<byte>, status: seq<byte>, hs: seq<Header>, crlf: bool)
    requires Ready(Initial(Response)) && LineEnds(lead) && NoLf(status) && AllowsBody(status) && Plain(hs)
    requires Run(Initial(Response), lead + status + [LF] + FullHead(hs, crlf), NO_SKIP).verdict == Go
    ensures Streams(lead + status + [LF] + FullHead(hs, crlf))
  {
    hide Run, SwitchOn, Inv, AllGained, LengthGiven, FullHead, Delivered, StatusOf;
    var p, line := Initial(Response), lead + (status + [LF]);
    assert lead + status + [LF] == line;
    GoParts(p, line, FullHead(hs, crlf), NO_SKIP);
    GoParts(p, lead, status + [LF], NO_SKIP);
    EmptyLinesRun(p, lead, NO_SKIP);
    StatusExactly(Run(p, lead, NO_SKIP).parser, status, NO_SKIP);
    QuietParts(p, lead, status + [LF], NO_SKIP);
    var r := Run(p, line, NO_SKIP).parser;
    PlainGains(r.core.flags, hs, r.core.contentLength);
    HeadersGiveStream(r, hs, crlf, NO_SKIP);
    DeliveredConcat(Body, Run(p, line, NO_SKIP).events, Run(r, FullHead(hs, crlf), NO_SKIP).events);
  }

  // There are such heads, without any headers say.
  lemma SomeHeadStreams()
    ensures Streams(STATUS_200 + [LF])
  {
    hide Run, Inv, Delivered;
    var p, q := Initial(Response), Early(HeaderFieldStart, 13, 1, 1, 200);
    PlainStatus(NO_SKIP);
    RunsReady(p, STATUS_200, NO_SKIP, q, [Told(MessageBegin)]);
    StreamBegins(q, NO_SKIP);
    RunConcat(p, STATUS_200, [LF], NO_SKIP);
    TellsOnly();
  }

  lemma TellsOnly()
    ensures Delivered(Body, [Told(MessageBegin)] + [Told(HeadersComplete)]) == []
  {
    assert ([Told(MessageBegin)] + [Told(HeadersComplete)])[..1] == [Told(MessageBegin)];
    assert [Told(MessageBegin)][..0] == [];
  }
}
