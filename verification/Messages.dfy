/** Heads and bodies together: a message fed to an actual parser in any pieces, cut anywhere
    (src/http_parser.c:572-1845). */
module Messages {
  import opened Bytes
  import opened ParserState
  import opened Trace
  import opened Machine
  import opened HeaderLimit
  import opened HeaderBlocks
  import opened Framing
  import Execution
  import Feeding

  // The headers hs, read by p, announce a body: of a length, or in chunks.
  ghost predicate Announces(p: Parser, hs: seq<Header>, chunked: bool, skip: Answers) {
    var f := AllGained(p.core.flags, hs);
    && Ready(p) && p.core.state.HeaderFieldStart? && AllProper(hs)
    && !f.trailing && !f.upgrade && !f.skipBody && p.core.verb != CONNECT && !skip(p.heads)
    && f.chunked == chunked && (chunked || 0 < LengthGiven(p.core.contentLength, hs) < ULLONG_MAX)
  }

  // The parser p accepts all of the head: what comes before the headers, and the headers.
  ghost predicate Accepts(p: Parser, start: seq<byte>, hs: seq<Header>, crlf: bool, chunked: bool, skip: Answers) {
    && Ready(p) && Run(p, start, skip).verdict == Go && Announces(Run(p, start, skip).parser, hs, chunked, skip)
    && Run(p, start + FullHead(hs, crlf), skip).verdict == Go
  }

  lemma SizedRun(p: Parser, start: seq<byte>, hs: seq<Header>, crlf: bool, body: seq<byte>, skip: Answers)
    requires Accepts(p, start, hs, crlf, false, skip)
    requires |body| <= LengthGiven(Run(p, start, skip).parser.core.contentLength, hs) as int
    ensures var head, n := start + FullHead(hs, crlf), LengthGiven(Run(p, start, skip).parser.core.contentLength, hs);
            var r := Run(p, head + body, skip);
            && r.verdict == Go && r.events == Run(p, head, skip).events + IdentityEvents(body, n as int)
            && r.parser.core.contentLength as int == n as int - |body|
            && (|body| < n as int ==> r.parser.core.state.BodyIdentity?)
            && (|body| == n as int ==> r.parser.core.state == NewMessage(r.parser.core))
  {
    hide Run, Inv, AllGained, LengthGiven, FullHead, NewMessage;
    var head, q := start + FullHead(hs, crlf), Run(p, start, skip).parser;
    RunConcat(p, start, FullHead(hs, crlf), skip);
    HeadersGiveLength(q, hs, crlf, skip);
    RunConcat(p, head, body, skip);
    var b := Run(p, head, skip).parser;
    IdentityRun(b, body, skip);
    NewMessageState(b.core.(contentLength := 0), NewMessage(b.core.(contentLength := 0)));
  }

  lemma ChunkedRun(p: Parser, start: seq<byte>, hs: seq<Header>, crlf: bool, chunks: seq<seq<byte>>, skip: Answers)
    requires Accepts(p, start, hs, crlf, true, skip) && Chunky(chunks)
    ensures var head := start + FullHead(hs, crlf);
            var r := Run(p, head + PrintBody(chunks), skip);
            && r.verdict == Go && r.parser.core == Trailed(Run(p, head, skip).parser)
            && r.events == Run(p, head, skip).events + (Singles(Body, Feeding.Concat(chunks)) + [Told(MessageComplete)])
  {
    hide Run, Inv, AllGained, LengthGiven, FullHead, PrintBody, Trailed;
    var head, q := start + FullHead(hs, crlf), Run(p, start, skip).parser;
    RunConcat(p, start, FullHead(hs, crlf), skip);
    HeadersGiveChunks(q, hs, crlf, skip);
    RunConcat(p, head, PrintBody(chunks), skip);
    ChunkedRoundTrip(Run(p, head, skip).parser, chunks, skip);
  }

  // A message whose last Content-Length is n, up to some byte of its body: the parser reports the head as a single run
  // does, then exactly the bytes of the body so far, and at the n-th that the message is complete.
  method ReceiveSized(
    h: Execution.HttpParser, start: seq<byte>, hs: seq<Header>, crlf: bool, body: seq<byte>, pieces: seq<seq<byte>>,
    policy: Execution.Policy, ghost skip: Answers)
    requires h.Valid() && h.errno.OK? && [] !in pieces && Feeding.NeverFails(policy, skip)
    requires Accepts(h.View(), start, hs, crlf, false, skip)
    requires |body| <= LengthGiven(Run(h.View(), start, skip).parser.core.contentLength, hs) as int
    requires Feeding.Concat(pieces) == start + FullHead(hs, crlf) + body
    modifies h
    ensures h.errno.OK? || h.errno.HeaderOverflow?
    ensures h.errno.HeaderOverflow? ==>
              !Spared(old(h.View()), Feeding.Concat(pieces), skip) && !Feeding.NeverPauses(policy)
    ensures h.errno.OK? ==>
              var n := LengthGiven(Run(old(h.View()), start, skip).parser.core.contentLength, hs) as int;
              && Merge(h.trace) == Merge(old(h.trace) + (Run(old(h.View()), start + FullHead(hs, crlf), skip).events
                                                         + IdentityEvents(body, n)))
              && h.contentLength as int == n - |body| && (|body| < n ==> h.state.BodyIdentity?)
              && (|body| == n ==> h.state == NewMessage(h.Fields()))
  {
    hide Run, Inv, AllGained, LengthGiven, FullHead, NewMessage, Merge, Spared, Accepts, HeadsIn, IdentityEvents;
    ghost var v := h.View();
    SizedRun(v, start, hs, crlf, body, skip);
    Feeding.Feed(h, pieces, policy, skip);
  }

  // A message in chunks, all of it: the head as a single run reports it, the payloads in order, and the end, once.
  method ReceiveChunks(
    h: Execution.HttpParser, start: seq<byte>, hs: seq<Header>, crlf: bool, chunks: seq<seq<byte>>,
    pieces: seq<seq<byte>>, policy: Execution.Policy, ghost skip: Answers)
    requires h.Valid() && h.errno.OK? && [] !in pieces && Feeding.NeverFails(policy, skip)
    requires Accepts(h.View(), start, hs, crlf, true, skip) && Chunky(chunks)
    requires Feeding.Concat(pieces) == start + FullHead(hs, crlf) + PrintBody(chunks)
    modifies h
    ensures h.errno.OK? || h.errno.HeaderOverflow?
    ensures h.errno.HeaderOverflow? ==>
              !Spared(old(h.View()), Feeding.Concat(pieces), skip) && !Feeding.NeverPauses(policy)
    ensures h.errno.OK? ==>
              && h.Fields() == Trailed(Run(old(h.View()), start + FullHead(hs, crlf), skip).parser)
              && Merge(h.trace)
                 == Merge(old(h.trace) + (Run(old(h.View()), start + FullHead(hs, crlf), skip).events
                                          + (Singles(Body, Feeding.Concat(chunks)) + [Told(MessageComplete)])))
  {
    hide Run, Inv, AllGained, LengthGiven, FullHead, Trailed, Merge, Spared, Accepts, HeadsIn, PrintBody;
    ghost var v := h.View();
    ChunkedRun(v, start, hs, crlf, chunks, skip);
    Feeding.Feed(h, pieces, policy, skip);
  }
}
