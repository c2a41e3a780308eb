/** A camera connection: two receive buffers that are swapped when a frame is complete, filled by the parser's body
    callback (src/rsva11001.c:26-50, 83-242, 436-475, 614-655). */
module Receiver {
  import opened Bytes
  import opened ParserState
  import opened Trace
  import opened Machine
  import opened Execution
  import opened Frames
  import HeaderLimit

  // A complete frame, magic values and length included.
  predicate FrameLike(f: seq<byte>) {
    && HEADER_SIZE + FOOTER_SIZE <= |f| <= BUFFER_SIZE && f[..4] == HEADER
    && HEADER_SIZE + ReadBe32(f[4..8]) + FOOTER_SIZE == |f| && f[|f| - FOOTER_SIZE..] == FOOTER
  }

  function PayloadOf(f: seq<byte>): seq<byte>
    requires FrameLike(f)
  {
    f[HEADER_SIZE..|f| - FOOTER_SIZE]
  }

  lemma FramesAreFrameLike(payload: seq<byte>)
    requires FitsBuffer(payload)
    ensures FrameLike(Frame(payload)) && PayloadOf(Frame(payload)) == payload
  {
    FrameReads(payload);
    hide Frame;
  }

  lemma TakenFrames(tail: seq<byte>, latest: Latest, piece: seq<byte>)
    requires CanTake(tail, piece)
    ensures var rx := Take(tail, latest, piece);
            rx.Receiving? && (rx.latest != latest || Complete(Filled(tail, piece))) ==>
              rx.latest.Image? && FrameLike(rx.latest.frame)
  {
    var buffer := Filled(tail, piece);
    if Complete(buffer) {
      CompleteInside(tail, piece);
      var total := TotalLength(buffer);
      assert buffer[..total][..4] == buffer[..4] && buffer[..total][4..8] == buffer[4..8];
      assert buffer[..total][total - FOOTER_SIZE..] == buffer[total - FOOTER_SIZE..total];
    }
  }

  // What a buffer that is not being filled says: its last image, or none.
  ghost predicate Holds(buffer: seq<byte>, latest: Latest) {
    |buffer| == BUFFER_SIZE &&
    match latest
    case NoImage => buffer[..4] != HEADER
    case Image(f) => FrameLike(f) && buffer[..|f|] == f
  }

  // The body callbacks of a trace.
  function BodyPieces(t: seq<Event>): seq<seq<byte>> {
    if t == [] then []
    else if t[|t| - 1].Data? && t[|t| - 1].kind == Body then BodyPieces(t[..|t| - 1]) + [t[|t| - 1].bytes]
    else BodyPieces(t[..|t| - 1])
  }

  // The connection's settings: only on_body is set, and it fails when a magic value is wrong.
  function BodyReply(t: seq<Event>): Reply {
    if t != [] && t[|t| - 1].Data? && t[|t| - 1].kind == Body && Received(BodyPieces(t)).Broken? then Reply(1, false)
    else Reply(0, false)
  }

  class Connection {
    const parser: HttpParser
    var ping: bool
    var pingBuffer: array<byte>
    var pongBuffer: array<byte>
    var active: array<byte>
    var received: nat

    // `ping` agrees with the active buffer.
    ghost predicate Valid()
      reads this
    {
      && pingBuffer != pongBuffer && pingBuffer.Length == BUFFER_SIZE && pongBuffer.Length == BUFFER_SIZE
      && active == (if ping then pingBuffer else pongBuffer) && received <= BUFFER_SIZE
    }

    function Inactive(): array<byte>
      reads this
    {
      if ping then pongBuffer else pingBuffer
    }

    // The bytes of the frame being received.
    function Tail(): seq<byte>
      requires Valid()
      reads this, active
    {
      active[..received]
    }

    ghost predicate Shows(latest: Latest)
      requires Valid()
      reads this, Inactive()
    {
      Holds(Inactive()[..], latest)
    }

    // rsva11001_connection_malloc and the first rsva11001_connection_open.
    constructor ()
      ensures Valid() && fresh(parser) && fresh(pingBuffer) && fresh(pongBuffer)
      ensures Tail() == [] && Shows(NoImage) && parser.trace == [] && parser.View() == Initial(Response)
      ensures parser.Valid()
    {
      parser := new HttpParser(Response);
      var a := new byte[BUFFER_SIZE](_ => '\0');
      var b := new byte[BUFFER_SIZE](_ => '\0');
      pingBuffer, pongBuffer, active, ping, received := a, b, a, true, 0;
      new;
      ZeroIsNoImage(pongBuffer[..]);
    }

    // rsva11001_connection_open, once the buffers exist: everything starts afresh.
    method Open()
      requires Valid()
      modifies this, pingBuffer, pongBuffer, parser
      ensures Valid() && pingBuffer == old(pingBuffer) && pongBuffer == old(pongBuffer)
      ensures Tail() == [] && Shows(NoImage) && parser.trace == [] && parser.View() == Initial(Response)
      ensures parser.Valid()
    {
      forall i | 0 <= i < BUFFER_SIZE { pongBuffer[i] := '\0'; }
      forall i | 0 <= i < BUFFER_SIZE { pingBuffer[i] := '\0'; }
      ping, active, received := true, pingBuffer, 0;
      parser.Init(Response);
      ZeroIsNoImage(pongBuffer[..]);
    }

    // rsva11001_connection_swapBuffers.
    method SwapBuffers()
      requires Valid()
      modifies this`active, this`ping
      ensures Valid() && ping == !old(ping) && active == old(Inactive()) && Inactive() == old(active)
    {
      active := if ping then pongBuffer else pingBuffer;
      ping := !ping;
    }

    // A frame is complete: swap the buffers, and keep what came after it.
    method StartNext(data: seq<byte>, bytesThisCall: nat)
      requires Valid() && bytesThisCall <= |data| && |data| - bytesThisCall <= BUFFER_SIZE
      modifies this`active, this`ping, this`received, Inactive()
      ensures Valid() && ping == !old(ping) && Tail() == data[bytesThisCall..] && Inactive()[..] == old(active[..])
      ensures pingBuffer == old(pingBuffer) && pongBuffer == old(pongBuffer)
    {
      var overflow := |data| - bytesThisCall;
      SwapBuffers();
      MemCpy(active, 0, data, bytesThisCall, overflow);
      received := overflow;
      assert active[..received] == data[bytesThisCall..];
    }

    // rsva11001_connection_recv: 0 to go on, 1 when a magic value is wrong.
    method Recv(data: seq<byte>, ghost latest: Latest) returns (code: int)
      requires Valid() && Shows(latest) && CanTake(Tail(), data)
      modifies this`active, this`ping, this`received, pingBuffer, pongBuffer
      ensures Valid()
      ensures match Take(old(Tail()), latest, data)
              case Receiving(tail, newest) => code == 0 && Tail() == tail && Shows(newest)
              case Broken(same) => code == 1 && same == latest && Inactive() == old(Inactive())
                && Inactive()[..] == old(Inactive()[..])
              case Lost => false
    {
      hide Take, Received, Filled, FrameLike, Holds, CodeFor, Complete, Footed, ReadBe32;
      ghost var tail := Tail();
      var spaceRemaining := active.Length - received;
      assert spaceRemaining != 0; // assert(spaceRemaining!=0)
      var oldSize := received;
      var amountToCopy := if |data| < spaceRemaining then |data| else spaceRemaining;
      MemCpy(active, oldSize, data, 0, amountToCopy);
      received := received + amountToCopy;
      FilledIs(tail, data, amountToCopy);
      assert Tail() == Filled(tail, data);
      FilledRoom(tail, data);
      code := Examine(data, oldSize, latest);
      Conclude(tail, latest, data, code, Tail(), Inactive()[..]);
    }

    // The rest of the callback, after the new data has been copied into the active buffer.
    method Examine(data: seq<byte>, oldSize: nat, ghost latest: Latest) returns (code: int)
      requires Valid() && Shows(latest) && oldSize <= received && HasRoom(Tail(), oldSize, data)
      modifies this`active, this`ping, this`received, pingBuffer, pongBuffer
      ensures Valid() && code == CodeFor(old(Tail()))
      ensures code == 1 ==> Inactive() == old(Inactive()) && Inactive()[..] == old(Inactive()[..])
      ensures code == 0 && !Complete(old(Tail())) ==> Tail() == old(Tail()) && Shows(latest)
      ensures code == 0 && Complete(old(Tail())) ==>
                var total := TotalLength(old(Tail()));
                && oldSize <= total <= |old(Tail())| && total - oldSize <= |data|
                && Tail() == data[total - oldSize..] && Inactive()[..][..total] == old(Tail())[..total]
    {
      hide FrameLike;
      ghost var buffer, full := Tail(), active[..];
      assert buffer == full[..received];
      if received < HEADER_SIZE { return 0; }
      SliceOfPrefix(full, received, 0, 4);
      SliceOfPrefix(full, received, 4, 8);
      if active[..4] != HEADER { return 1; }
      var jpegLength := ReadBe32(active[4..8]);
      var totalLength := (HEADER_SIZE + jpegLength + FOOTER_SIZE) % U32;
      if totalLength <= received {
        assert Complete(buffer) && HEADER_SIZE + jpegLength + FOOTER_SIZE <= BUFFER_SIZE;
        SliceOfPrefix(full, received, HEADER_SIZE + jpegLength, totalLength);
        SliceOfPrefix(full, received, 0, totalLength);
        if active[HEADER_SIZE + jpegLength..HEADER_SIZE + jpegLength + FOOTER_SIZE] != FOOTER { return 1; }
        assert Footed(buffer);
        StartNext(data, totalLength - oldSize);
      }
      return 0;
    }

    // rsva11001_connection_getLatestImage: the payload of the last image, or size 0 when there is none or it does not
    // fit.
    method GetLatestImage(out: array<byte>, size: nat, ghost latest: Latest) returns (ok: bool, written: nat)
      requires Valid() && Shows(latest) && size <= out.Length && out != pingBuffer && out != pongBuffer
      modifies out
      ensures ok == (latest.Image? ==> |PayloadOf(latest.frame)| <= size)
      ensures written == if latest.Image? && ok then |PayloadOf(latest.frame)| else 0
      ensures written <= size && out[written..] == old(out[written..])
      ensures latest.Image? && ok ==> out[..written] == PayloadOf(latest.frame)
    {
      ok, written := true, 0;
      var buffer := if ping then pongBuffer else pingBuffer;
      ghost var full := buffer[..];
      assert full[..4] == buffer[..4];
      if latest.Image? { HeldImage(full, latest.frame); }
      if buffer[..4] != HEADER { return; }
      assert full[4..8] == buffer[4..8];
      var jpegLength := ReadBe32(buffer[4..8]);
      assert full[HEADER_SIZE + jpegLength..][..FOOTER_SIZE]
             == buffer[HEADER_SIZE + jpegLength..HEADER_SIZE + jpegLength + FOOTER_SIZE];
      if buffer[HEADER_SIZE + jpegLength..HEADER_SIZE + jpegLength + FOOTER_SIZE] != FOOTER { return; }
      if size < jpegLength { return false, 0; }
      MemCpy(out, 0, buffer[..], HEADER_SIZE, jpegLength);
      assert out[..jpegLength] == out[0..jpegLength];
      return true, jpegLength;
    }

    // The buffers hold what the body callbacks among the first n events of the trace make of them.
    ghost predicate InStep(n: nat)
      requires Valid() && n <= |parser.trace|
      reads this, parser, pingBuffer, pongBuffer
    {
      match Received(BodyPieces(parser.trace[..n]))
      case Receiving(tail, latest) => Tail() == tail && Shows(latest)
      case Broken(latest) => Shows(latest)
      case Lost => false
    }

    // Between calls: once a magic value was wrong, the parser is in its error state for good.
    ghost predicate Consistent()
      reads this, parser, pingBuffer, pongBuffer
    {
      && Valid() && parser.Valid() && InStep(|parser.trace|)
      && (IsStop(parser.errno) ==> parser.errno == CbData(Body))
      && (Received(BodyPieces(parser.trace)).Broken? <==> parser.errno == CbData(Body))
    }

    // The body callbacks from the given event on.
    method Deliver(from: nat)
      requires Valid() && from <= |parser.trace| && InStep(from)
      requires forall i | from <= i < |parser.trace| :: Received(BodyPieces(parser.trace[..i])).Receiving?
      requires !Received(BodyPieces(parser.trace)).Lost?
      modifies this`active, this`ping, this`received, pingBuffer, pongBuffer
      ensures Valid() && InStep(|parser.trace|)
      ensures from == |parser.trace| ==> Inactive() == old(Inactive()) && Inactive()[..] == old(Inactive()[..])
    {
      hide Received, Take, CanTake, Holds, BodyPieces;
      var i := from;
      while i < |parser.trace|
        invariant from <= i <= |parser.trace| && Valid() && InStep(i)
        invariant i == from ==> ping == old(ping) && Inactive()[..] == old(Inactive()[..])
      {
        var e := parser.trace[i];
        ghost var pieces := BodyPieces(parser.trace[..i]);
        if i + 1 == |parser.trace| { assert parser.trace[..i + 1] == parser.trace; }
        OneEvent(parser.trace, i);
        if e.Data? && e.kind == Body {
          var code := Recv(e.bytes, Received(pieces).latest);
          assert code == BodyReply(parser.trace[..i + 1]).code;
        }
        i := i + 1;
      }
    }

    // The read loop of rsva11001_connection_process: one recv, handed to the parser. However the callbacks cut what it
    // delivers, the buffers follow; and a parser in an error state leaves everything as it is.
    method Receive(data: seq<byte>) returns (ghost n: nat)
      requires Consistent() && data != []
      requires parser.errno.OK? ==> HasSpace(parser.trace, parser.View(), data)
      modifies this`active, this`ping, this`received, pingBuffer, pongBuffer, parser
      ensures Consistent() && Grew(BodyReply, old(parser.trace), parser.trace, |data|,
                                   if old(parser.errno).OK? then parser.errno else OK)
      ensures old(parser.errno).OK? ==>
                Returned(Account(old(parser.View()), data, NO_SKIP, [], false), old(parser.trace), data, NO_SKIP, n,
                         parser.View(), parser.trace)
      ensures !old(parser.errno).OK? ==>
                parser.View() == old(parser.View()) && parser.trace == old(parser.trace)
                && Inactive() == old(Inactive()) && Inactive()[..] == old(Inactive()[..])
    {
      hide Run, Received, Take, CanTake, Holds, BodyPieces, BodyReply, Grew, Inv, Returned, HeaderLimit.Spared;
      ghost var t := parser.trace;
      RepliesToHead();
      var from := |parser.trace|;
      var m := parser.Execute(data, BodyReply, NO_SKIP, [], false);
      n := m;
      if old(parser.errno).OK? {
        ReturnedBegins(Account(old(parser.View()), data, NO_SKIP, [], false), t, data, n, parser.View(), parser.trace);
        GrewExtends(t, parser.trace, |data|, parser.errno);
        Heeded(t, parser.trace, |data|, parser.errno);
      }
      assert t[..|t|] == t && parser.trace[..|parser.trace|] == parser.trace;
      assert InStep(|t|) by { assert parser.trace[..|t|] == t; }
      Deliver(from);
    }
  }

  // The trace u continues t with data events no longer than n.
  ghost predicate Extends(t: seq<Event>, u: seq<Event>, n: nat) {
    t <= u && forall i | |t| <= i < |u| :: u[i].Data? ==> |u[i].bytes| <= n
  }

  // What the source needs of the DVR: however the parser v cuts the body bytes in the data, the buffers have room.
  ghost predicate HasSpace(t: seq<Event>, v: Parser, data: seq<byte>)
    requires Ready(v)
  {
    forall u: seq<Event> | Extends(t, u, |data|) && Begins(u, t + Run(v, data, NO_SKIP).events) ::
      !Received(BodyPieces(u)).Lost?
  }

  lemma RepliesToHead()
    ensures AnswersHead(BodyReply, NO_SKIP)
  {
  }

  lemma ReturnedBegins(r: Aim, t0: seq<Event>, data: seq<byte>, n: nat, w: Parser, t: seq<Event>)
    requires Returned(r, t0, data, NO_SKIP, n, w, t)
    ensures Begins(t, t0 + r.run.events)
  {
    hide Run, HeaderLimit.Spared;
  }

  lemma GrewExtends(t: seq<Event>, u: seq<Event>, n: nat, e: Errno)
    requires Grew(BodyReply, t, u, n, e)
    ensures Extends(t, u, n)
  {
    hide BodyReply;
  }

  // Lost stays lost.
  lemma {:induction false} NeverLost(t: seq<Event>, i: nat)
    requires i <= |t| && !Received(BodyPieces(t)).Lost?
    ensures !Received(BodyPieces(t[..i])).Lost?
    decreases |t|
  {
    hide CanTake, Take;
    var n := |t| - 1;
    if i == |t| {
      assert t[..i] == t;
    } else {
      var pieces := BodyPieces(t[..n]);
      if t[n].Data? { assert (pieces + [t[n].bytes])[..|pieces|] == pieces; }
      NeverLost(t[..n], i);
      assert t[..n][..i] == t[..i];
    }
  }

  // A callback that does not stop the parser leaves it receiving.
  lemma NotStopped(t: seq<Event>)
    requires t != [] && Received(BodyPieces(t[..|t| - 1])).Receiving? && !Received(BodyPieces(t)).Lost?
    ensures Stopped(BodyReply, t) == if Received(BodyPieces(t)).Broken? then CbData(Body) else OK
  {
    hide CanTake, Take, Received, BodyPieces;
    assert t[..|t|] == t;
    OneEvent(t, |t| - 1);
  }

  lemma {:induction false} StillReceiving(t: seq<Event>, u: seq<Event>, n: nat, e: Errno, i: nat)
    requires Grew(BodyReply, t, u, n, e) && Received(BodyPieces(t)).Receiving? && !Received(BodyPieces(u)).Lost?
    requires |t| <= i < |u| || i == |t|
    ensures Received(BodyPieces(u[..i])).Receiving?
  {
    hide Received, BodyPieces, BodyReply, Stopped;
    NeverLost(u, i);
    if i == |t| {
      assert u[..i] == t;
    } else {
      StillReceiving(t, u, n, e, i - 1);
      assert u[..i][..i - 1] == u[..i - 1];
      NotStopped(u[..i]);
    }
  }

  // The callback that meets a wrong magic value is the last one, and its error is the parser's.
  lemma Heeded(t: seq<Event>, u: seq<Event>, n: nat, e: Errno)
    requires Grew(BodyReply, t, u, n, e) && Received(BodyPieces(t)).Receiving? && !Received(BodyPieces(u)).Lost?
    ensures forall i | |t| <= i < |u| :: Received(BodyPieces(u[..i])).Receiving?
    ensures (IsStop(e) ==> e == CbData(Body)) && (Received(BodyPieces(u)).Broken? <==> e == CbData(Body))
  {
    hide Received, BodyPieces, BodyReply, Stopped;
    forall i | |t| <= i < |u|
      ensures Received(BodyPieces(u[..i])).Receiving?
    {
      StillReceiving(t, u, n, e, i);
    }
    if u != t {
      assert Received(BodyPieces(u[..|u| - 1])).Receiving?;
      NotStopped(u);
    }
  }

  lemma HeldImage(buffer: seq<byte>, f: seq<byte>)
    requires Holds(buffer, Image(f))
    ensures buffer[..4] == HEADER && HEADER_SIZE + ReadBe32(buffer[4..8]) + FOOTER_SIZE == |f| <= BUFFER_SIZE
    ensures buffer[|f| - FOOTER_SIZE..][..FOOTER_SIZE] == FOOTER
    ensures buffer[HEADER_SIZE..|f| - FOOTER_SIZE] == PayloadOf(f)
  {
    assert buffer[..|f|] == f;
    assert f[..4] == buffer[..4] && f[4..8] == buffer[4..8]
           && f[|f| - FOOTER_SIZE..] == buffer[|f| - FOOTER_SIZE..][..FOOTER_SIZE];
    assert buffer[HEADER_SIZE..|f| - FOOTER_SIZE] == f[HEADER_SIZE..|f| - FOOTER_SIZE];
  }

  // What one more event means for the reassembly.
  lemma OneEvent(t: seq<Event>, i: nat)
    requires i < |t| && Received(BodyPieces(t[..i])).Receiving? && !Received(BodyPieces(t[..i + 1])).Lost?
    ensures var rx, e := Received(BodyPieces(t[..i])), t[i];
            if e.Data? && e.kind == Body then
              CanTake(rx.tail, e.bytes) && Received(BodyPieces(t[..i + 1])) == Take(rx.tail, rx.latest, e.bytes)
            else Received(BodyPieces(t[..i + 1])) == rx
  {
    hide Take, CanTake;
    assert t[..i + 1][..i] == t[..i] && t[..i + 1][i] == t[i];
    var pieces := BodyPieces(t[..i]);
    if t[i].Data? { assert (pieces + [t[i].bytes])[..|pieces|] == pieces; }
  }

  // What CanTake asks, once the piece has been copied.
  predicate HasRoom(buffer: seq<byte>, oldSize: nat, data: seq<byte>) {
    Complete(buffer) ==>
      && FooterAt(buffer) + FOOTER_SIZE <= BUFFER_SIZE
      && (Footed(buffer) ==>
            var total := TotalLength(buffer);
            oldSize <= total && total - oldSize <= |data| && |data| - (total - oldSize) <= BUFFER_SIZE)
  }

  lemma FilledRoom(tail: seq<byte>, piece: seq<byte>)
    requires CanTake(tail, piece)
    ensures HasRoom(Filled(tail, piece), |tail|, piece)
  {
  }

  // What the callback did is what Take says.
  lemma Conclude(tail: seq<byte>, latest: Latest, data: seq<byte>, code: int, tail': seq<byte>, shown: seq<byte>)
    requires CanTake(tail, data) && code == CodeFor(Filled(tail, data))
    requires code == 0 && !Complete(Filled(tail, data)) ==> tail' == Filled(tail, data) && Holds(shown, latest)
    requires code == 0 && Complete(Filled(tail, data)) ==>
               var total := TotalLength(Filled(tail, data));
               && |tail| <= total <= |Filled(tail, data)| && total - |tail| <= |data|
               && tail' == data[total - |tail|..] && |shown| == BUFFER_SIZE
               && shown[..total] == Filled(tail, data)[..total]
    ensures match Take(tail, latest, data)
            case Receiving(t, newest) => code == 0 && tail' == t && Holds(shown, newest)
            case Broken(same) => code == 1 && same == latest
            case Lost => false
  {
    hide ReadBe32, FrameLike;
    TakenFrames(tail, latest, data);
    if Complete(Filled(tail, data)) { CompleteInside(tail, data); }
  }

  // Which of the two magic values is there to be checked, and wrong: the code of the callback.
  function CodeFor(buffer: seq<byte>): int {
    if |buffer| < HEADER_SIZE then 0
    else if buffer[..4] != HEADER then 1
    else if Complete(buffer) && !Footed(buffer) then 1 else 0
  }

  lemma SliceOfPrefix(s: seq<byte>, n: nat, i: nat, j: nat)
    requires i <= j <= n <= |s|
    ensures s[..n][i..j] == s[i..j]
  {
  }

  lemma FilledIs(tail: seq<byte>, piece: seq<byte>, n: nat)
    requires |tail| <= BUFFER_SIZE && n == if |piece| < BUFFER_SIZE - |tail| then |piece| else BUFFER_SIZE - |tail|
    ensures Filled(tail, piece) == tail + piece[0..n]
  {
  }

  method MemCpy(dst: array<byte>, at: nat, src: seq<byte>, from: nat, n: nat)
    requires at + n <= dst.Length && from + n <= |src|
    modifies dst
    ensures dst[..at] == old(dst[..at]) && dst[at..at + n] == src[from..from + n] && dst[at + n..] == old(dst[at + n..])
    ensures dst[..at + n] == old(dst[..at]) + src[from..from + n]
  {
    forall i | 0 <= i < n { dst[at + i] := src[from + i]; }
    assert dst[at..at + n] == src[from..from + n];
    assert dst[..at] == old(dst[..at]);
    assert dst[..at + n] == dst[..at] + dst[at..at + n];
  }

  lemma ZeroIsNoImage(buffer: seq<byte>)
    requires |buffer| == BUFFER_SIZE && forall i | 0 <= i < |buffer| :: buffer[i] == '\0'
    ensures Holds(buffer, NoImage)
  {
    assert buffer[..4][0] == '\0';
  }
}
