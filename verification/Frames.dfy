/** JPGS frames as the DVR sends them, and their reassembly from arbitrary pieces, on values (src/rsva11001.c:68-178).
    The buffers themselves are in module Receiver. */
module Frames {
  import opened Bytes
  import Feeding

  const HEADER: seq<byte> := "JPGS"
  const FOOTER: seq<byte> := "JPGE"
  const HEADER_SIZE: nat := 8
  const FOOTER_SIZE: nat := 4

  const BUFFER_SIZE: nat := 16383 * 2 // of each receive buffer
  const RECV_SIZE: nat := 16383       // of one recv

  const U32: int := 0x1_0000_0000

  // A 32-bit number in network byte order.
  function Be32(n: nat): (s: seq<byte>)
    requires n < U32
    ensures |s| == 4
  {
    [(n / 0x100_0000) as char, (n / 0x1_0000 % 0x100) as char, (n / 0x100 % 0x100) as char, (n % 0x100) as char]
  }

  // memcpy and ntohl.
  function ReadBe32(s: seq<byte>): (n: nat)
    requires |s| == 4
    ensures n < U32
  {
    s[0] as int * 0x100_0000 + s[1] as int * 0x1_0000 + s[2] as int * 0x100 + s[3] as int
  }

  lemma Be32RoundTrip(n: nat)
    requires n < U32
    ensures ReadBe32(Be32(n)) == n
  {
    var a, b, c := n / 0x100, n / 0x1_0000, n / 0x100_0000;
    assert b == a / 0x100 && c == b / 0x100;
  }

  // One image on the wire.
  function Frame(payload: seq<byte>): (f: seq<byte>)
    requires |payload| < U32
    ensures |f| == |payload| + HEADER_SIZE + FOOTER_SIZE
  {
    HEADER + Be32(|payload|) + payload + FOOTER
  }

  predicate FitsBuffer(payload: seq<byte>) { |payload| + HEADER_SIZE + FOOTER_SIZE <= BUFFER_SIZE }

  predicate AllFit(fs: seq<seq<byte>>) { forall i | 0 <= i < |fs| :: FitsBuffer(fs[i]) }

  function Wire(fs: seq<seq<byte>>): seq<byte>
    requires AllFit(fs)
  {
    if fs == [] then [] else Frame(fs[0]) + Wire(fs[1..])
  }

  /* ---- Reassembly. ---- */

  datatype Latest = NoImage | Image(frame: seq<byte>)

  // Receiving: the bytes of the frame being received, and the last complete frame. Broken: a magic value was wrong.
  // Lost: an assertion of the source fails, or it leaves its buffers.
  datatype Rx = Receiving(tail: seq<byte>, latest: Latest) | Broken(latest: Latest) | Lost

  // uint32_t arithmetic: HEADER_SIZE + jpegLength + FOOTER_SIZE.
  function TotalLength(buffer: seq<byte>): nat
    requires |buffer| >= HEADER_SIZE
  {
    (HEADER_SIZE + ReadBe32(buffer[4..8]) + FOOTER_SIZE) % U32
  }

  // Where the footer is looked for: pointer arithmetic, which does not wrap around.
  function FooterAt(buffer: seq<byte>): nat
    requires |buffer| >= HEADER_SIZE
  {
    HEADER_SIZE + ReadBe32(buffer[4..8])
  }

  // What the active buffer holds once the piece has been copied, as far as there is room.
  function Filled(tail: seq<byte>, piece: seq<byte>): seq<byte>
    requires |tail| <= BUFFER_SIZE
  {
    tail + piece[..if |piece| <= BUFFER_SIZE - |tail| then |piece| else BUFFER_SIZE - |tail|]
  }

  // The source takes the frame in the buffer to be complete, and looks at its footer.
  predicate Complete(buffer: seq<byte>) {
    |buffer| >= HEADER_SIZE && buffer[..4] == HEADER && TotalLength(buffer) <= |buffer|
  }

  // The footer lies in the bytes received, and is right.
  predicate Footed(buffer: seq<byte>)
    requires |buffer| >= HEADER_SIZE
  {
    FooterAt(buffer) + FOOTER_SIZE <= |buffer| && buffer[FooterAt(buffer)..FooterAt(buffer) + FOOTER_SIZE] == FOOTER
  }

  // Exactly when the source keeps to its assertions and its buffers: there is room for a byte; the footer it looks at
  // is inside the buffer; and the bytes it copies after a complete frame are bytes of the piece that fit the other
  // buffer.
  predicate CanTake(tail: seq<byte>, piece: seq<byte>) {
    && |tail| < BUFFER_SIZE
    && var buffer := Filled(tail, piece);
       Complete(buffer) ==>
         && FooterAt(buffer) + FOOTER_SIZE <= BUFFER_SIZE
         && (Footed(buffer) ==>
               |tail| <= TotalLength(buffer) && |piece| - (TotalLength(buffer) - |tail|) <= BUFFER_SIZE)
  }

  // A complete frame, its length not having wrapped around, lies in the bytes received.
  lemma CompleteInside(tail: seq<byte>, piece: seq<byte>)
    requires CanTake(tail, piece) && Complete(Filled(tail, piece))
    ensures var buffer := Filled(tail, piece); TotalLength(buffer) == FooterAt(buffer) + FOOTER_SIZE <= |buffer|
  {
  }

  function Take(tail: seq<byte>, latest: Latest, piece: seq<byte>): Rx
    requires CanTake(tail, piece)
  {
    var buffer := Filled(tail, piece);
    if |buffer| < HEADER_SIZE then Receiving(buffer, latest)
    else if buffer[..4] != HEADER then Broken(latest)
    else
      var total := TotalLength(buffer);
      if total > |buffer| then Receiving(buffer, latest)
      else if !Footed(buffer) then Broken(latest)
      else Receiving(piece[total - |tail|..], Image(buffer[..total]))
  }

  lemma FrameReads(payload: seq<byte>)
    requires FitsBuffer(payload)
    ensures var f := Frame(payload);
            && f[..4] == HEADER && ReadBe32(f[4..8]) == |payload| && TotalLength(f) == |f|
            && f[8..8 + |payload|] == payload && f[|f| - FOOTER_SIZE..] == FOOTER
  {
    Be32RoundTrip(|payload|);
    assert Frame(payload)[4..8] == Be32(|payload|);
  }

  // A frame byte by byte: JPGS, the length of the payload in four digits of 256, the payload, JPGE.
  lemma FrameBytes(payload: seq<byte>)
    requires FitsBuffer(payload)
    ensures var f, n := Frame(payload), |payload|;
            && |f| == n + 12 && f[..4] == ['J', 'P', 'G', 'S'] && f[8..8 + n] == payload
            && f[8 + n..] == ['J', 'P', 'G', 'E']
            && n == ((f[4] as int * 256 + f[5] as int) * 256 + f[6] as int) * 256 + f[7] as int
  {
    FrameReads(payload);
    assert Frame(payload)[4..8] == Be32(|payload|);
  }

  // The number in the header of a frame.
  function LengthIn(b: seq<byte>): nat
    requires |b| >= 8
  {
    ((b[4] as int * 256 + b[5] as int) * 256 + b[6] as int) * 256 + b[7] as int
  }

  // Which bytes break a connection, if they fit the buffer: eight or more that do not begin with JPGS, or a whole frame
  // of the length in its header that does not end in JPGE. A whole frame that does is the new image, and what comes
  // after it begins the next.
  lemma TakeOutcome(tail: seq<byte>, latest: Latest, piece: seq<byte>)
    requires CanTake(tail, piece) && |tail + piece| <= 32766
    ensures var b, rx := tail + piece, Take(tail, latest, piece);
            if |b| < 8 then rx == Receiving(b, latest)
            else if b[..4] != ['J', 'P', 'G', 'S'] then rx == Broken(latest)
            else
              var e := LengthIn(b) + 12;
              if |b| < e then rx == Receiving(b, latest)
              else if b[e - 4..e] == ['J', 'P', 'G', 'E'] then
                rx == Receiving(b[e..], Image(b[..e]))
              else rx == Broken(latest)
  {
    var b := tail + piece;
    assert Filled(tail, piece) == b;
    if |b| >= 8 {
      LengthReads(b);
      if Complete(b) { CompleteInside(tail, piece); }
      hide ReadBe32, LengthIn;
      var e := LengthIn(b) + 12;
      if |tail| <= e <= |b| { assert piece[e - |tail|..] == b[e..]; }
    }
  }

  lemma LengthReads(b: seq<byte>)
    requires |b| >= 8
    ensures ReadBe32(b[4..8]) == LengthIn(b)
  {
  }

  // A buffer that agrees with the frame as far as both go.
  ghost predicate AgreesWith(buffer: seq<byte>, f: seq<byte>) {
    forall i | 0 <= i < |buffer| && i < |f| :: buffer[i] == f[i]
  }

  lemma AgreesReads(buffer: seq<byte>, payload: seq<byte>)
    requires FitsBuffer(payload) && AgreesWith(buffer, Frame(payload)) && |buffer| >= HEADER_SIZE
    ensures buffer[..4] == HEADER && ReadBe32(buffer[4..8]) == |payload| && TotalLength(buffer) == |Frame(payload)|
    ensures |Frame(payload)| <= |buffer| ==>
              buffer[..|Frame(payload)|] == Frame(payload)
              && buffer[|Frame(payload)| - FOOTER_SIZE..|Frame(payload)|] == FOOTER
  {
    var f := Frame(payload);
    FrameReads(payload);
    assert buffer[..4] == f[..4] && buffer[4..8] == f[4..8];
    if |f| <= |buffer| {
      assert buffer[..|f|] == f;
      assert buffer[|f| - FOOTER_SIZE..|f|] == f[|f| - FOOTER_SIZE..];
    }
  }

  lemma FilledAgrees(f: seq<byte>, rest: seq<byte>, tail: seq<byte>, piece: seq<byte>)
    requires |tail| < |f| <= BUFFER_SIZE && tail + piece <= f + rest
    ensures AgreesWith(tail, f) && AgreesWith(Filled(tail, piece), f)
    ensures |f| <= |Filled(tail, piece)| <==> |f| <= |tail + piece|
    ensures |tail + piece| < |f| ==> Filled(tail, piece) == tail + piece
  {
    var buffer, all := Filled(tail, piece), f + rest;
    forall i | 0 <= i < |buffer| && i < |f|
      ensures buffer[i] == f[i] && (i < |tail| ==> tail[i] == f[i])
    {
      assert buffer[i] == (tail + piece)[i] == all[i];
    }
    forall i | 0 <= i < |tail| && i < |f|
      ensures tail[i] == f[i]
    {
      assert tail[i] == (tail + piece)[i] == all[i];
    }
  }

  // One piece, while an incomplete frame is being received and a further stream may follow it.
  lemma TakeFrame(payload: seq<byte>, rest: seq<byte>, tail: seq<byte>, latest: Latest, piece: seq<byte>)
    requires FitsBuffer(payload) && |piece| <= RECV_SIZE && |tail| < |Frame(payload)|
    requires tail + piece <= Frame(payload) + rest
    ensures CanTake(tail, piece)
    ensures Take(tail, latest, piece) ==
            if |tail + piece| < |Frame(payload)| then Receiving(tail + piece, latest)
            else Receiving((tail + piece)[|Frame(payload)|..], Image(Frame(payload)))
  {
    var f, buffer := Frame(payload), Filled(tail, piece);
    FilledAgrees(f, rest, tail, piece);
    if |tail| >= HEADER_SIZE { AgreesReads(tail, payload); }
    if |buffer| >= HEADER_SIZE { AgreesReads(buffer, payload); }
    hide Filled, Frame, TotalLength, AgreesWith;
    if |f| <= |tail + piece| {
      assert piece[|f| - |tail|..] == (tail + piece)[|f|..];
    }
  }

  // The body callback over pieces, oldest first.
  function Received(pieces: seq<seq<byte>>): Rx {
    if pieces == [] then Receiving([], NoImage)
    else
      match Received(pieces[..|pieces| - 1])
      case Receiving(tail, latest) =>
        var piece := pieces[|pieces| - 1];
        if CanTake(tail, piece) then Take(tail, latest, piece) else Lost
      case Broken(latest) => Broken(latest)
      case Lost => Lost
  }

  lemma {:induction false} ConcatSnoc(pieces: seq<seq<byte>>, piece: seq<byte>)
    ensures Feeding.Concat(pieces + [piece]) == Feeding.Concat(pieces) + piece
  {
    if pieces == [] {
      assert (pieces + [piece])[1..] == [];
    } else {
      ConcatSnoc(pieces[1..], piece);
      assert (pieces + [piece])[1..] == pieces[1..] + [piece];
    }
  }

  lemma {:induction false} WireConcat(a: seq<seq<byte>>, b: seq<seq<byte>>)
    requires AllFit(a) && AllFit(b)
    ensures AllFit(a + b) && Wire(a + b) == Wire(a) + Wire(b)
  {
    hide Frame;
    if a == [] {
      assert a + b == b;
    } else {
      assert (a + b)[0] == a[0];
      WireConcat(a[1..], b);
      assert (a + b)[1..] == a[1..] + b;
    }
  }

  // After n bytes of the stream, c frames are complete and the next one, if there is one, is not.
  ghost predicate FramesDone(fs: seq<seq<byte>>, n: nat, c: nat)
    requires AllFit(fs)
  {
    && c <= |fs| && |Wire(fs[..c])| <= n <= |Wire(fs)| && (c < |fs| ==> n < |Wire(fs[..c + 1])|)
  }

  lemma WireOne(f: seq<byte>)
    requires FitsBuffer(f)
    ensures AllFit([f]) && Wire([f]) == Frame(f)
  {
    hide Frame;
    var one := [f];
    assert one[1..] == [] && Wire(one[1..]) == [];
  }

  lemma WireFrom(fs: seq<seq<byte>>, c: nat)
    requires AllFit(fs) && c < |fs|
    ensures Wire(fs[c..]) == Frame(fs[c]) + Wire(fs[c + 1..])
  {
    hide Frame;
    assert fs[c..][0] == fs[c] && fs[c..][1..] == fs[c + 1..];
  }

  lemma WireSplit(fs: seq<seq<byte>>, c: nat)
    requires AllFit(fs) && c < |fs|
    ensures Wire(fs) == Wire(fs[..c]) + (Frame(fs[c]) + Wire(fs[c + 1..]))
    ensures Wire(fs[..c + 1]) == Wire(fs[..c]) + Frame(fs[c])
  {
    hide Frame, Wire;
    WireFrom(fs, c);
    WireOne(fs[c]);
    assert fs == fs[..c] + fs[c..] && fs[..c + 1] == fs[..c] + [fs[c]];
    WireConcat(fs[..c], fs[c..]);
    WireConcat(fs[..c], [fs[c]]);
  }

  // A piece of n bytes fits one recv and is no longer than any frame.
  ghost predicate NoLonger(n: nat, fs: seq<seq<byte>>)
    requires AllFit(fs)
  {
    n <= RECV_SIZE && forall j | 0 <= j < |fs| :: n <= |Frame(fs[j])|
  }

  ghost predicate NoLongerThanFrames(pieces: seq<seq<byte>>, fs: seq<seq<byte>>)
    requires AllFit(fs)
  {
    forall i | 0 <= i < |pieces| :: NoLonger(|pieces[i]|, fs)
  }

  lemma ShortPiece(pieces: seq<seq<byte>>, fs: seq<seq<byte>>, i: nat, j: nat)
    requires AllFit(fs) && NoLongerThanFrames(pieces, fs) && i < |pieces| && j < |fs|
    ensures |pieces[i]| <= RECV_SIZE && |pieces[i]| <= |Frame(fs[j])|
  {
  }

  // The last of the first c frames.
  function LatestOf(fs: seq<seq<byte>>, c: nat): Latest
    requires AllFit(fs) && c <= |fs|
  {
    if c == 0 then NoImage else Image(Frame(fs[c - 1]))
  }

  // What is being received once c frames of the stream are complete.
  ghost predicate UpTo(rx: Rx, fs: seq<seq<byte>>, stream: seq<byte>, c: nat)
    requires AllFit(fs)
  {
    FramesDone(fs, |stream|, c) && rx == Receiving(stream[|Wire(fs[..c])|..], LatestOf(fs, c))
  }

  // The unfinished end of the stream and the piece after it, against the frame they belong to.
  lemma EndOfStream(whole: seq<byte>, head: seq<byte>, f: seq<byte>, rest: seq<byte>, stream: seq<byte>,
                    piece: seq<byte>)
    requires whole == head + (f + rest) && stream + piece <= whole && |head| <= |stream|
    ensures stream[|head|..] + piece == (stream + piece)[|head|..] && stream[|head|..] + piece <= f + rest
  {
    assert whole[|head|..] == f + rest;
    assert (stream + piece)[|head|..] == whole[|head|..|stream + piece|] == (f + rest)[..|stream + piece| - |head|];
  }

  // One more piece of a stream of frames.
  lemma OnePiece(fs: seq<seq<byte>>, stream: seq<byte>, piece: seq<byte>, rx: Rx, c: nat) returns (d: nat)
    requires AllFit(fs) && stream + piece <= Wire(fs) && NoLongerThanFrames([piece], fs) && UpTo(rx, fs, stream, c)
    ensures CanTake(rx.tail, piece) && UpTo(Take(rx.tail, rx.latest, piece), fs, stream + piece, d)
  {
    hide Frame, CanTake, Take, Wire;
    var more, b := stream + piece, |Wire(fs[..c])|;
    assert |more| <= |Wire(fs)|;
    if c == |fs| {
      assert fs[..c] == fs;
      assert piece == [] && rx.tail == [] && more[b..] == [];
      TakeNothing(rx.latest);
      d := c;
    } else {
      assert |piece| <= RECV_SIZE by { ShortPiece([piece], fs, 0, c); }
      WireSplit(fs, c);
      var f, rest := Frame(fs[c]), Wire(fs[c + 1..]);
      EndOfStream(Wire(fs), Wire(fs[..c]), f, rest, stream, piece);
      TakeFrame(fs[c], rest, rx.tail, rx.latest, piece);
      if |rx.tail + piece| < |f| {
        d := c;
      } else {
        d := c + 1;
        assert (rx.tail + piece)[|f|..] == more[b + |f|..];
        if d < |fs| {
          WireSplit(fs, d);
          ShortPiece([piece], fs, 0, d);
        }
      }
    }
  }

  lemma TakeNothing(latest: Latest)
    ensures CanTake([], []) && Take([], latest, []) == Receiving([], latest)
  {
  }

  // Reassembly of a stream of frames cut into any pieces, none longer than any frame: after every piece, what is being
  // received is the unfinished end of the stream, and the latest image is the last frame completed.
  lemma {:induction false} Reassembly(fs: seq<seq<byte>>, pieces: seq<seq<byte>>) returns (c: nat)
    requires AllFit(fs) && Feeding.Concat(pieces) <= Wire(fs) && NoLongerThanFrames(pieces, fs)
    ensures UpTo(Received(pieces), fs, Feeding.Concat(pieces), c)
    decreases |pieces|
  {
    var n := |pieces| - 1;
    if pieces == [] {
      c := 0;
      assert fs[..0] == [];
      if fs != [] { WireSplit(fs, 0); }
    } else {
      assert pieces == pieces[..n] + [pieces[n]];
      ConcatSnoc(pieces[..n], pieces[n]);
      assert [pieces[n]][0] == pieces[n];
      c := Reassembly(fs, pieces[..n]);
      c := OnePiece(fs, Feeding.Concat(pieces[..n]), pieces[n], Received(pieces[..n]), c);
    }
  }

  // Once a magic value was wrong, no later piece changes the latest image.
  lemma {:induction false} BrokenStays(pieces: seq<seq<byte>>, more: seq<seq<byte>>)
    requires Received(pieces).Broken?
    ensures Received(pieces + more) == Received(pieces)
    decreases |more|
  {
    if more == [] {
      assert pieces + more == pieces;
    } else {
      var n := |more| - 1;
      BrokenStays(pieces, more[..n]);
      assert (pieces + more)[..|pieces| + n] == pieces + more[..n];
    }
  }
}
