/** The callbacks an application sees, and the trace with adjacent data callbacks of one kind run together.
    src/http_parser.h:61-75: a data callback may be called arbitrarily many times for each string. */
module Trace {
  import opened Bytes
  import opened ParserState

  datatype Event = Told(note: Note) | Data(kind: Kind, bytes: seq<byte>)

  // Appends one event, running it into the last one when both are data of one kind.
  function Join(t: seq<Event>, e: Event): seq<Event> {
    if t != [] && t[|t| - 1].Data? && e.Data? && t[|t| - 1].kind == e.kind then
      t[..|t| - 1] + [Data(e.kind, t[|t| - 1].bytes + e.bytes)]
    else t + [e]
  }

  function JoinAll(m: seq<Event>, t: seq<Event>): seq<Event> {
    if t == [] then m else Join(JoinAll(m, t[..|t| - 1]), t[|t| - 1])
  }

  function Merge(t: seq<Event>): seq<Event> { JoinAll([], t) }

  lemma JoinData(m: seq<Event>, k: Kind, x: seq<byte>, y: seq<byte>)
    ensures Join(Join(m, Data(k, x)), Data(k, y)) == Join(m, Data(k, x + y))
  {
    if m != [] && m[|m| - 1].Data? && m[|m| - 1].kind == k {
      assert m[|m| - 1].bytes + x + y == m[|m| - 1].bytes + (x + y);
    }
  }

  lemma {:induction false} JoinAllConcat(m: seq<Event>, a: seq<Event>, b: seq<Event>)
    ensures JoinAll(m, a + b) == JoinAll(JoinAll(m, a), b)
  {
    if b == [] {
      assert a + b == a;
    } else {
      assert (a + b)[..|a + b| - 1] == a + b[..|b| - 1];
      JoinAllConcat(m, a, b[..|b| - 1]);
    }
  }

  lemma {:induction false} JoinAllMerged(m: seq<Event>, b: seq<Event>)
    ensures JoinAll(m, Merge(b)) == JoinAll(m, b)
  {
    if b != [] {
      var c, e := Merge(b[..|b| - 1]), b[|b| - 1];
      JoinAllMerged(m, b[..|b| - 1]);
      if c != [] && c[|c| - 1].Data? && e.Data? && c[|c| - 1].kind == e.kind {
        var d := c[..|c| - 1];
        JoinData(JoinAll(m, d), e.kind, c[|c| - 1].bytes, e.bytes);
        assert Merge(b)[..|d|] == d;
      } else {
        assert Merge(b)[..|c|] == c;
      }
    }
  }

  // Merging is a congruence for concatenation, on both sides.
  lemma MergeCongruence(a: seq<Event>, a': seq<Event>, b: seq<Event>, b': seq<Event>)
    requires Merge(a) == Merge(a') && Merge(b) == Merge(b')
    ensures Merge(a + b) == Merge(a' + b')
  {
    JoinAllConcat([], a, b);
    JoinAllConcat([], a', b');
    JoinAllMerged(Merge(a), b);
    JoinAllMerged(Merge(a), b');
  }

  // Two adjacent data events of one kind count as one.
  lemma MergeSplitData(a: seq<Event>, k: Kind, x: seq<byte>, y: seq<byte>)
    ensures Merge(a + [Data(k, x)] + [Data(k, y)]) == Merge(a + [Data(k, x + y)])
  {
    assert (a + [Data(k, x)] + [Data(k, y)])[..|a| + 1] == a + [Data(k, x)];
    assert (a + [Data(k, x)])[..|a|] == a == (a + [Data(k, x + y)])[..|a|];
    JoinData(Merge(a), k, x, y);
    JoinAllConcat([], a, [Data(k, x)]);
  }

  // The trace in which every byte is delivered on its own.
  function Singles(k: Kind, bytes: seq<byte>): (t: seq<Event>)
    ensures |t| == |bytes|
  {
    if bytes == [] then [] else Singles(k, bytes[..|bytes| - 1]) + [Data(k, bytes[|bytes| - 1..])]
  }

  lemma {:induction false} MergeSingles(a: seq<Event>, k: Kind, bytes: seq<byte>)
    requires bytes != []
    ensures Merge(a + Singles(k, bytes)) == Merge(a + [Data(k, bytes)])
  {
    var n := |bytes| - 1;
    if n == 0 {
      assert Singles(k, bytes) == [Data(k, bytes)];
    } else {
      MergeSingles(a, k, bytes[..n]);
      MergeCongruence(a + Singles(k, bytes[..n]), a + [Data(k, bytes[..n])], [Data(k, bytes[n..])],
                      [Data(k, bytes[n..])]);
      MergeSplitData(a, k, bytes[..n], bytes[n..]);
      assert bytes[..n] + bytes[n..] == bytes;
      assert a + Singles(k, bytes) == a + Singles(k, bytes[..n]) + [Data(k, bytes[n..])];
    }
  }

  lemma SinglesSnoc(k: Kind, bytes: seq<byte>, ch: byte)
    ensures Singles(k, bytes + [ch]) == Singles(k, bytes) + [Data(k, [ch])]
  {
    assert (bytes + [ch])[..|bytes|] == bytes && (bytes + [ch])[|bytes|..] == [ch];
  }

  lemma {:induction false} SinglesConcat(k: Kind, x: seq<byte>, y: seq<byte>)
    ensures Singles(k, x + y) == Singles(k, x) + Singles(k, y)
    decreases |y|
  {
    if y == [] {
      assert x + y == x;
    } else {
      var n := |x + y| - 1;
      SinglesConcat(k, x, y[..|y| - 1]);
      assert (x + y)[..n] == x + y[..|y| - 1] && (x + y)[n..] == y[|y| - 1..];
    }
  }

  lemma SinglesCons(k: Kind, bytes: seq<byte>)
    requires bytes != []
    ensures Singles(k, bytes) == [Data(k, bytes[..1])] + Singles(k, bytes[1..])
  {
    var one := bytes[..1];
    SinglesConcat(k, one, bytes[1..]);
    assert bytes == one + bytes[1..] && one[..0] == [] && one[0..] == one;
  }

  // All the bytes delivered under one kind.
  function Delivered(k: Kind, t: seq<Event>): seq<byte> {
    if t == [] then []
    else Delivered(k, t[..|t| - 1]) + if t[|t| - 1].Data? && t[|t| - 1].kind == k then t[|t| - 1].bytes else []
  }

  lemma {:induction false} DeliveredConcat(k: Kind, a: seq<Event>, b: seq<Event>)
    ensures Delivered(k, a + b) == Delivered(k, a) + Delivered(k, b)
  {
    if b == [] {
      assert a + b == a;
    } else {
      var n, e := |b| - 1, b[|b| - 1];
      DeliveredConcat(k, a, b[..n]);
      assert (a + b)[..|a + b| - 1] == a + b[..n] && (a + b)[|a + b| - 1] == e;
      var last := if e.Data? && e.kind == k then e.bytes else [];
      assert Delivered(k, a) + Delivered(k, b[..n]) + last == Delivered(k, a) + (Delivered(k, b[..n]) + last);
    }
  }

  lemma DeliveredJoin(k: Kind, m: seq<Event>, e: Event)
    ensures Delivered(k, Join(m, e)) == Delivered(k, m + [e])
  {
    var n := |m| - 1;
    assert (m + [e])[..|m|] == m;
    if m != [] && m[n].Data? && e.Data? && m[n].kind == e.kind {
      var d := Data(e.kind, m[n].bytes + e.bytes);
      assert Join(m, e) == m[..n] + [d] && (m[..n] + [d])[..n] == m[..n];
      if k == e.kind {
        assert Delivered(k, m[..n]) + m[n].bytes + e.bytes == Delivered(k, m[..n]) + d.bytes;
      }
    }
  }

  // Merging loses no byte and keeps their order.
  lemma {:induction false} DeliveredMerge(k: Kind, t: seq<Event>)
    ensures Delivered(k, Merge(t)) == Delivered(k, t)
  {
    if t != [] {
      var m, e := Merge(t[..|t| - 1]), t[|t| - 1];
      DeliveredMerge(k, t[..|t| - 1]);
      DeliveredJoin(k, m, e);
      assert (m + [e])[..|m|] == m;
    }
  }

  lemma {:induction false} DeliveredSingles(k: Kind, bytes: seq<byte>)
    ensures Delivered(k, Singles(k, bytes)) == bytes
  {
    if bytes != [] {
      var n := |bytes| - 1;
      DeliveredSingles(k, bytes[..n]);
      assert Singles(k, bytes)[..n] == Singles(k, bytes[..n]);
    }
  }

  // How often on_headers_complete has run.
  function HeadsIn(t: seq<Event>): nat {
    if t == [] then 0 else HeadsIn(t[..|t| - 1]) + if t[|t| - 1] == Told(HeadersComplete) then 1 else 0
  }

  lemma HeadsSnoc(t: seq<Event>, e: Event)
    ensures HeadsIn(t + [e]) == HeadsIn(t) + if e == Told(HeadersComplete) then 1 else 0
  {
    assert (t + [e])[..|t|] == t;
  }
}
