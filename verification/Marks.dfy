/** The local marks of `http_parser_execute`: where the data of one kind began in the current buffer
    (src/http_parser.c:84-109, 579-582, 612-630, 1817-1837). They do not survive the call; which of them is set at any
    moment is a function of the persistent state alone. */
module Marks {
  import opened Bytes
  import opened ParserState
  import opened Switch
  import opened Trace

  type Marks = map<Kind, nat>

  function KeysAt(s: State): set<Kind> { if KindAt(s).None? then {} else {KindAt(s).value} }

  // A body mark is set only once a body byte was seen in this call; the others are set exactly in their states.
  ghost predicate MarksOk(s: State, marks: Marks, p: nat) {
    && (marks.Keys == KeysAt(s) || (InBodyRun(s) && marks == map[]))
    && (forall k :: k in marks ==> marks[k] <= p && (k == Body ==> marks[k] < p))
  }

  lemma MarksBehind(s: State, marks: Marks, p: nat)
    requires MarksOk(s, marks, p)
    ensures forall k :: k in marks ==> marks[k] <= p
  {
  }

  function InitialMarks(s: State): Marks {
    if s.HeaderField? then map[Field := 0]
    else if s.HeaderValue? then map[Value := 0]
    else if InUrl(s) then map[Url := 0]
    else map[]
  }

  lemma InitialMarksOk(s: State)
    ensures MarksOk(s, InitialMarks(s), 0)
  {
  }

  // There is at most one mark set, whatever the state: the assertion before the final callbacks.
  lemma AtMostOneMark(s: State, marks: Marks, p: nat)
    requires MarksOk(s, marks, p)
    ensures |marks| <= 1
  {
    assert |marks.Keys| <= 1;
  }

  // The data of kind k that is marked but not yet reported, when the pointer is at p.
  function Part(k: Kind, marks: Marks, data: seq<byte>, p: nat): seq<Event>
    requires p <= |data|
  {
    if k in marks && marks[k] < p then [Data(k, data[marks[k]..p])] else []
  }

  function Pending(marks: Marks, data: seq<byte>, p: nat): seq<Event>
    requires p <= |data|
  {
    Part(Field, marks, data, p) + Part(Value, marks, data, p) + Part(Url, marks, data, p) + Part(Body, marks, data, p)
  }

  // The trace together with what is marked is the trace `spec`, up to merging.
  ghost predicate Shown(trace: seq<Event>, marks: Marks, data: seq<byte>, p: nat, spec: seq<Event>) {
    p <= |data| && Merge(trace + Pending(marks, data, p)) == Merge(spec)
  }

  lemma ShownUnmarked(trace: seq<Event>, data: seq<byte>, p: nat, spec: seq<Event>)
    requires p <= |data|
    ensures Shown(trace, map[], data, p, spec) <==> Merge(trace) == Merge(spec)
  {
    assert trace + Pending(map[], data, p) == trace;
  }

  lemma ShownMarked(trace: seq<Event>, k: Kind, m: nat, data: seq<byte>, p: nat, spec: seq<Event>)
    requires m <= p <= |data|
    ensures Shown(trace, map[k := m], data, p, spec) <==>
            Merge(if m == p then trace else trace + [Data(k, data[m..p])]) == Merge(spec)
  {
    assert Pending(map[k := m], data, p) == Part(k, map[k := m], data, p);
    assert trace + [] == trace;
  }

  // The pointer moves from p to q over bytes of the marked kind.
  lemma ShownExtend(trace: seq<Event>, k: Kind, m: nat, data: seq<byte>, p: nat, q: nat, spec: seq<Event>)
    requires m <= p < q <= |data| && Shown(trace, map[k := m], data, p, spec)
    ensures Shown(trace, map[k := m], data, q, spec + Singles(k, data[p..q]))
  {
    hide Merge, Pending;
    var add := Singles(k, data[p..q]);
    ShownMarked(trace, k, m, data, p, spec);
    ShownMarked(trace, k, m, data, q, spec + add);
    if m == p {
      MergeSingles(trace, k, data[p..q]);
      MergeCongruence(trace, spec, add, add);
    } else {
      var base := trace + [Data(k, data[m..p])];
      MergeSingles(base, k, data[p..q]);
      MergeCongruence(base, spec, add, add);
      MergeSplitData(trace, k, data[m..p], data[p..q]);
      assert data[m..p] + data[p..q] == data[m..q];
    }
  }

  // Reporting the marked data, which may be empty.
  lemma ShownFlush(trace: seq<Event>, k: Kind, m: nat, data: seq<byte>, p: nat, spec: seq<Event>)
    requires m <= p <= |data| && Shown(trace, map[k := m], data, p, spec)
    ensures Merge(trace + [Data(k, data[m..p])]) == Merge(spec + [Data(k, [])])
    ensures m < p ==> Merge(trace + [Data(k, data[m..p])]) == Merge(spec)
  {
    ShownMarked(trace, k, m, data, p, spec);
    if m == p {
      MergeCongruence(trace, spec, [Data(k, [])], [Data(k, [])]);
    } else {
      MergeCongruence(trace + [Data(k, data[m..p])], spec, [Data(k, [])], [Data(k, [])]);
      MergeSplitData(trace, k, data[m..p], []);
      assert data[m..p] + [] == data[m..p];
    }
  }

  // One more byte of the marked kind, the mark having been set at it or before.
  lemma ShownByte(trace: seq<Event>, k: Kind, marks: Marks, marks': Marks, data: seq<byte>, p: nat, spec: seq<Event>)
    requires p < |data| && Shown(trace, marks, data, p, spec)
    requires (marks' == marks && marks.Keys == {k} && marks[k] <= p) || (marks == map[] && marks' == map[k := p])
    ensures Shown(trace, marks', data, p + 1, spec + [Data(k, [data[p]])])
  {
    hide Merge, Pending;
    if marks == map[] {
      ShownUnmarked(trace, data, p, spec);
      ShownMarked(trace, k, p, data, p, spec);
    } else {
      assert marks == map[k := marks[k]];
    }
    ShownExtend(trace, k, marks'[k], data, p, p + 1, spec);
    assert marks' == map[k := marks'[k]];
    SinglesCons(k, data[p..p + 1]);
    assert data[p..p + 1][..1] == [data[p]] && data[p..p + 1][1..] == [];
    assert Singles(k, data[p..p + 1]) == [Data(k, [data[p]])];
  }
}
