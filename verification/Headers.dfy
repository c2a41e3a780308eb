/** Header names and values are recognised one character at a time, in counters that survive between calls
    (src/http_parser.c:1174-1330, 1354-1539). The result is that of comparing the whole name and the whole value with
    the literals, without regard to case. */
module Headers {
  import opened Bytes
  import opened ParserState
  import opened Switch
  import opened Trace
  import opened Machine
  import opened Lengths

  // ASCII case folding.
  function Fold(c: byte): byte { if 'A' <= c <= 'Z' then (c as int + 32) as char else c }

  function FoldAll(s: seq<byte>): (t: seq<byte>)
    ensures |t| == |s|
  {
    seq(|s|, i requires 0 <= i < |s| => Fold(s[i]))
  }

  predicate SameName(name: seq<byte>, lit: seq<byte>) { FoldAll(name) == lit }

  predicate AllTokens(s: seq<byte>) { forall i | 0 <= i < |s| :: Token(s[i]) != '\0' }

  predicate NoLineEnd(s: seq<byte>) { forall i | 0 <= i < |s| :: s[i] != CR && s[i] != LF }

  predicate AllSpaces(s: seq<byte>) { forall i | 0 <= i < |s| :: s[i] == ' ' }

  function SkipBlanks(s: seq<byte>): seq<byte> {
    if s != [] && (s[0] == ' ' || s[0] == '\t') then SkipBlanks(s[1..]) else s
  }

  // A value, its leading blanks dropped, is the literal; spaces may follow.
  predicate ValueIs(v: seq<byte>, lit: seq<byte>) {
    |lit| <= |v| && SameName(v[..|lit|], lit) && AllSpaces(v[|lit|..])
  }

  // What a header line contributes to the flags, by whole-string comparison.
  function Gained(f: Flags, name: seq<byte>, value: seq<byte>): Flags {
    var v := SkipBlanks(value);
    if SameName(name, CONNECTION) || SameName(name, PROXY_CONNECTION) then
      if ValueIs(v, KEEP_ALIVE) then f.(keepAlive := true) else if ValueIs(v, CLOSE) then f.(close := true) else f
    else if SameName(name, TRANSFER_ENCODING) then
      if ValueIs(v, CHUNKED) then f.(chunked := true) else f
    else if SameName(name, UPGRADE) then
      if v != [] then f.(upgrade := true) else f
    else f
  }

  /* ---- Names. ---- */

  // Where the matcher of one literal stands after the folded beginning `low`.
  function LitState(low: seq<byte>, lit: seq<byte>, matching: HeaderState, done: HeaderState): HeaderState {
    if |low| < |lit| && low == lit[..|low|] then matching else if low == lit then done else General
  }

  // `connection` and `content-length` share their first three characters.
  function ConState(low: seq<byte>): HeaderState
    requires low != []
  {
    if |low| == 1 then HC
    else if low[1] != 'o' then General
    else if |low| == 2 then HCO
    else if low[2] != 'n' then General
    else if |low| == 3 then HCON
    else if low[3] == 'n' then LitState(low, CONNECTION, MatchingConnection, Connection)
    else if low[3] == 't' then LitState(low, CONTENT_LENGTH, MatchingContentLength, ContentLength)
    else General
  }

  // Where the matchers stand after a folded, non-empty beginning of a name.
  function NameState(low: seq<byte>): HeaderState
    requires low != []
  {
    if low[0] == 'c' then ConState(low)
    else if low[0] == 'p' then LitState(low, PROXY_CONNECTION, MatchingProxyConnection, Connection)
    else if low[0] == 't' then LitState(low, TRANSFER_ENCODING, MatchingTransferEncoding, TransferEncoding)
    else if low[0] == 'u' then LitState(low, UPGRADE, MatchingUpgrade, Upgrade)
    else General
  }

  ghost predicate Tracked(c: Core, s: HeaderState, n: int) { c.headerState == s && (s != General ==> c.index == n - 1) }

  // One more character of a literal, compared as the matcher does it.
  lemma AdvanceLit(c: Core, low: seq<byte>, lit: seq<byte>, b: byte, matching: HeaderState, done: HeaderState)
    requires matching != General && done != matching && low != []
    requires Tracked(c, LitState(low, lit, matching, done), |low|) && c.headerState == matching
    ensures 0 <= c.index < |lit|
    ensures Tracked(Advance(c, lit, b, done), LitState(low + [b], lit, matching, done), |low| + 1)
  {
    var i := |low|;
    assert |low| < |lit| && low == lit[..i];
    assert lit[..i + 1] == low + [lit[i]];
    assert lit[..|lit|] == lit;
    assert (low + [b])[i] == b && lit[..i + 1][i] == lit[i];
  }

  // A beginning that is not of the literal, or all of it, stays outside.
  lemma LitOver(low: seq<byte>, lit: seq<byte>, b: byte, matching: HeaderState, done: HeaderState)
    requires matching != General && done != matching && LitState(low, lit, matching, done) != matching
    ensures LitState(low + [b], lit, matching, done) == General
  {
    var i := |low|;
    if i < |lit| { assert lit[..i + 1][..i] == lit[..i] && (low + [b])[..i] == low; assert lit[..|lit|] == lit; }
  }

  // One of the literals with a first letter of their own.
  lemma MatchLit(c: Core, low: seq<byte>, lit: seq<byte>, b: byte, matching: HeaderState, done: HeaderState, d: Core)
    requires matching != General && done != matching && low != []
    requires Tracked(c, LitState(low, lit, matching, done), |low|)
    requires 0 <= c.index < |lit| && c.headerState == matching ==> d == Advance(c, lit, b, done)
    requires c.headerState != matching ==> d.headerState == General
    ensures Tracked(d, LitState(low + [b], lit, matching, done), |low| + 1)
  {
    if c.headerState == matching {
      AdvanceLit(c, low, lit, b, matching, done);
    } else {
      LitOver(low, lit, b, matching, done);
    }
  }

  lemma MatchCon(c: Core, low: seq<byte>, ch: byte)
    requires Inv(c) && c.state.HeaderField? && Token(ch) != '\0'
    requires low != [] && low[0] == 'c' && Tracked(c, ConState(low), |low|)
    ensures Tracked(MatchField(c, ch), ConState(low + [Token(ch)]), |low| + 1)
  {
    assert ch != ' ';
    hide Advance, Token;
    var b, d := Token(ch), MatchField(c, ch);
    var more := low + [b];
    assert forall i | 0 <= i < |low| :: more[i] == low[i];
    if |low| > 3 && low[1] == 'o' && low[2] == 'n' {
      if low[3] == 'n' {
        MatchLit(c, low, CONNECTION, b, MatchingConnection, Connection, d);
      } else if low[3] == 't' {
        MatchLit(c, low, CONTENT_LENGTH, b, MatchingContentLength, ContentLength, d);
      }
    } else if |low| == 3 && low[1] == 'o' && low[2] == 'n' {
      ShortCon(low, b);
    }
  }

  // The fourth character decides between the two.
  lemma ShortCon(low: seq<byte>, b: byte)
    requires |low| == 3 && low[0] == 'c' && low[1] == 'o' && low[2] == 'n'
    ensures ConState(low + [b]) == if b == 'n' then MatchingConnection else if b == 't' then MatchingContentLength
            else General
  {
    assert CONNECTION[..4] == ['c', 'o', 'n', 'n'] && CONTENT_LENGTH[..4] == ['c', 'o', 'n', 't'];
    assert low + [b] == ['c', 'o', 'n', b];
  }

  lemma MatchName(c: Core, low: seq<byte>, ch: byte)
    requires Inv(c) && c.state.HeaderField? && Token(ch) != '\0' && low != [] && Tracked(c, NameState(low), |low|)
    ensures Tracked(MatchField(c, ch), NameState(low + [Token(ch)]), |low| + 1)
  {
    assert ch != ' ';
    hide Advance, Token, ConState;
    var b, d := Token(ch), MatchField(c, ch);
    assert (low + [b])[0] == low[0];
    if low[0] == 'c' {
      MatchCon(c, low, ch);
    } else if low[0] == 'p' {
      MatchLit(c, low, PROXY_CONNECTION, b, MatchingProxyConnection, Connection, d);
    } else if low[0] == 't' {
      MatchLit(c, low, TRANSFER_ENCODING, b, MatchingTransferEncoding, TransferEncoding, d);
    } else if low[0] == 'u' {
      MatchLit(c, low, UPGRADE, b, MatchingUpgrade, Upgrade, d);
    }
  }

  /* ---- Values. ---- */

  // The literal, all of it, and then spaces only.
  predicate Spaced(low: seq<byte>, lit: seq<byte>) { |lit| <= |low| && low[..|lit|] == lit && AllSpaces(low[|lit|..]) }

  function SpacedState(low: seq<byte>, lit: seq<byte>, matching: HeaderState, done: HeaderState): (s: HeaderState)
    ensures s == matching || s == done || s == General
  {
    if |low| < |lit| && low == lit[..|low|] then matching else if Spaced(low, lit) then done else General
  }

  // Where the matchers stand after a folded, non-empty beginning of a value, for a header recognised as h.
  function ValueState(h: HeaderState, low: seq<byte>): HeaderState
    requires low != []
  {
    if h.TransferEncoding? then
      (if low[0] == 'c' then SpacedState(low, CHUNKED, MatchingChunked, Chunked) else General)
    else if h.Connection? then
      if low[0] == 'k' then SpacedState(low, KEEP_ALIVE, MatchingKeepAlive, KeepAlive)
      else if low[0] == 'c' then SpacedState(low, CLOSE, MatchingClose, Close)
      else General
    else if h.ContentLength? then ContentLength
    else General
  }

  // The characters of the value literals.
  predicate Plainly(x: byte) { 'a' <= x <= 'z' || x == '-' }

  lemma LowerFolds(ch: byte, x: byte)
    requires ch != CR && Plainly(x)
    ensures Lower(ch) == x <==> Fold(ch) == x
  {
  }

  lemma AdvanceFolds(c: Core, lit: seq<byte>, ch: byte, done: HeaderState)
    requires 0 <= c.index && c.index + 1 < |lit| && Plainly(lit[c.index + 1]) && ch != CR
    ensures Advance(c, lit, Lower(ch), done) == Advance(c, lit, Fold(ch), done)
  {
    LowerFolds(ch, lit[c.index + 1]);
  }

  lemma SpacedSnoc(low: seq<byte>, lit: seq<byte>, b: byte)
    ensures Spaced(low + [b], lit) <==> low + [b] == lit || (Spaced(low, lit) && b == ' ')
  {
    var more := low + [b];
    if |lit| <= |low| {
      assert more[..|lit|] == low[..|lit|] && more[|lit|..] == low[|lit|..] + [b];
      if AllSpaces(more[|lit|..]) {
        forall i | 0 <= i < |low[|lit|..]| ensures low[|lit|..][i] == ' ' { assert more[|lit|..][i] == ' '; }
        assert more[|lit|..][|low| - |lit|] == ' ';
      }
    } else if |lit| == |more| {
      assert more[..|lit|] == more;
    }
  }

  // One more character of a value: low is what was seen, in a value matched against lit.
  lemma MatchSpaced(c: Core, low: seq<byte>, lit: seq<byte>, ch: byte, matching: HeaderState, done: HeaderState,
                    d: Core)
    requires matching != General && done != General && done != matching
    requires low != [] && ch != CR && Loose(c, low, lit, matching, done) && forall i | 0 <= i < |lit| :: Plainly(lit[i])
    requires 0 <= c.index < |lit| && c.headerState == matching ==> d == Advance(c, lit, Lower(ch), done)
    requires c.headerState != matching ==> d.headerState == if c.headerState == done && ch == ' ' then done else General
    ensures Loose(d, low + [Fold(ch)], lit, matching, done)
  {
    assert Fold(ch) == ' ' <==> ch == ' ';
    hide Advance, Lower, Fold, Spaced;
    var b := Fold(ch);
    SpacedSnoc(low, lit, b);
    if c.headerState == matching {
      assert lit[..|low| + 1] == lit[..|low|] + [lit[|low|]];
      AdvanceFolds(c, lit, ch, done);
      AdvanceLit(c, low, lit, b, matching, done);
      assert lit[..|lit|] == lit;
    } else {
      LitOver(low, lit, b, matching, done);
    }
  }

  // Tracked, but once the literal is complete the index no longer matters.
  ghost predicate Loose(c: Core, low: seq<byte>, lit: seq<byte>, matching: HeaderState, done: HeaderState) {
    var s := SpacedState(low, lit, matching, done);
    c.headerState == s && (s == matching ==> c.index == |low| - 1)
  }

  ghost predicate ValueTracked(c: Core, h: HeaderState, low: seq<byte>) {
    low != [] && c.headerState == ValueState(h, low)
    && (c.headerState.MatchingChunked? || c.headerState.MatchingKeepAlive? || c.headerState.MatchingClose? ==>
        c.index == |low| - 1)
  }

  lemma LiteralsPlain()
    ensures forall i | 0 <= i < |CHUNKED| :: Plainly(CHUNKED[i])
    ensures forall i | 0 <= i < |KEEP_ALIVE| :: Plainly(KEEP_ALIVE[i])
    ensures forall i | 0 <= i < |CLOSE| :: Plainly(CLOSE[i])
  {
  }

  // The header state after one more character of a value; d stands for the fields after the pass.
  lemma MatchValue(c: Core, h: HeaderState, low: seq<byte>, ch: byte, d: Core)
    requires Inv(c) && c.state.HeaderValue? && ch != CR && ch != LF && ValueTracked(c, h, low)
    requires ValueTurn(c, ch) == Turn(d, Keep(Value))
    ensures ValueTracked(d, h, low + [Fold(ch)]) && d.state.HeaderValue? && d.flags == c.flags
    ensures d == c.(headerState := d.headerState, index := d.index, contentLength := d.contentLength)
    ensures !h.ContentLength? ==> d.contentLength == c.contentLength
  {
    LiteralsPlain();
    hide Advance, Lower, Fold, Accumulate, LengthRefused, SpacedState;
    assert (low + [Fold(ch)])[0] == low[0];
    if h.TransferEncoding? && low[0] == 'c' {
      MatchSpaced(c, low, CHUNKED, ch, MatchingChunked, Chunked, d);
    } else if h.Connection? && low[0] == 'k' {
      MatchSpaced(c, low, KEEP_ALIVE, ch, MatchingKeepAlive, KeepAlive, d);
    } else if h.Connection? && low[0] == 'c' {
      MatchSpaced(c, low, CLOSE, ch, MatchingClose, Close, d);
    }
  }

  /* ---- A whole line through the machine. ---- */

  // A run from p that runs neither on_headers_complete nor on_body.
  ghost predicate Quiet(p: Parser, r: Result) { r.parser.heads == p.heads && Delivered(Body, r.events) == [] }

  lemma QuietParts(p: Parser, a: seq<byte>, b: seq<byte>, skip: Answers)
    requires Ready(p) && Run(p, a + b, skip).verdict == Go
    requires Run(p, a, skip).verdict == Go && Quiet(p, Run(p, a, skip))
    requires Quiet(Run(p, a, skip).parser, Run(Run(p, a, skip).parser, b, skip))
    ensures Quiet(p, Run(p, a + b, skip))
  {
    hide Run, Delivered;
    GoParts(p, a, b, skip);
    DeliveredConcat(Body, Run(p, a, skip).events, Run(Run(p, a, skip).parser, b, skip).events);
  }

  // An accepted run has accepted parts.
  lemma GoParts(p: Parser, a: seq<byte>, b: seq<byte>, skip: Answers)
    requires Ready(p) && Run(p, a + b, skip).verdict == Go
    ensures Run(p, a, skip).verdict == Go
    ensures Run(Run(p, a, skip).parser, b, skip).verdict == Go
    ensures Run(Run(p, a, skip).parser, b, skip).parser == Run(p, a + b, skip).parser
    ensures Run(p, a + b, skip).events == Run(p, a, skip).events + Run(Run(p, a, skip).parser, b, skip).events
  {
    hide Run;
    RunConcat(p, a, b, skip);
  }

  // A single accepted byte whose pass neither repeats nor leaves.
  lemma GoByte(p: Parser, ch: byte, skip: Answers)
    requires Ready(p) && Run(p, [ch], skip).verdict == Go && !Repeats(SwitchOn(p.core, ch).act)
    requires !SwitchOn(p.core, ch).act.Leave?
    ensures !SwitchOn(p.core, ch).act.Fail? && Run(p, [ch], skip).parser.core == SwitchOn(p.core, ch).core
    ensures Run(p, [ch], skip).events == Emits(SwitchOn(p.core, ch).act, ch)
    ensures OfHeader(SwitchOn(p.core, ch).act) ==> Quiet(p, Run(p, [ch], skip))
  {
    hide SwitchOn, Inv, Run;
    WithinLimit(p, [ch], skip);
    Counted(p, [ch], skip);
    var t := SwitchOn(p.core, ch);
    if t.act.Fail? { FirstPass(Enter(p), [ch], skip); } else { PassEnds(Enter(p), ch, skip, t); }
    var e := Emits(t.act, ch);
    if OfHeader(t.act) {
      assert e == [] || (|e| == 1 && e[..0] == [] && (e[0].Told? || e[0].kind != Body));
      assert Delivered(Body, e) == [];
    }
  }

  // A pass that reports nothing but parts of the header.
  predicate OfHeader(a: Action) {
    a.Break? || a.Fail? || ((a.Mark? || a.Keep? || a.Flush? || a.MarkFlush?) && !a.kind.Body?) || a.Notify?
  }

  lemma FoldSnoc(s: seq<byte>, ch: byte)
    ensures FoldAll(s + [ch]) == FoldAll(s) + [Fold(ch)]
  {
  }

  lemma TokenFolds(ch: byte)
    requires Token(ch) != '\0'
    ensures Token(ch) == Fold(ch) && ch != CR && ch != LF && ch != ':'
  {
  }

  lemma FirstOfName(c: Core, ch: byte)
    requires Inv(c) && c.state.HeaderFieldStart? && Token(ch) != '\0'
    ensures var t := SwitchOn(c, ch);
            && t.act == Mark(Field) && !t.resets && Tracked(t.core, NameState([Token(ch)]), 1)
            && t.core == c.(index := t.core.index, state := HeaderField, headerState := t.core.headerState)
  {
    TokenFolds(ch);
    assert PROXY_CONNECTION[..1] == ['p'] && TRANSFER_ENCODING[..1] == ['t'] && UPGRADE[..1] == ['u'];
  }

  lemma RestOfName(c: Core, ch: byte)
    requires Inv(c) && c.state.HeaderField? && Token(ch) != '\0'
    ensures SwitchOn(c, ch) == Turn(MatchField(c, ch), Keep(Field))
  {
  }

  // The name, up to the colon.
  lemma {:induction false} NameRun(p: Parser, name: seq<byte>, skip: Answers)
    requires Ready(p) && p.core.state.HeaderFieldStart? && name != [] && AllTokens(name)
    requires Run(p, name, skip).verdict == Go
    ensures var c := Run(p, name, skip).parser.core;
            && Tracked(c, NameState(FoldAll(name)), |name|)
            && c == p.core.(index := c.index, state := HeaderField, headerState := c.headerState)
    ensures Quiet(p, Run(p, name, skip))
    decreases |name|
  {
    hide Run, SwitchOn, NameState, MatchField, Quiet;
    var n := |name| - 1;
    var ch := name[n];
    TokenFolds(ch);
    if n == 0 {
      assert name == [ch] && FoldAll(name) == [Fold(ch)];
      FirstOfName(p.core, ch);
      GoByte(p, ch, skip);
    } else {
      assert name == name[..n] + [ch];
      GoParts(p, name[..n], [ch], skip);
      NameRun(p, name[..n], skip);
      var q := Run(p, name[..n], skip).parser;
      FoldSnoc(name[..n], ch);
      RestOfName(q.core, ch);
      MatchName(q.core, FoldAll(name[..n]), ch);
      GoByte(q, ch, skip);
      QuietParts(p, name[..n], [ch], skip);
    }
  }

  predicate AllBlank(s: seq<byte>) { forall i | 0 <= i < |s| :: s[i] == ' ' || s[i] == '\t' }

  lemma {:induction false} SkipBlanksSplits(s: seq<byte>)
    ensures var v := SkipBlanks(s);
            |v| <= |s| && s[|s| - |v|..] == v && AllBlank(s[..|s| - |v|]) && (v != [] ==> v[0] != ' ' && v[0] != '\t')
  {
    if s != [] && (s[0] == ' ' || s[0] == '\t') {
      SkipBlanksSplits(s[1..]);
      var k := |s| - |SkipBlanks(s)|;
      assert s[..k] == [s[0]] + s[1..][..k - 1];
    } else {
      assert s[..0] == [];
    }
  }

  lemma BlankByte(c: Core, ch: byte)
    requires Inv(c) && c.state.HeaderValueStart? && (ch == ' ' || ch == '\t')
    ensures SwitchOn(c, ch) == Turn(c, Break)
  {
  }

  lemma QuietEmpty(p: Parser, skip: Answers)
    requires Ready(p)
    ensures Quiet(p, Run(p, [], skip)) && Run(p, [], skip).parser == p
  {
    EmptyRun(p, skip);
  }

  lemma {:induction false} BlanksRun(p: Parser, blanks: seq<byte>, skip: Answers)
    requires Ready(p) && p.core.state.HeaderValueStart? && AllBlank(blanks) && Run(p, blanks, skip).verdict == Go
    ensures Run(p, blanks, skip).parser.core == p.core && Quiet(p, Run(p, blanks, skip))
    decreases |blanks|
  {
    hide SwitchOn, Run, Quiet, Inv;
    if blanks == [] {
      QuietEmpty(p, skip);
    } else {
      assert blanks == [blanks[0]] + blanks[1..];
      GoParts(p, [blanks[0]], blanks[1..], skip);
      BlankByte(p.core, blanks[0]);
      GoByte(p, blanks[0], skip);
      BlanksRun(Run(p, [blanks[0]], skip).parser, blanks[1..], skip);
      QuietParts(p, [blanks[0]], blanks[1..], skip);
    }
  }

  // The flags after the first character of a value.
  function Started(c: Core): Flags { if c.headerState.Upgrade? then c.flags.(upgrade := true) else c.flags }

  lemma FirstOfValue(c: Core, ch: byte)
    requires Inv(c) && c.state.HeaderValueStart? && ch != ' ' && ch != '\t' && ch != CR && ch != LF
    requires !SwitchOn(c, ch).act.Fail?
    ensures var t := SwitchOn(c, ch);
            && t.act == Mark(Value) && !t.resets && ValueTracked(t.core, c.headerState, [Fold(ch)])
            && t.core == c.(index := 0, state := HeaderValue, headerState := t.core.headerState, flags := Started(c),
                            contentLength := t.core.contentLength)
            && (!c.headerState.ContentLength? ==> t.core.contentLength == c.contentLength)
  {
    LowerFolds(ch, 'c');
    LowerFolds(ch, 'k');
    hide Lower, Fold;
    assert CHUNKED[..1] == ['c'] && KEEP_ALIVE[..1] == ['k'] && CLOSE[..1] == ['c'];
  }

  lemma RestOfValue(c: Core, ch: byte)
    requires Inv(c) && c.state.HeaderValue? && ch != CR && ch != LF
    ensures SwitchOn(c, ch) == ValueTurn(c, ch)
    ensures ValueTurn(c, ch).act.Fail? || ValueTurn(c, ch) == Turn(ValueTurn(c, ch).core, Keep(Value))
  {
    hide Advance, Lower, Accumulate, LengthRefused;
  }

  // The value, from its first character that is not a blank.
  lemma {:induction false} ValueRun(p: Parser, v: seq<byte>, skip: Answers)
    requires Ready(p) && p.core.state.HeaderValueStart? && v != [] && NoLineEnd(v) && v[0] != ' ' && v[0] != '\t'
    requires Run(p, v, skip).verdict == Go
    ensures var c := Run(p, v, skip).parser.core;
            && ValueTracked(c, p.core.headerState, FoldAll(v))
            && c == p.core.(index := c.index, state := HeaderValue, headerState := c.headerState,
                            flags := Started(p.core),
                            contentLength := c.contentLength)
            && (!p.core.headerState.ContentLength? ==> c.contentLength == p.core.contentLength)
    ensures Quiet(p, Run(p, v, skip))
    decreases |v|
  {
    hide Run, SwitchOn, ValueState, ValueTurn, Quiet;
    var n := |v| - 1;
    var ch := v[n];
    if n == 0 {
      assert v == [ch] && FoldAll(v) == [Fold(ch)];
      FirstTurn(p.core, ch);
      GoByte(p, ch, skip);
      FirstOfValue(p.core, ch);
    } else {
      assert v == v[..n] + [ch];
      GoParts(p, v[..n], [ch], skip);
      ValueRun(p, v[..n], skip);
      var q := Run(p, v[..n], skip).parser;
      FoldSnoc(v[..n], ch);
      RestOfValue(q.core, ch);
      GoByte(q, ch, skip);
      MatchValue(q.core, p.core.headerState, FoldAll(v[..n]), ch, ValueTurn(q.core, ch).core);
      QuietParts(p, v[..n], [ch], skip);
    }
  }

  lemma FirstTurn(c: Core, ch: byte)
    requires Inv(c) && c.state.HeaderValueStart?
    ensures !Repeats(SwitchOn(c, ch).act) && !SwitchOn(c, ch).act.Leave?
  {
    hide Lower;
  }

  // What the ends of the parts do.
  lemma PartEnds(c: Core)
    requires Inv(c)
    ensures c.state.HeaderField? ==> SwitchOn(c, ':') == Turn(c.(state := HeaderValueStart), Flush(Field))
    ensures c.state.HeaderValue? ==> SwitchOn(c, CR) == Turn(c.(state := HeaderAlmostDone), Flush(Value))
    ensures c.state.HeaderValueStart? ==>
              SwitchOn(c, CR) == Turn(c.(index := 0, headerState := General, state := HeaderAlmostDone),
                                      MarkFlush(Value))
    ensures c.state.HeaderAlmostDone? ==>
              SwitchOn(c, LF) == Turn(c.(state := HeaderValueLws, flags := GainedFlags(c.flags, c.headerState)), Break)
  {
  }

  // The header states at the end of a name and of a value, against the whole strings.
  lemma NameMeaning(name: seq<byte>)
    requires name != []
    ensures var s := NameState(FoldAll(name));
            && (s.Connection? <==> SameName(name, CONNECTION) || SameName(name, PROXY_CONNECTION))
            && (s.TransferEncoding? <==> SameName(name, TRANSFER_ENCODING))
            && (s.ContentLength? <==> SameName(name, CONTENT_LENGTH))
            && (s.Upgrade? <==> SameName(name, UPGRADE))
  {
  }

  lemma SpacedMeaning(v: seq<byte>, lit: seq<byte>)
    ensures Spaced(FoldAll(v), lit) <==> ValueIs(v, lit)
  {
    if |lit| <= |v| {
      assert FoldAll(v)[..|lit|] == FoldAll(v[..|lit|]);
      forall i | 0 <= i < |v[|lit|..]|
        ensures FoldAll(v)[|lit|..][i] == ' ' <==> v[|lit|..][i] == ' '
      {
        assert FoldAll(v)[|lit|..][i] == Fold(v[|lit|..][i]);
      }
    }
  }

  lemma ValueMeaning(f: Flags, h: HeaderState, v: seq<byte>)
    requires v != []
    ensures GainedFlags(f, ValueState(h, FoldAll(v))) ==
            if h.Connection? && ValueIs(v, KEEP_ALIVE) then f.(keepAlive := true)
            else if h.Connection? && ValueIs(v, CLOSE) then f.(close := true)
            else if h.TransferEncoding? && ValueIs(v, CHUNKED) then f.(chunked := true)
            else f
  {
    var low := FoldAll(v);
    SpacedMeaning(v, KEEP_ALIVE);
    SpacedMeaning(v, CLOSE);
    SpacedMeaning(v, CHUNKED);
    hide FoldAll, ValueIs;
    assert Spaced(low, KEEP_ALIVE) ==> low[0] == low[..|KEEP_ALIVE|][0] == 'k';
    assert Spaced(low, CLOSE) ==> low[0] == low[..|CLOSE|][0] == 'c';
    assert Spaced(low, CHUNKED) ==> low[0] == low[..|CHUNKED|][0] == 'c';
  }

  // The value of a line, blanks and all.
  lemma ValuePart(p: Parser, value: seq<byte>, skip: Answers)
    requires Ready(p) && p.core.state.HeaderValueStart? && NoLineEnd(value) && Run(p, value, skip).verdict == Go
    ensures var c, v := Run(p, value, skip).parser.core, SkipBlanks(value);
            && (v == [] ==> c == p.core)
            && (v != [] ==>
                  && c == p.core.(index := c.index, state := HeaderValue,
                                  headerState := ValueState(p.core.headerState, FoldAll(v)),
                                  flags := Started(p.core), contentLength := c.contentLength)
                  && (!p.core.headerState.ContentLength? ==> c.contentLength == p.core.contentLength))
    ensures Quiet(p, Run(p, value, skip))
  {
    hide Run, SwitchOn, Inv, ValueState, Quiet;
    var v := SkipBlanks(value);
    SkipBlanksSplits(value);
    var blanks := value[..|value| - |v|];
    assert value == blanks + v;
    GoParts(p, blanks, v, skip);
    BlanksRun(p, blanks, skip);
    if v == [] {
      assert value == blanks;
    } else {
      forall i | 0 <= i < |v| ensures v[i] != CR && v[i] != LF { assert v[i] == value[|blanks| + i]; }
      ValueRun(Run(p, blanks, skip).parser, v, skip);
      QuietParts(p, blanks, v, skip);
    }
  }

  // A byte that takes two passes.
  lemma GoTwice(p: Parser, ch: byte, skip: Answers, t: Turn, u: Turn)
    requires Ready(p) && Run(p, [ch], skip).verdict == Go && t == SwitchOn(p.core, ch)
    requires t.act.Again? || (t.act.FlushAgain? && !t.act.kind.Body?)
    requires Inv(t.core) && u == SwitchOn(t.core, ch) && !Repeats(u.act) && !u.act.Leave?
    ensures !u.act.Fail? && Run(p, [ch], skip).parser.core == u.core
    ensures OfHeader(u.act) ==> Quiet(p, Run(p, [ch], skip))
  {
    hide SwitchOn, Inv, Run, RunMid;
    WithinLimit(p, [ch], skip);
    Counted(p, [ch], skip);
    var q := After(Enter(p), t, skip);
    PassOn(Enter(p), [ch], skip, t);
    if u.act.Fail? { FirstPass(q, [ch], skip); } else { PassEnds(q, ch, skip, u); }
    if OfHeader(u.act) {
      var e, f := Emits(t.act, ch), Emits(u.act, ch);
      NoBody(e);
      NoBody(f);
      DeliveredConcat(Body, e, f);
    }
  }

  lemma NoBody(e: seq<Event>)
    requires e == [] || (|e| == 1 && (e[0].Told? || e[0].kind != Body))
    ensures Delivered(Body, e) == []
  {
    if e != [] { assert e[..0] == []; }
  }

  // The end of a line, CR LF or LF alone.
  function Eol(crlf: bool): seq<byte> { if crlf then [CR] + [LF] else [LF] }

  lemma LineFeedTurns(c: Core)
    requires Inv(c)
    ensures c.state.HeaderField? ==> SwitchOn(c, CR) == Turn(c.(state := HeaderAlmostDone), Flush(Field))
    ensures c.state.HeaderField? ==> SwitchOn(c, LF) == Turn(c.(state := HeaderFieldStart), Flush(Field))
    ensures c.state.HeaderValue? ==> SwitchOn(c, LF) == Turn(c.(state := HeaderAlmostDone), FlushAgain(Value))
    ensures c.state.HeaderValueStart? ==>
              SwitchOn(c, LF) == Turn(c.(index := 0, state := HeaderFieldStart), MarkFlush(Value))
  {
    hide Sound;
  }

  // CR LF, from a state in which CR ends what is being read.
  lemma CrLf(q: Parser, skip: Answers, t: Turn)
    requires Ready(q) && Run(q, [CR] + [LF], skip).verdict == Go && t == SwitchOn(q.core, CR)
    requires !Repeats(t.act) && !t.act.Leave? && OfHeader(t.act) && (t.act.Fail? || t.core.state.HeaderAlmostDone?)
    ensures !t.act.Fail?
    ensures Run(q, [CR] + [LF], skip).parser.core
            == t.core.(state := HeaderValueLws, flags := GainedFlags(t.core.flags, t.core.headerState))
    ensures Quiet(q, Run(q, [CR] + [LF], skip))
  {
    hide Run, SwitchOn, Inv, Quiet;
    GoParts(q, [CR], [LF], skip);
    GoByte(q, CR, skip);
    var e := Run(q, [CR], skip).parser;
    PartEnds(e.core);
    GoByte(e, LF, skip);
    QuietParts(q, [CR], [LF], skip);
  }

  // The end of a line in a value, or before there was one.
  lemma ValueEnd(q: Parser, crlf: bool, skip: Answers)
    requires Ready(q) && (q.core.state.HeaderValue? || q.core.state.HeaderValueStart?)
    requires Run(q, Eol(crlf), skip).verdict == Go
    ensures var c := Run(q, Eol(crlf), skip).parser.core;
            if q.core.state.HeaderValue? then
              c == q.core.(state := HeaderValueLws, flags := GainedFlags(q.core.flags, q.core.headerState))
            else if crlf then c == q.core.(index := 0, state := HeaderValueLws, headerState := General)
            else c == q.core.(index := 0, state := HeaderFieldStart)
    ensures Quiet(q, Run(q, Eol(crlf), skip))
  {
    hide Run, SwitchOn, Inv, Quiet;
    PartEnds(q.core);
    LineFeedTurns(q.core);
    if crlf {
      CrLf(q, skip, SwitchOn(q.core, CR));
    } else if q.core.state.HeaderValue? {
      var t := SwitchOn(q.core, LF);
      AlmostDone(q.core);
      PartEnds(t.core);
      GoTwice(q, LF, skip, t, SwitchOn(t.core, LF));
    } else {
      GoByte(q, LF, skip);
    }
  }

  lemma AlmostDone(c: Core)
    requires Inv(c) && (c.state.HeaderValue? || c.state.HeaderField?)
    ensures Inv(c.(state := HeaderAlmostDone))
  {
  }

  // The end of a line in a name: there is no value on it.
  lemma NameEnd(q: Parser, crlf: bool, skip: Answers)
    requires Ready(q) && q.core.state.HeaderField? && Run(q, Eol(crlf), skip).verdict == Go
    requires !q.core.headerState.KeepAlive? && !q.core.headerState.Close? && !q.core.headerState.Chunked?
    ensures Run(q, Eol(crlf), skip).parser.core
            == q.core.(state := if crlf then HeaderValueLws else HeaderFieldStart)
    ensures Quiet(q, Run(q, Eol(crlf), skip))
  {
    hide Run, SwitchOn, Inv, Quiet;
    LineFeedTurns(q.core);
    if crlf { CrLf(q, skip, SwitchOn(q.core, CR)); } else { GoByte(q, LF, skip); }
  }

  // The name and the colon.
  lemma NamePart(p: Parser, name: seq<byte>, skip: Answers)
    requires Ready(p) && p.core.state.HeaderFieldStart? && name != [] && AllTokens(name)
    requires Run(p, name + [':'], skip).verdict == Go
    ensures var c := Run(p, name + [':'], skip).parser.core;
            c == p.core.(index := c.index, state := HeaderValueStart, headerState := NameState(FoldAll(name)))
    ensures Quiet(p, Run(p, name + [':'], skip))
  {
    hide Run, SwitchOn, Inv, NameState, Quiet;
    GoParts(p, name, [':'], skip);
    NameRun(p, name, skip);
    var q := Run(p, name, skip).parser;
    PartEnds(q.core);
    GoByte(q, ':', skip);
    QuietParts(p, name, [':'], skip);
  }

  // The flags, by the header states and by the whole strings.
  lemma LineGains(c: Core, name: seq<byte>, value: seq<byte>)
    requires name != [] && c.headerState == NameState(FoldAll(name))
    ensures var v := SkipBlanks(value);
            Gained(c.flags, name, value) ==
            if v == [] then c.flags else GainedFlags(Started(c), ValueState(c.headerState, FoldAll(v)))
    ensures GainedFlags(c.flags, General) == c.flags
  {
    hide NameState, ValueState, FoldAll;
    NameMeaning(name);
    DistinctLiterals(name);
    if SkipBlanks(value) != [] { ValueMeaning(Started(c), c.headerState, SkipBlanks(value)); }
  }

  /* ---- Content-Length. ---- */

  // A Content-Length value that is accepted is a number, and is stored modulo 2^64.
  lemma {:induction false} LengthRun(p: Parser, v: seq<byte>, skip: Answers)
    requires Ready(p) && p.core.state.HeaderValueStart? && p.core.headerState.ContentLength? && v != [] && NoLineEnd(v)
    requires v[0] != ' ' && v[0] != '\t' && Run(p, v, skip).verdict == Go
    ensures var c := Run(p, v, skip).parser.core;
            && c.state.HeaderValue? && c.headerState.ContentLength? && SpacedDigits(v)
            && Reflects(c.contentLength, DecValue(v))
    decreases |v|
  {
    hide Run, SwitchOn, Inv, Reflects, DecValue;
    var n := |v| - 1;
    var ch := v[n];
    if n == 0 {
      assert v == [ch];
      LengthFirst(p, ch, skip);
    } else {
      assert v == v[..n] + [ch];
      GoParts(p, v[..n], [ch], skip);
      LengthRun(p, v[..n], skip);
      LengthNext(Run(p, v[..n], skip).parser, v[..n], ch, skip);
    }
  }

  lemma LengthFirst(p: Parser, ch: byte, skip: Answers)
    requires Ready(p) && p.core.state.HeaderValueStart? && p.core.headerState.ContentLength?
    requires ch != ' ' && ch != '\t' && ch != CR && ch != LF && Run(p, [ch], skip).verdict == Go
    ensures var c := Run(p, [ch], skip).parser.core;
            && c.state.HeaderValue? && c.headerState.ContentLength? && SpacedDigits([ch])
            && Reflects(c.contentLength, DecValue([ch]))
  {
    hide Run, SwitchOn, Inv, Reflects;
    assert [ch][..0] == [];
    FirstTurn(p.core, ch);
    GoByte(p, ch, skip);
    LengthStarts(p.core, ch);
    ReflectsDigit(DigitOf(ch) as uint64);
  }

  lemma LengthNext(q: Parser, v: seq<byte>, ch: byte, skip: Answers)
    requires Ready(q) && q.core.state.HeaderValue? && q.core.headerState.ContentLength? && ch != CR && ch != LF
    requires v != [] && SpacedDigits(v) && Reflects(q.core.contentLength, DecValue(v))
    requires Run(q, [ch], skip).verdict == Go
    ensures var c := Run(q, [ch], skip).parser.core;
            && c.state.HeaderValue? && c.headerState.ContentLength? && SpacedDigits(v + [ch])
            && Reflects(c.contentLength, DecValue(v + [ch]))
  {
    hide Run, SwitchOn, Inv, Accumulate, LengthRefused, Reflects, ValueTurn;
    RestOfValue(q.core, ch);
    GoByte(q, ch, skip);
    LengthGoes(q.core, ch);
    DigitTurns(q.core, ch);
    DecSnoc(v, ch);
    if ch != ' ' { OneDigit(q.core.contentLength, DecValue(v), 10, DigitOf(ch)); }
  }

  lemma DecSnoc(v: seq<byte>, ch: byte)
    requires v != [] && SpacedDigits(v) && (ch == ' ' || IsNum(ch))
    ensures SpacedDigits(v + [ch])
    ensures DecValue(v + [ch]) == if ch == ' ' then DecValue(v) else DecValue(v) * 10 + DigitOf(ch)
  {
    assert (v + [ch])[..|v|] == v;
  }

  lemma LengthStarts(c: Core, ch: byte)
    requires Inv(c) && c.state.HeaderValueStart? && c.headerState.ContentLength? && !SwitchOn(c, ch).act.Fail?
    requires ch != ' ' && ch != '\t' && ch != CR && ch != LF
    ensures IsNum(ch) && SwitchOn(c, ch)
            == Turn(c.(index := 0, state := HeaderValue, contentLength := DigitOf(ch) as uint64), Mark(Value))
  {
    hide Lower, Sound;
  }

  lemma LengthGoes(c: Core, ch: byte)
    requires Inv(c) && c.state.HeaderValue? && c.headerState.ContentLength? && !SwitchOn(c, ch).act.Fail? && ch != CR
    requires ch != LF
    ensures ch == ' ' || IsNum(ch)
  {
    hide Accumulate, LengthRefused, Sound;
  }

  // The value of a Content-Length, blanks and all.
  lemma LengthPart(p: Parser, value: seq<byte>, skip: Answers)
    requires Ready(p) && p.core.state.HeaderValueStart? && p.core.headerState.ContentLength? && NoLineEnd(value)
    requires SkipBlanks(value) != [] && Run(p, value, skip).verdict == Go
    ensures var c, v := Run(p, value, skip).parser.core, SkipBlanks(value);
            c.state.HeaderValue? && SpacedDigits(v) && Reflects(c.contentLength, DecValue(v))
  {
    hide Run, SwitchOn, Inv, DecValue, Reflects;
    var v := SkipBlanks(value);
    SkipBlanksSplits(value);
    var blanks := value[..|value| - |v|];
    assert value == blanks + v;
    GoParts(p, blanks, v, skip);
    BlanksRun(p, blanks, skip);
    forall i | 0 <= i < |v| ensures v[i] != CR && v[i] != LF { assert v[i] == value[|blanks| + i]; }
    LengthRun(Run(p, blanks, skip).parser, v, skip);
  }

  lemma DistinctLiterals(name: seq<byte>)
    ensures SameName(name, UPGRADE) ==> !SameName(name, CONNECTION) && !SameName(name, PROXY_CONNECTION)
                                        && !SameName(name, TRANSFER_ENCODING)
    ensures SameName(name, TRANSFER_ENCODING) ==> !SameName(name, CONNECTION) && !SameName(name, PROXY_CONNECTION)
  {
    hide FoldAll;
    assert |UPGRADE| == 7 && |CONNECTION| == 10 && |PROXY_CONNECTION| == 16 && |TRANSFER_ENCODING| == 17;
  }

  /* ---- A value on one line, the first of a header or one that continues it. ---- */

  // The text of a line after the colon, or of a line that continues the one before.
  datatype Part = Part(value: seq<byte>, crlf: bool)

  function Text(part: Part): seq<byte> { part.value + Eol(part.crlf) }

  // A line that continues the one before starts with a blank.
  predicate Folded(part: Part) { part.value != [] && (part.value[0] == ' ' || part.value[0] == '\t') }

  // What a line changes, in a header recognised as c.headerState: d are the fields after it.
  ghost predicate AfterPart(c: Core, part: Part, d: Core) {
    var v := SkipBlanks(part.value);
    if v == [] then
      d == c.(index := d.index, state := if part.crlf then HeaderValueLws else HeaderFieldStart,
              headerState := if part.crlf then General else c.headerState)
    else
      var h := ValueState(c.headerState, FoldAll(v));
      && (c.headerState.ContentLength? ==> SpacedDigits(v) && d.contentLength != ULLONG_MAX)
      && d == c.(index := d.index, state := HeaderValueLws, headerState := h, flags := GainedFlags(Started(c), h),
                 contentLength := if c.headerState.ContentLength? && SpacedDigits(v) then (DecValue(v) % U64) as uint64
                                  else c.contentLength)
  }

  lemma PartRun(p: Parser, part: Part, skip: Answers)
    requires Ready(p) && p.core.state.HeaderValueStart? && NoLineEnd(part.value)
    requires Run(p, Text(part), skip).verdict == Go
    ensures AfterPart(p.core, part, Run(p, Text(part), skip).parser.core)
    ensures Quiet(p, Run(p, Text(part), skip))
  {
    hide Run, SwitchOn, Inv, ValueState, Quiet, DecValue, SkipBlanks, FoldAll, NoLineEnd;
    GoParts(p, part.value, Eol(part.crlf), skip);
    ValuePart(p, part.value, skip);
    if p.core.headerState.ContentLength? && SkipBlanks(part.value) != [] { LengthPart(p, part.value, skip); }
    ValueEnd(Run(p, part.value, skip).parser, part.crlf, skip);
    QuietParts(p, part.value, Eol(part.crlf), skip);
  }

  lemma LwsBlank(c: Core, ch: byte)
    requires Inv(c) && c.state.HeaderValueLws? && (ch == ' ' || ch == '\t')
    ensures SwitchOn(c, ch) == Turn(c.(state := HeaderValueStart), Break)
  {
    hide Sound;
  }

  // A line that continues the one before.
  lemma MorePart(p: Parser, part: Part, skip: Answers)
    requires Ready(p) && p.core.state.HeaderValueLws? && NoLineEnd(part.value) && Folded(part)
    requires Run(p, Text(part), skip).verdict == Go
    ensures AfterPart(p.core, part, Run(p, Text(part), skip).parser.core)
    ensures Quiet(p, Run(p, Text(part), skip))
  {
    hide Run, SwitchOn, Inv, ValueState, Quiet, DecValue, FoldAll, GainedFlags;
    var blank, rest := part.value[0], Part(part.value[1..], part.crlf);
    assert Text(part) == [blank] + Text(rest);
    GoParts(p, [blank], Text(rest), skip);
    LwsBlank(p.core, blank);
    GoByte(p, blank, skip);
    var q := Run(p, [blank], skip).parser;
    PartRun(q, rest, skip);
    QuietParts(p, [blank], Text(rest), skip);
    assert SkipBlanks(part.value) == SkipBlanks(rest.value);
  }
}
