/** Request methods are recognised letter by letter, from a first guess that later letters correct
    (src/http_parser.c:873-977): exactly which spellings are accepted, and as which method. */
module Methods {
  import opened Options
  import opened Bytes
  import opened ParserState
  import opened Switch
  import opened Trace
  import opened Machine
  import Headers

  // What the parser takes the method m for after its first k letters.
  function GuessAt(m: Method, k: nat): Method {
    if m.CHECKOUT? && k < 2 then CONNECT
    else if m.COPY? && k < 3 then CONNECT
    else if (m.MOVE? || m.MERGE? || m.MSEARCH?) && k < 2 then MKCOL
    else if m.MKACTIVITY? && k < 3 then MKCOL
    else if m.SEARCH? && k < 2 then SUBSCRIBE
    else if (m.PROPFIND? || m.PROPPATCH? || m.PUT? || m.PATCH? || m.PURGE?) && k < 2 then POST
    else if m.PROPPATCH? && k < 5 then PROPFIND
    else if m.PURGE? && k < 3 then PUT
    else if m.UNSUBSCRIBE? && k < 3 then UNLOCK
    else m
  }

  // The third letter is not checked, unless the method is told from another by it.
  predicate Unchecked(m: Method, ch: byte) {
    && ch != '\0' && !m.CONNECT? && !m.COPY? && !m.MKCOL? && !m.MKACTIVITY? && !m.SUBSCRIBE? && !m.PURGE?
    && !m.UNSUBSCRIBE?
    && (m.PUT? ==> ch != 'R') && (m.UNLOCK? ==> ch != 'S')
  }

  // The letters s begin the method m.
  predicate Spells(m: Method, s: seq<byte>) {
    && |s| <= |MethodString(m)|
    && forall i | 0 <= i < |s| :: s[i] == MethodString(m)[i] || (i == 2 && Unchecked(m, s[i]))
  }

  predicate Spelt(m: Method, s: seq<byte>) { Spells(m, s) && |s| == |MethodString(m)| }

  // Reading a method of which the letters s have been read.
  predicate Reading(c: Core, s: seq<byte>) {
    c.state.ReqMethod? && c.index == |s| && s != [] && Spells(c.verb, s) && c.verb == GuessAt(c.verb, |s|)
  }

  lemma FirstLetterFits(ch: byte)
    ensures FirstLetter(ch).Some? ==>
              var m := FirstLetter(ch).value; |MethodString(m)| >= 1 && MethodString(m)[0] == ch && m == GuessAt(m, 1)
  {
  }

  // The beginnings that methods share.
  lemma Beginnings()
    ensures MethodString(CONNECT)[..2] == "CO" && MethodString(COPY)[..2] == "CO" && MethodString(CHECKOUT)[0] == 'C'
    ensures MethodString(MKCOL)[..2] == "MK" && MethodString(MKACTIVITY)[..2] == "MK"
    ensures MethodString(MOVE)[0] == 'M' && MethodString(MERGE)[0] == 'M' && MethodString(MSEARCH)[0] == 'M'
    ensures MethodString(SUBSCRIBE)[0] == 'S' && MethodString(SEARCH)[0] == 'S'
    ensures MethodString(POST)[0] == 'P' && MethodString(PUT)[..2] == "PU" && MethodString(PATCH)[0] == 'P'
    ensures MethodString(PURGE)[..2] == "PU" && MethodString(PROPFIND)[..4] == "PROP"
    ensures MethodString(PROPPATCH)[..4] == "PROP"
    ensures MethodString(UNLOCK)[..2] == "UN" && MethodString(UNSUBSCRIBE)[..2] == "UN"
  {
  }

  // The letters at which a guess is corrected.
  lemma Corrections()
    ensures MethodString(CHECKOUT)[1] == 'H' && MethodString(COPY)[2] == 'P' && MethodString(MOVE)[1] == 'O'
    ensures MethodString(MERGE)[1] == 'E' && MethodString(MSEARCH)[1] == '-' && MethodString(MKACTIVITY)[2] == 'A'
    ensures MethodString(SEARCH)[1] == 'E' && MethodString(PROPFIND)[1] == 'R' && MethodString(PUT)[1] == 'U'
    ensures MethodString(PATCH)[1] == 'A' && MethodString(PURGE)[2] == 'R' && MethodString(UNSUBSCRIBE)[2] == 'S'
    ensures MethodString(PROPPATCH)[4] == 'P'
  {
  }

  lemma Spelling(m: Method, n: Method, i: nat, s: seq<byte>, ch: byte)
    requires Spells(m, s) && |s| == i < |MethodString(n)| && i <= |MethodString(m)|
    requires MethodString(n)[..i] == MethodString(m)[..i]
    requires MethodString(n)[i] == ch && (i > 2 ==> forall c | Unchecked(m, c) :: Unchecked(n, c))
    ensures Spells(n, s + [ch])
  {
    hide MethodString, Unchecked;
    forall k | 0 <= k < i
      ensures s[k] == MethodString(n)[k] || (k == 2 && Unchecked(n, s[k]))
    {
      assert MethodString(n)[..i][k] == MethodString(m)[..i][k];
    }
  }

  // A guess that is corrected: the two methods begin alike.
  lemma Correction(m: Method, i: nat, ch: byte)
    requires 1 <= i <= |MethodString(m)| && m == GuessAt(m, i) && Alternative(m, i, ch).Other?
    requires Alternative(m, i, ch).verb != m
    ensures var n := Alternative(m, i, ch).verb;
            && i < |MethodString(n)| && MethodString(n)[..i] == MethodString(m)[..i] && MethodString(n)[i] == ch
            && n == GuessAt(n, i + 1) && (i > 2 ==> m.PROPFIND? && n.PROPPATCH?)
  {
    hide MethodString;
    var n := Alternative(m, i, ch).verb;
    MethodStringLength(n);
    assert i < |MethodString(n)|;
    hide MethodLength;
    Beginnings();
    Corrections();
    if i == 1 {
      assert MethodString(n)[..1] == [MethodString(n)[0]] && MethodString(m)[..1] == [MethodString(m)[0]];
      FirstTwo();
    }
  }

  lemma FirstTwo()
    ensures MethodString(CONNECT)[0] == 'C' && MethodString(MKCOL)[0] == 'M' && MethodString(PUT)[0] == 'P'
            && MethodString(PROPFIND)[0] == 'P'
  {
  }

  // A third letter that is not checked.
  lemma Kept(m: Method, s: seq<byte>, ch: byte)
    requires 1 <= |s| <= |MethodString(m)| && Spells(m, s) && m == GuessAt(m, |s|) && ch != '\0'
    requires ch != At(MethodString(m), |s|) && Alternative(m, |s|, ch) == Other(m)
    ensures Spells(m, s + [ch]) && m == GuessAt(m, |s| + 1)
  {
    assert |s| < |MethodString(m)| by { MethodStringLength(m); hide MethodString; }
    hide MethodString, MethodLength;
  }

  // A letter other than the expected one: what was read agrees with what the method becomes.
  lemma Corrected(m: Method, s: seq<byte>, ch: byte)
    requires 1 <= |s| <= |MethodString(m)| && Spells(m, s) && m == GuessAt(m, |s|) && ch != '\0'
    requires ch != At(MethodString(m), |s|) && Alternative(m, |s|, ch).Other?
    ensures var n := Alternative(m, |s|, ch).verb; Spells(n, s + [ch]) && n == GuessAt(n, |s| + 1)
  {
    hide MethodString, Spells, Alternative, GuessAt;
    var n, i := Alternative(m, |s|, ch).verb, |s|;
    if n == m {
      Kept(m, s, ch);
    } else {
      Correction(m, i, ch);
      Spelling(m, n, i, s, ch);
    }
  }

  lemma NoNul(m: Method, i: nat)
    requires i < |MethodString(m)|
    ensures MethodString(m)[i] != '\0'
  {
  }

  // One byte while reading a method: another letter, or the space that ends it.
  lemma MethodGo(c: Core, s: seq<byte>, ch: byte)
    requires Inv(c) && Reading(c, s) && !SwitchOn(c, ch).act.Fail?
    ensures var t := SwitchOn(c, ch);
            && t.act.Break? && !t.resets
            && (if t.core.state.ReqMethod? then Reading(t.core, s + [ch])
                else ch == ' ' && Spelt(c.verb, s) && t.core == c.(index := c.index + 1, state := ReqSpacesBeforeUrl))
  {
    hide GuessAt, Unchecked, MethodString, Alternative, Inv, Sound;
    MethodStringLength(c.verb);
    var want := At(MethodString(c.verb), c.index);
    assert SwitchOn(c, ch) == MethodTurn(c, ch);
    hide SwitchOn;
    if ch == want {
      Expected(c.verb, s, ch);
    } else if ch != ' ' || want != '\0' {
      if ch != '\0' { Corrected(c.verb, s, ch); }
    } else if c.index < |MethodString(c.verb)| {
      NoNul(c.verb, c.index);
    }
  }

  lemma Expected(m: Method, s: seq<byte>, ch: byte)
    requires s != [] && Spells(m, s) && m == GuessAt(m, |s|) && ch == At(MethodString(m), |s|) && ch != '\0'
    ensures Spells(m, s + [ch]) && m == GuessAt(m, |s| + 1)
  {
    hide MethodString, Unchecked;
  }

  // The k letters x are accepted as the beginning of a method; a single H may still be one of HTTP.
  ghost predicate Taken(p: Parser, x: seq<byte>, skip: Answers)
    requires Ready(p)
  {
    var r := Run(p, x, skip);
    r.verdict == Go && (r.parser.core.state.ReqMethod? || (|x| == 1 && r.parser.core.state.ResOrRespH?))
  }

  // Every prefix of s is read as a method.
  ghost predicate Reads(p: Parser, s: seq<byte>, skip: Answers)
    requires Ready(p)
  {
    forall k | 0 < k <= |s| :: Taken(p, s[..k], skip)
  }

  lemma FirstGo(c: Core, ch: byte)
    requires Inv(c) && c.state.StartReq? && ch != CR && ch != LF && !SwitchOn(c, ch).act.Fail?
    ensures var t := SwitchOn(c, ch); t.act == Notify(MessageBegin) && Reading(t.core, [ch])
  {
    hide Inv, Sound, MethodString, GuessAt, Unchecked;
    FirstLetterFits(ch);
  }

  lemma NoDetour(c: Core, ch: byte)
    requires Inv(c) && (c.state.StartReq? || c.state.ReqMethod?)
    ensures !Repeats(SwitchOn(c, ch).act) && !SwitchOn(c, ch).act.Leave?
  {
    hide Inv, Sound, MethodString, Alternative, FirstLetter;
  }

  lemma OneGo(p: Parser, ch: byte, skip: Answers)
    requires Ready(p) && (p.core.state.StartReq? || p.core.state.ReqMethod?) && Run(p, [ch], skip).verdict == Go
    ensures !SwitchOn(p.core, ch).act.Fail? && Run(p, [ch], skip).parser.core == SwitchOn(p.core, ch).core
  {
    hide Run, SwitchOn, Inv;
    NoDetour(p.core, ch);
    Headers.GoByte(p, ch, skip);
  }

  lemma {:induction false} ReadsReading(p: Parser, s: seq<byte>, skip: Answers)
    requires Ready(p) && p.core.state.StartReq? && s != [] && s[0] != CR && s[0] != LF && Reads(p, s, skip)
    ensures Reading(Run(p, s, skip).parser.core, s)
    decreases |s|
  {
    hide Run, SwitchOn, Inv, Spells, GuessAt;
    var n, ch := |s| - 1, s[|s| - 1];
    assert s[..|s|] == s && s == s[..n] + [ch] && Taken(p, s[..|s|], skip);
    if n == 0 {
      assert s == [ch];
      OneGo(p, ch, skip);
      FirstGo(p.core, ch);
    } else {
      assert Reads(p, s[..n], skip) by { forall k | 0 < k <= n ensures s[..n][..k] == s[..k] { } }
      ReadsReading(p, s[..n], skip);
      Headers.GoParts(p, s[..n], [ch], skip);
      var q := Run(p, s[..n], skip).parser;
      OneGo(q, ch, skip);
      MethodGo(q.core, s[..n], ch);
    }
  }

  /* ---- The other direction. ---- */

  // The letters that the corrected guesses expected.
  lemma Expectations()
    ensures MethodString(CONNECT)[1] == 'O' && MethodString(CONNECT)[2] == 'N' && MethodString(COPY)[1] == 'O'
    ensures MethodString(MKCOL)[1] == 'K' && MethodString(MKCOL)[2] == 'C' && MethodString(MKACTIVITY)[1] == 'K'
    ensures MethodString(SUBSCRIBE)[1] == 'U' && MethodString(POST)[1] == 'O' && MethodString(PUT)[2] == 'T'
    ensures MethodString(UNLOCK)[1] == 'N' && MethodString(UNLOCK)[2] == 'L' && MethodString(UNSUBSCRIBE)[1] == 'N'
    ensures MethodString(PURGE)[1] == 'U' && MethodString(PROPPATCH)[1] == 'R' && MethodString(PROPFIND)[4] == 'F'
    ensures MethodString(PROPFIND)[2] == MethodString(PROPPATCH)[2] == 'O'
    ensures MethodString(PROPFIND)[3] == MethodString(PROPPATCH)[3] == 'P'
  {
  }

  // The guess g expects the letter, and is kept; or it is corrected to h.
  ghost predicate Follows(g: Method, k: nat, ch: byte, h: Method) {
    k <= |MethodString(g)| && if ch == At(MethodString(g), k) then h == g else Alternative(g, k, ch) == Other(h)
  }

  lemma GuessKept(m: Method, k: nat, ch: byte)
    requires 1 <= k < |MethodString(m)| && (ch == MethodString(m)[k] || (k == 2 && Unchecked(m, ch)))
    requires GuessAt(m, k) == m
    ensures Follows(m, k, ch, GuessAt(m, k + 1))
  {
    hide MethodString;
  }

  lemma GuessCorrected(m: Method, k: nat, ch: byte)
    requires 1 <= k < |MethodString(m)| && ch == MethodString(m)[k] && k < |MethodString(GuessAt(m, k))|
    requires GuessAt(m, k) != m && !m.PROPPATCH?
    ensures Follows(GuessAt(m, k), k, ch, GuessAt(m, k + 1))
  {
    Corrections();
    Expectations();
    hide MethodString, Unchecked;
    assert k <= 2;
    if k == 1 { } else { }
  }

  lemma GuessPropPatch(k: nat, ch: byte)
    requires 1 <= k < 5 && (ch == MethodString(PROPPATCH)[k] || (k == 2 && Unchecked(PROPPATCH, ch)))
    ensures Follows(GuessAt(PROPPATCH, k), k, ch, GuessAt(PROPPATCH, k + 1))
  {
    Corrections();
    Expectations();
    assert |MethodString(PROPFIND)| == 8 && |MethodString(POST)| == 4;
    hide MethodString;
    if k == 1 { } else if k == 2 { } else if k == 3 { } else { }
  }

  // Letter k of m.
  lemma GuessStep(m: Method, k: nat, ch: byte)
    requires 1 <= k < |MethodString(m)| && (ch == MethodString(m)[k] || (k == 2 && Unchecked(m, ch)))
    ensures Follows(GuessAt(m, k), k, ch, GuessAt(m, k + 1))
  {
    GuessLength(m, k);
    if GuessAt(m, k) == m {
      GuessKept(m, k, ch);
    } else if m.PROPPATCH? {
      GuessPropPatch(k, ch);
    } else {
      if k == 2 && Unchecked(m, ch) { UncheckedLate(m, k, ch); }
      GuessCorrected(m, k, ch);
    }
  }

  lemma UncheckedLate(m: Method, k: nat, ch: byte)
    requires k == 2 && Unchecked(m, ch) && !m.PROPPATCH?
    ensures GuessAt(m, k) == m
  {
  }

  lemma GuessLength(m: Method, k: nat)
    requires 1 <= k < |MethodString(m)|
    ensures k < |MethodString(GuessAt(m, k))|
  {
  }

  // Letter k of a spelling of m, while the guess is the one for k letters.
  lemma NextLetter(c: Core, m: Method, s: seq<byte>, k: nat)
    requires Inv(c) && c.state.ReqMethod? && Spelt(m, s) && 1 <= k < |s| && c.verb == GuessAt(m, k) && c.index == k
    ensures SwitchOn(c, s[k]) == Turn(c.(verb := GuessAt(m, k + 1), index := k + 1), Break)
  {
    hide Inv, Sound, MethodString, GuessAt, Alternative;
    GuessStep(m, k, s[k]);
    GuessLength(m, k);
    NoNul(m, k);
    NoNul(GuessAt(m, k), k);
    assert s[k] != '\0';
    assert SwitchOn(c, s[k]) == MethodTurn(c, s[k]);
    hide SwitchOn;
  }

  lemma FirstGuess(m: Method)
    ensures |MethodString(m)| >= 2 && FirstLetter(MethodString(m)[0]) == Some(GuessAt(m, 1))
    ensures IsAlpha(MethodString(m)[0])
  {
  }

  lemma FirstOf(c: Core, m: Method, s: seq<byte>)
    requires Inv(c) && c.state.StartReq? && Spelt(m, s)
    ensures s != [] && SwitchOn(c, s[0])
            == Turn(Fresh(c).(verb := GuessAt(m, 1), index := 1, state := ReqMethod), Notify(MessageBegin))
    ensures s[0] != CR && s[0] != LF
  {
    hide Inv, Sound, MethodString, FirstLetter, GuessAt, Unchecked;
    FirstGuess(m);
    assert s[0] == MethodString(m)[0];
  }

  // The parser after k letters of m.
  function AfterLetters(p: Parser, m: Method, k: nat): Parser {
    p.(core := Fresh(p.core).(verb := GuessAt(m, k), index := k, state := ReqMethod), nread := p.nread + k)
  }

  lemma {:induction false} SpeltRuns(p: Parser, m: Method, s: seq<byte>, k: nat, skip: Answers)
    requires Ready(p) && p.core.state.StartReq? && Spelt(m, s) && 1 <= k <= |s| && p.nread + k <= MAX_HEADER_SIZE
    ensures RunsTo(p, s[..k], skip, AfterLetters(p, m, k), [Told(MessageBegin)])
    decreases k
  {
    hide Run, SwitchOn, Inv, GuessAt, MethodString, Unchecked;
    FirstOf(p.core, m, s);
    if k == 1 {
      OnePass(p, s[0], skip);
      assert s[..1] == [s[0]];
    } else {
      SpeltRuns(p, m, s, k - 1, skip);
      var q := AfterLetters(p, m, k - 1);
      RunsReady(p, s[..k - 1], skip, q, [Told(MessageBegin)]);
      NextLetter(q.core, m, s, k - 1);
      Silent(p, s[..k - 1], q, [Told(MessageBegin)], s[k - 1], skip);
      assert s[..k - 1] + [s[k - 1]] == s[..k];
    }
  }

  lemma SpaceEnds(c: Core, m: Method, s: seq<byte>)
    requires Inv(c) && c.state.ReqMethod? && Spelt(m, s) && c.verb == GuessAt(m, |s|) && c.index == |s|
    ensures m == c.verb && SwitchOn(c, ' ') == Turn(c.(index := c.index + 1, state := ReqSpacesBeforeUrl), Break)
  {
    hide Inv, Sound, MethodString;
    Whole(m);
    MethodStringLength(m);
  }

  lemma Whole(m: Method)
    ensures GuessAt(m, |MethodString(m)|) == m
  {
  }

  // s and a space are read as the method m.
  ghost predicate TakenFor(p: Parser, s: seq<byte>, m: Method, skip: Answers)
    requires Ready(p)
  {
    Reads(p, s, skip) &&
    var r := Run(p, s + [' '], skip);
    r.verdict == Go && r.parser.core.state.ReqSpacesBeforeUrl? && r.parser.core.verb == m
  }

  lemma SpeltTaken(p: Parser, s: seq<byte>, m: Method, skip: Answers)
    requires Ready(p) && p.core.state.StartReq? && Spelt(m, s) && p.nread + |s| < MAX_HEADER_SIZE
    ensures TakenFor(p, s, m, skip)
  {
    hide SwitchOn, Inv, GuessAt, MethodString, Unchecked, Run;
    FirstOf(p.core, m, s);
    assert s[..|s|] == s;
    forall k | 0 < k <= |s|
      ensures Taken(p, s[..k], skip)
    {
      SpeltRuns(p, m, s, k, skip);
    }
    SpeltRuns(p, m, s, |s|, skip);
    var q := AfterLetters(p, m, |s|);
    RunsReady(p, s, skip, q, [Told(MessageBegin)]);
    SpaceEnds(q.core, m, s);
    Silent(p, s, q, [Told(MessageBegin)], ' ', skip);
  }

  lemma TakenSpelt(p: Parser, s: seq<byte>, m: Method, skip: Answers)
    requires Ready(p) && p.core.state.StartReq? && s != [] && s[0] != CR && s[0] != LF && TakenFor(p, s, m, skip)
    ensures Spelt(m, s)
  {
    hide SwitchOn, Inv, Spelt, Run, Reads;
    ReadsReading(p, s, skip);
    hide Reading;
    Headers.GoParts(p, s, [' '], skip);
    var q := Run(p, s, skip).parser;
    OneGo(q, ' ', skip);
    MethodGo(q.core, s, ' ');
  }

  lemma RequestExactly(p: Parser, s: seq<byte>, m: Method, skip: Answers)
    requires Ready(p) && p.core.state.StartReq? && s != [] && s[0] != CR && s[0] != LF
    requires p.nread + |s| < MAX_HEADER_SIZE
    ensures TakenFor(p, s, m, skip) <==> Spelt(m, s)
  {
    hide TakenFor, Spelt;
    if Spelt(m, s) { SpeltTaken(p, s, m, skip); }
    if TakenFor(p, s, m, skip) { TakenSpelt(p, s, m, skip); }
  }

  /* ---- A parser that does not know yet whether a request or a response comes (src/http_parser.c:657-693). ---- */

  // The parser that has decided for a request.
  function Decided(p: Parser): Parser { p.(core := Fresh(p.core).(kind := Request, state := StartReq)) }

  lemma StartEither(c: Core, ch: byte)
    requires Inv(c) && c.state.StartReqOrRes? && ch != CR && ch != LF
    ensures SwitchOn(c, ch) == if ch == 'H' then Turn(Fresh(c).(state := ResOrRespH), Notify(MessageBegin))
                               else Turn(Fresh(c).(kind := Request, state := StartReq), Again)
  {
    hide Inv, Sound;
  }

  lemma AfterH(c: Core, ch: byte)
    requires Inv(c) && c.state.ResOrRespH?
    ensures var t := SwitchOn(c, ch);
            if ch == 'E' then t == Turn(c.(kind := Request, verb := HEAD, index := 2, state := ReqMethod), Break)
            else t.act.Fail? || t.core.state.ResHT?
    ensures !Repeats(SwitchOn(c, ch).act) && !SwitchOn(c, ch).act.Leave?
  {
    hide Inv, Sound;
  }

  lemma ReadyDecided(p: Parser)
    requires Ready(p) && p.core.state.StartReqOrRes?
    ensures Ready(Decided(p))
  {
  }

  // Any first byte but H goes to the state of a request parser within the same turn.
  lemma NotH(p: Parser, x: seq<byte>, skip: Answers)
    requires Ready(p) && p.core.state.StartReqOrRes? && x != [] && x[0] != CR && x[0] != LF && x[0] != 'H'
    requires p.nread < MAX_HEADER_SIZE
    ensures Ready(Decided(p)) && Run(p, x, skip) == Run(Decided(p), x, skip)
  {
    hide Run, SwitchOn, Inv;
    ReadyDecided(p);
    StartEither(p.core, x[0]);
    Counted(p, x, skip);
    Counted(Decided(p), x, skip);
    PassOn(Enter(p), x, skip, SwitchOn(p.core, x[0]));
    assert After(Enter(p), SwitchOn(p.core, x[0]), skip) == Enter(Decided(p));
    var r := RunMid(Enter(Decided(p)), x, skip);
    assert [] + r.events == r.events;
  }

  // After H.
  function Waiting(p: Parser): Parser {
    p.(core := Fresh(p.core).(state := ResOrRespH), nread := p.nread + 1)
  }

  lemma RunsH(p: Parser, skip: Answers)
    requires Ready(p) && p.core.state.StartReqOrRes? && p.nread < MAX_HEADER_SIZE
    ensures RunsTo(p, ['H'], skip, Waiting(p), [Told(MessageBegin)]) && Ready(Waiting(p)) && Taken(p, ['H'], skip)
  {
    hide Run, SwitchOn, Inv;
    StartEither(p.core, 'H');
    OnePass(p, 'H', skip);
    RunsReady(p, ['H'], skip, Waiting(p), [Told(MessageBegin)]);
  }

  // HE leaves both parsers in one and the same state.
  lemma RunsHE(p: Parser, skip: Answers)
    requires Ready(p) && p.core.state.StartReqOrRes? && p.nread + 2 <= MAX_HEADER_SIZE
    ensures Ready(Decided(p)) && Run(p, ['H', 'E'], skip) == Run(Decided(p), ['H', 'E'], skip)
    ensures Run(p, ['H', 'E'], skip).verdict == Go
  {
    hide Run, SwitchOn, Inv, MethodString, GuessAt, Unchecked;
    ReadyDecided(p);
    RunsH(p, skip);
    AfterH(Waiting(p).core, 'E');
    Silent(p, ['H'], Waiting(p), [Told(MessageBegin)], 'E', skip);
    HeadSpelt();
    SpeltRuns(Decided(p), HEAD, ['H', 'E', 'A', 'D'], 2, skip);
    assert ['H', 'E', 'A', 'D'][..2] == ['H', 'E'] == ['H'] + ['E'];
    assert After(Enter(Waiting(p)), SwitchOn(Waiting(p).core, 'E'), skip) == AfterLetters(Decided(p), HEAD, 2);
  }

  lemma HeadSpelt()
    ensures Spelt(HEAD, ['H', 'E', 'A', 'D']) && GuessAt(HEAD, 2) == HEAD
    ensures forall m | MethodString(m)[0] == 'H' :: m == HEAD
  {
  }

  lemma SameHE(p: Parser, x: seq<byte>, skip: Answers)
    requires Ready(p) && p.core.state.StartReqOrRes? && |x| >= 2 && x[0] == 'H' && x[1] == 'E'
    requires p.nread + 2 <= MAX_HEADER_SIZE
    ensures Ready(Decided(p)) && Run(p, x, skip) == Run(Decided(p), x, skip)
  {
    hide Run, Inv;
    RunsHE(p, skip);
    assert x == ['H', 'E'] + x[2..];
    RunConcat(p, ['H', 'E'], x[2..], skip);
    RunConcat(Decided(p), ['H', 'E'], x[2..], skip);
  }

  // A first H is no method unless E follows.
  lemma OnlyHE(p: Parser, s: seq<byte>, m: Method, skip: Answers)
    requires Ready(p) && p.core.state.StartReqOrRes? && s != [] && s[0] == 'H' && p.nread + |s| < MAX_HEADER_SIZE
    requires |s| < 2 || s[1] != 'E'
    ensures !TakenFor(p, s, m, skip)
  {
    hide Run, SwitchOn, Inv;
    if TakenFor(p, s, m, skip) {
      var x := if |s| < 2 then s + [' '] else s[..2];
      assert Run(p, x, skip).verdict == Go && !Run(p, x, skip).parser.core.state.ResHT? by {
        if |s| >= 2 { assert Taken(p, s[..2], skip); }
      }
      var ch := x[1];
      assert x == ['H'] + [ch];
      RunsH(p, skip);
      Headers.GoParts(p, ['H'], [ch], skip);
      AfterH(Waiting(p).core, ch);
      Headers.GoByte(Waiting(p), ch, skip);
    }
  }

  lemma SameTaken(p: Parser, s: seq<byte>, m: Method, skip: Answers)
    requires Ready(p) && p.core.state.StartReqOrRes? && s != [] && s[0] != CR && s[0] != LF
    requires p.nread + |s| < MAX_HEADER_SIZE
    requires s[0] == 'H' ==> |s| >= 2 && s[1] == 'E'
    ensures Ready(Decided(p)) && (TakenFor(p, s, m, skip) <==> TakenFor(Decided(p), s, m, skip))
  {
    hide Run, SwitchOn, Inv;
    ReadyDecided(p);
    var d := Decided(p);
    forall k | 0 < k <= |s|
      ensures Taken(p, s[..k], skip) <==> Taken(d, s[..k], skip)
    {
      Alike(p, s, s[..k], skip);
    }
    Alike(p, s, s + [' '], skip);
  }

  lemma Alike(p: Parser, s: seq<byte>, x: seq<byte>, skip: Answers)
    requires Ready(p) && p.core.state.StartReqOrRes? && s != [] && s[0] != CR && s[0] != LF
    requires p.nread + |s| < MAX_HEADER_SIZE
    requires s[0] == 'H' ==> |s| >= 2 && s[1] == 'E'
    requires x != [] && (x <= s || s <= x)
    ensures Ready(Decided(p)) && (Taken(p, x, skip) <==> Taken(Decided(p), x, skip))
    ensures |x| > |s| ==> Run(p, x, skip) == Run(Decided(p), x, skip)
  {
    hide Run, SwitchOn, Inv, MethodString, GuessAt, Unchecked;
    ReadyDecided(p);
    if s[0] != 'H' {
      NotH(p, x, skip);
    } else if |x| >= 2 {
      SameHE(p, x, skip);
    } else {
      assert x == ['H'];
      RunsH(p, skip);
      HeadSpelt();
      SpeltRuns(Decided(p), HEAD, ['H', 'E', 'A', 'D'], 1, skip);
      assert ['H', 'E', 'A', 'D'][..1] == ['H'];
    }
  }

  // A request method of the letters s, followed by a space, is accepted as m exactly when s spells m, but for a third
  // letter that is not checked: by a parser for requests, and by one for both.
  lemma MethodExactly(p: Parser, s: seq<byte>, m: Method, skip: Answers)
    requires Ready(p) && (p.core.state.StartReq? || p.core.state.StartReqOrRes?) && s != [] && s[0] != CR && s[0] != LF
    requires p.nread + |s| < MAX_HEADER_SIZE
    ensures TakenFor(p, s, m, skip) <==> Spelt(m, s)
  {
    hide TakenFor, Run, Inv;
    if p.core.state.StartReq? {
      RequestExactly(p, s, m, skip);
    } else if s[0] == 'H' && (|s| < 2 || s[1] != 'E') {
      OnlyHE(p, s, m, skip);
      FirstGuess(m);
      HeadSpelt();
    } else {
      SameTaken(p, s, m, skip);
      RequestExactly(Decided(p), s, m, skip);
    }
  }

  // The methods of the parser, and their names on the wire.
  const METHODS: seq<Method> := [
    DELETE, GET, HEAD, POST, PUT, CONNECT, OPTIONS, TRACE, COPY, LOCK, MKCOL, MOVE, PROPFIND, PROPPATCH, SEARCH, UNLOCK,
    REPORT, MKACTIVITY, CHECKOUT, MERGE, MSEARCH, NOTIFY, SUBSCRIBE, UNSUBSCRIBE, PATCH, PURGE]

  const NAMES: seq<seq<byte>> := [
    "DELETE", "GET", "HEAD", "POST", "PUT", "CONNECT", "OPTIONS", "TRACE", "COPY", "LOCK", "MKCOL", "MOVE", "PROPFIND",
    "PROPPATCH", "SEARCH", "UNLOCK", "REPORT", "MKACTIVITY", "CHECKOUT", "MERGE", "M-SEARCH", "NOTIFY", "SUBSCRIBE",
    "UNSUBSCRIBE", "PATCH", "PURGE"]

  lemma OwnName(m: Method)
    ensures Spelt(m, MethodString(m))
  {
    hide MethodString;
  }

  lemma FirstNames(i: nat)
    requires i < 13
    ensures |METHODS| == |NAMES| == 26 && MethodString(METHODS[i]) == NAMES[i]
  {
  }

  lemma LastNames(i: nat)
    requires 13 <= i < |METHODS|
    ensures |METHODS| == |NAMES| == 26 && MethodString(METHODS[i]) == NAMES[i]
  {
  }

  lemma NamesSpelt(i: nat)
    requires i < |METHODS|
    ensures |METHODS| == |NAMES| == 26 && MethodString(METHODS[i]) == NAMES[i] && Spelt(METHODS[i], NAMES[i])
  {
    hide MethodString, Spelt;
    if i < 13 { FirstNames(i); } else { LastNames(i); }
    OwnName(METHODS[i]);
  }

  // No letters are taken for two methods.
  lemma OneMethod(s: seq<byte>, m: Method, n: Method)
    requires Spelt(m, s) && Spelt(n, s)
    ensures m == n
  {
    var p := Initial(Request);
    InitialReady(Request);
    FirstOf(p.core, m, s);
    assert |s| <= 11 by { MethodStringLength(m); }
    MethodExactly(p, s, m, NO_SKIP);
    MethodExactly(p, s, n, NO_SKIP);
    hide Spelt, Run, Inv, Reads;
  }

  // So GEX is taken for GET.
  lemma Misspelt()
    ensures Spelt(GET, ['G', 'E', 'X']) && MethodString(GET) != ['G', 'E', 'X']
  {
  }
}
