/** The streaming parser validates the URL of a request line with the automaton of `http_parser_parse_url`; on every URL
    it accepts, the whole-buffer parser goes through the same states (src/http_parser.c:979-1050, 2069-2128). */
module UrlAgreement {
  import opened Bytes
  import opened ParserState
  import opened UrlChars
  import opened Switch
  import opened Trace
  import opened Machine
  import Headers
  import ParseUrl

  predicate NoBreak(s: seq<byte>) { forall i | 0 <= i < |s| :: s[i] != ' ' && s[i] != CR && s[i] != LF }

  lemma SpaceBeforeUrl(c: Core)
    requires Inv(c) && c.state.ReqSpacesBeforeUrl?
    ensures SwitchOn(c, ' ') == Turn(c, Break)
  {
    hide ParseUrlChar, Sound, Inv;
  }

  lemma {:induction false} SpacesRun(p: Parser, spaces: seq<byte>, skip: Answers)
    requires Ready(p) && p.core.state.ReqSpacesBeforeUrl? && Headers.AllSpaces(spaces)
    requires Run(p, spaces, skip).verdict == Go
    ensures Run(p, spaces, skip).parser.core == p.core && Run(p, spaces, skip).events == []
    decreases |spaces|
  {
    hide SwitchOn;
    if spaces != [] {
      hide Run;
      assert spaces == [spaces[0]] + spaces[1..];
      Headers.GoParts(p, [' '], spaces[1..], skip);
      SpaceBeforeUrl(p.core);
      Headers.GoByte(p, ' ', skip);
      SpacesRun(Run(p, [' '], skip).parser, spaces[1..], skip);
    }
  }

  // One character of the URL.
  lemma UrlChar(c: Core, ch: byte)
    requires Inv(c) && (c.state.ReqSpacesBeforeUrl? || InUrl(c.state)) && ch != ' ' && ch != CR && ch != LF
    ensures var t := SwitchOn(c, ch);
            var s := ParseUrlChar(if c.state.ReqSpacesBeforeUrl? then ParseUrl.UrlStart(c.verb == CONNECT) else c.state,
                                  ch);
            if s.Dead? then t.act.Fail? else t.core == c.(state := s) && (t.act == Mark(Url) || t.act == Keep(Url))
  {
    hide ParseUrlChar, Sound, Inv;
  }

  lemma UrlStep(p: Parser, ch: byte, skip: Answers)
    requires Ready(p) && (p.core.state.ReqSpacesBeforeUrl? || InUrl(p.core.state)) && NoBreak([ch])
    requires Run(p, [ch], skip).verdict == Go
    ensures var s := ParseUrlChar(if p.core.state.ReqSpacesBeforeUrl? then ParseUrl.UrlStart(p.core.verb == CONNECT)
                                  else p.core.state, ch);
            InUrl(s) && Run(p, [ch], skip).parser.core == p.core.(state := s)
            && Run(p, [ch], skip).events == [Data(Url, [ch])]
  {
    hide Run, SwitchOn, ParseUrlChar, Inv;
    assert NoBreak([ch]) && [ch][0] == ch;
    UrlChar(p.core, ch);
    Headers.GoByte(p, ch, skip);
  }

  // The URL, character by character: the states are those of the whole-buffer parser, and every byte is reported.
  lemma {:induction false} UrlRun(p: Parser, url: seq<byte>, skip: Answers)
    requires Ready(p) && p.core.state.ReqSpacesBeforeUrl? && url != [] && NoBreak(url)
    requires Run(p, url, skip).verdict == Go
    ensures var s := ParseUrl.UrlState(ParseUrl.UrlStart(p.core.verb == CONNECT), url);
            InUrl(s) && Run(p, url, skip).parser.core == p.core.(state := s)
    ensures Run(p, url, skip).events == Singles(Url, url)
    decreases |url|
  {
    hide Run, SwitchOn, ParseUrlChar, Inv;
    var n := |url| - 1;
    var ch := url[n];
    SinglesSnoc(Url, [], ch);
    hide Singles;
    assert [] + [ch] == [ch] && [] + [Data(Url, [ch])] == [Data(Url, [ch])];
    assert NoBreak([ch]) && NoBreak(url[..n]);
    if n == 0 {
      assert url == [ch] && url[..0] == [];
      UrlStep(p, ch, skip);
    } else {
      assert url == url[..n] + [ch];
      Headers.GoParts(p, url[..n], [ch], skip);
      UrlRun(p, url[..n], skip);
      UrlStep(Run(p, url[..n], skip).parser, ch, skip);
      SinglesSnoc(Url, url[..n], ch);
    }
  }

  lemma UrlEnd(c: Core, t: byte)
    requires Inv(c) && InUrl(c.state) && (t == ' ' || t == CR || t == LF)
    ensures SwitchOn(c, t).act.Fail? || SwitchOn(c, t).act == Flush(Url)
  {
    hide ParseUrlChar, Sound, Inv, UrlMayEnd;
  }

  // The state inside the URL.
  lemma StateAt(p: Parser, spaces: seq<byte>, url: seq<byte>, k: nat, skip: Answers)
    requires Ready(p) && p.core.state.ReqSpacesBeforeUrl? && Headers.AllSpaces(spaces) && NoBreak(url) && 0 < k <= |url|
    requires Run(p, spaces + url, skip).verdict == Go
    ensures var s := ParseUrl.UrlState(ParseUrl.UrlStart(p.core.verb == CONNECT), url[..k]);
            InUrl(s) && Run(p, spaces + url[..k], skip).parser.core.state == s
  {
    hide Run, SwitchOn, ParseUrl.UrlState, ParseUrl.UrlStart, Inv, InUrl;
    assert url == url[..k] + url[k..] && spaces + url == (spaces + url[..k]) + url[k..];
    Headers.GoParts(p, spaces + url[..k], url[k..], skip);
    Headers.GoParts(p, spaces, url[..k], skip);
    SpacesRun(p, spaces, skip);
    UrlRun(Run(p, spaces, skip).parser, url[..k], skip);
  }

  lemma EndByte(p: Parser, t: byte, skip: Answers)
    requires Ready(p) && InUrl(p.core.state) && (t == ' ' || t == CR || t == LF) && Run(p, [t], skip).verdict == Go
    ensures Run(p, [t], skip).events == [Data(Url, [])]
  {
    hide Run, SwitchOn, Inv, InUrl, Headers.Quiet;
    UrlEnd(p.core, t);
    Headers.GoByte(p, t, skip);
  }

  lemma UrlDelivered(p: Parser, spaces: seq<byte>, url: seq<byte>, t: byte, skip: Answers)
    requires Ready(p) && p.core.state.ReqSpacesBeforeUrl? && Headers.AllSpaces(spaces) && url != [] && NoBreak(url)
    requires t == ' ' || t == CR || t == LF
    requires Run(p, spaces + url + [t], skip).verdict == Go
    ensures Delivered(Url, Run(p, spaces + url + [t], skip).events) == url
  {
    hide Run, SwitchOn, ParseUrl.UrlState, ParseUrl.UrlStart, Inv, Delivered, InUrl, Headers.AllSpaces, NoBreak;
    Headers.GoParts(p, spaces + url, [t], skip);
    Headers.GoParts(p, spaces, url, skip);
    SpacesRun(p, spaces, skip);
    var q := Run(p, spaces, skip).parser;
    UrlRun(q, url, skip);
    EndByte(Run(q, url, skip).parser, t, skip);
    DeliveredSingles(Url, url);
    NothingMore(Run(p, spaces + url + [t], skip).events, Singles(Url, url));
  }

  lemma NothingMore(events: seq<Event>, before: seq<Event>)
    requires events == [] + before + [Data(Url, [])]
    ensures Delivered(Url, events) == Delivered(Url, before)
  {
    assert [] + before == before;
    DeliveredConcat(Url, before, [Data(Url, [])]);
    assert Delivered(Url, [Data(Url, [])]) == [];
  }

  // For every request line whose URL execute accepts: the url events deliver exactly the URL, and running the character
  // loop of http_parser_parse_url on it visits, character by character, the states execute went through, so that it
  // never meets s_dead or an unexpected state.
  lemma StatesAgree(p: Parser, spaces: seq<byte>, url: seq<byte>, t: byte, skip: Answers)
    requires Ready(p) && p.core.state.ReqSpacesBeforeUrl? && Headers.AllSpaces(spaces) && url != [] && NoBreak(url)
    requires t == ' ' || t == CR || t == LF
    requires Run(p, spaces + url + [t], skip).verdict == Go
    ensures Delivered(Url, Run(p, spaces + url + [t], skip).events) == url
    ensures forall k | 0 < k <= |url| ::
              Run(p, spaces + url[..k], skip).parser.core.state
                == ParseUrl.UrlState(ParseUrl.UrlStart(p.core.verb == CONNECT), url[..k])
    ensures ParseUrl.UrlAccepted(url, p.core.verb == CONNECT)
  {
    hide Run, SwitchOn, ParseUrl.UrlState, ParseUrl.UrlStart, Inv, Delivered, InUrl, Headers.AllSpaces, NoBreak;
    hide Headers.Quiet;
    Headers.GoParts(p, spaces + url, [t], skip);
    forall k | 0 < k <= |url|
      ensures Run(p, spaces + url[..k], skip).parser.core.state
              == ParseUrl.UrlState(ParseUrl.UrlStart(p.core.verb == CONNECT), url[..k])
      ensures InUrl(ParseUrl.UrlState(ParseUrl.UrlStart(p.core.verb == CONNECT), url[..k]))
    {
      StateAt(p, spaces, url, k, skip);
    }
    UrlDelivered(p, spaces, url, t, skip);
  }

  // Where a URL may end: not in its schema, before the host, nor in the slashes between.
  lemma UrlEnds(c: Core, ch: byte)
    requires Inv(c) && InUrl(c.state) && (ch == ' ' || ch == CR || ch == LF)
    ensures SwitchOn(c, ch).act.Fail?
            <==> c.state in {ReqSchema, ReqSchemaSlash, ReqSchemaSlashSlash, ReqServerStart}
    ensures SwitchOn(c, ch).act.Fail? ==> SwitchOn(c, ch).act == Fail(InvalidUrl)
  {
    hide ParseUrlChar, Sound, Inv;
  }
}
