/** The URL automaton shared by the streaming parser and the whole-buffer URL parser (src/http_parser.c:424-570). */
module UrlChars {
  import opened Bytes
  import opened ParserState

  function ParseUrlChar(s: State, ch: byte): (r: State)
    ensures r.Dead? || InUrl(r)
  {
    if ch == ' ' || ch == '\r' || ch == '\n' then Dead
    else if ch == '\t' || ch == 12 as char then Dead
    else
      if s.ReqSpacesBeforeUrl? then
        if ch == '/' || ch == '*' then ReqPath else if IsAlpha(ch) then ReqSchema else Dead
      else if s.ReqSchema? then
        if IsAlpha(ch) then s else if ch == ':' then ReqSchemaSlash else Dead
      else if s.ReqSchemaSlash? then if ch == '/' then ReqSchemaSlashSlash else Dead
      else if s.ReqSchemaSlashSlash? then if ch == '/' then ReqServerStart else Dead
      else if s.ReqServerWithAt? then if ch == '@' then Dead else ServerChar(ch)
      else if s.ReqServerStart? then ServerChar(ch)
      else if s.ReqServer? then ServerChar(ch)
      else if s.ReqPath? then
        if IsUrlChar(ch) then s else if ch == '?' then ReqQueryStringStart else if ch == '#' then ReqFragmentStart
          else Dead
      else if s.ReqQueryStringStart? then QueryChar(ch)
      else if s.ReqQueryString? then QueryChar(ch)
      else if s.ReqFragmentStart? then
        if IsUrlChar(ch) || ch == '?' then ReqFragment else if ch == '#' then s else Dead
      else if s.ReqFragment? then if IsUrlChar(ch) || ch == '?' || ch == '#' then s else Dead
      else Dead
  }

  function ServerChar(ch: byte): State {
    if ch == '/' then ReqPath
    else if ch == '?' then ReqQueryStringStart
    else if ch == '@' then ReqServerWithAt
    else if IsUserinfoChar(ch) || ch == '[' || ch == ']' then ReqServer
    else Dead
  }

  function QueryChar(ch: byte): State {
    if IsUrlChar(ch) || ch == '?' then ReqQueryString else if ch == '#' then ReqFragmentStart else Dead
  }
}
