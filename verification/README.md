# A verified model of the RSVA11001 snapshot server

The server polls a DVR that tolerates one HTTP client at a time. It opens its cameras in turn, parses each HTTP response
incrementally, reassembles `JPGS <length> payload JPGE` frames from the body, keeps the latest image of every camera and
answers SCGI requests with it. This project models that path, bottom to top, together with the Base64 codec of the DVR's own
web pages, and proves what each layer is for.

`dafny verify dfyconfig.toml` checks everything.

## How the model is laid out

| file | models |
|---|---|
| `Options.dfy`, `Bytes.dfy`, `ParserState.dfy`, `UrlChars.dfy` | character classes, the parser's fields, the URL automaton |
| `Switch.dfy` | one pass through the big `switch`, as a function of the fields and one byte; the source's assertions are obligations in it |
| `Trace.dfy` | callbacks as a trace of events, and the trace with adjacent data events of one kind run together |
| `Machine.dfy` | the byte-at-a-time reading of the parser: a byte goes round the switch until it is consumed |
| `Marks.dfy`, `Execution.dfy` | `http_parser_execute` in its own form: class `HttpParser` with in-place fields, marks, bulk jumps over bodies, callbacks that fail or pause; proved to refine `Machine` |
| `HeaderLimit.dfy` | which streams the header limit spares, although bytes handed back by a pause are counted again |
| `Feeding.dfy` | a stream fed in pieces, paused and resumed |
| `Methods.dfy`, `StatusLine.dfy`, `Headers.dfy`, `Lengths.dfy` | what the machine recognises: methods, status lines, names and values, lengths |
| `HeadEnd.dfy`, `HeaderBlocks.dfy` | the empty line after the headers, whole headers and blocks of them, and where they say the body comes from |
| `HeaderSyntax.dfy`, `StartLines.dfy`, `LineGrammar.dfy` | exactly which names, headers, blocks, status lines and request lines are accepted, and what is reported of them |
| `NextMessage.dfy`, `Exchanges.dfy` | the state after a message, from the bytes of its head; whole messages, one after the other on a connection |
| `Framing.dfy`, `KeepAlive.dfy` | identity and chunked bodies; keep-alive |
| `Messages.dfy` | heads and bodies together, fed to an actual parser in any pieces |
| `LongHeader.dfy` | a head that the header limit does not spare |
| `ParseUrl.dfy`, `UrlForms.dfy`, `UrlGrammar.dfy`, `UrlAgreement.dfy` | `http_parser_parse_url` and `http_parse_host`; well-formed URLs, written from their parts, are cut back into them, and no others are accepted; agreement with the streaming parser |
| `Frames.dfy`, `Receiver.dfy`, `EndToEnd.dfy` | the ping-pong frame receiver: on values, as class `Connection`, and from received bytes to the image handed out |
| `Adapter.dfy`, `Accounts.dfy`, `Outcomes.dfy`, `Queues.dfy`, `Reactor.dfy` | the camera reactor: on values, the invariants of its runs, what becomes of each request and event, when its queues are long enough, and class `Globals` |
| `Base64.dfy` | Base64 over UTF-8 |

The parser is modelled in strict mode, the default. A callback is modelled by the event it appends to the trace; what the
application answers is a function of the trace so far (`Execution.Policy`), so that every theorem about `Execute` holds for
all applications, pausing ones included. System calls are modelled by their outcomes, which are inputs: the reactor's theorems
hold for all of them. `Machine.Run` is the reference for the parser: `Execute` is proved to compute what it computes, however
the stream is cut, and the theorems about messages are proved about it.

Where the code does less than its documentation or its comments suggest, the model follows the code:

- The wrap test for lengths is one-sided: `Lengths.LengthsExact` says exactly when a length is stored as sent, and
  `Lengths.WrapAccepted` gives an accepted chunk size that is not.
- The table of hexadecimal digits has entries for the first 128 bytes only, so every other byte in a chunk size is read as the
  digit 0. `Lengths.ChunkSizeExactly` says exactly what is read as a chunk size and when it is made of hexadecimal digits, and
  `Framing.HighByteEnds` gives a body that ends with a size that is not.
- The third letter of most request methods is not checked: `Methods.MethodExactly` says exactly which spellings are accepted,
  and `Methods.Misspelt` gives one that is no method.
- A byte handed back by a pause is counted twice against the header limit. `HeaderLimit.Spared` says which streams stay within
  the limit even so. For these, and for applications that never pause, `Feeding.Feed` gives the outcome of one uninterrupted run,
  `nread` aside; an application that always pauses meets the limit on every other stream that the parser accepts.
  `LongHeader.LimitInTheWay` is such a stream, from its first byte.
- `http_should_keep_alive` may answer differently in on_headers_complete and in on_message_complete:
  `KeepAlive.KeepAliveDecides` says exactly when, and `KeepAlive.AnswersDiffer` gives a response, byte by byte, for which it does.
- A parser of responses reports the beginning of a message for every CR or LF before one: `StartLines.EmptyLines`.
- Both numbers of the version must be above 0 for a connection to persist unasked, so HTTP/2.0 counts as HTTP/1.0:
  `NextMessage.Stays`, which every theorem about the next message uses, is that test.
- `http_parser_parse_url` stores offsets in 16 bits, and for a URL with a schema and no host it looks at whatever the entry for
  the host held before. `ParseUrl.ParsedUrl.ParseUrl` says for which URLs neither matters; `ParseUrl.SchemaAlone` and
  `ParseUrl.HostTooFar` are URLs that are accepted although their host is missing or wrong. Otherwise exactly the URLs of
  `UrlForms.ProperUrl` are accepted: an at-sign may stand without user information, a fragment may begin with further number
  signs, and the target of CONNECT may be followed by an empty query and fragment.

## Model

| member | source | states |
|---|---|---|
| Switch.SwitchOn | src/http_parser.c:644-1815 | every state has its arm; each of the source's assertions about a state holds when it is reached; what every reachable state satisfies is kept; a repeated pass lowers the rank of the state; marks move as the state says |
| Switch.MethodTurn | src/http_parser.c:913-977 | the index never passes the end of the method's name |
| Switch.FieldTurn | src/http_parser.c:1224-1352 | the matcher's index stays inside the literal it is matching; which bytes it takes is stated by `HeaderSyntax.TokenTable` and `HeaderSyntax.NameExactly` |
| Switch.ValueTurn | src/http_parser.c:1421-1516 | the same for header values; an accepted Content-Length digit never leaves ULLONG_MAX |
| Switch.ChunkDataTurn | src/http_parser.c:1772-1808 | inside a chunk the length is neither 0 nor ULLONG_MAX, and it is 0 at its end |
| UrlChars.ParseUrlChar | src/http_parser.c:424-570 | the URL automaton only visits URL states or dies; what it accepts, and which character opens which field, is stated by `UrlForms.ParsePrinted` and `ParseUrl.CutDelimited` |
| Machine.Finish | src/http_parser.c:644-646 | a byte goes round the switch at most rank + 1 times, and what it leaves is ready for the next byte or a syntax error |
| Machine.Byte | src/http_parser.c:632-646 | a byte takes at most four passes |
| Machine.Run | src/http_parser.c:632-1815 | a run never uses more bytes than there are, uses all of them unless it stops or leaves, and stops only with a syntax error or at the header limit |
| Machine.RunConcat | src/http_parser.c:572-1845 | running over a ++ b is running over a and then, if nothing stopped it, over b |
| Machine.BodyStretch | src/http_parser.c:1644-1685 | n body bytes are delivered as they are and lower the remaining length by n |
| Machine.RunCounted | src/http_parser.c:635-642 | a larger `nread` changes nothing but `nread`, unless it reaches the header limit |
| Machine.Recount | src/http_parser.c:1598-1598 | handing back a byte that was already counted changes nothing but `nread`, unless it reaches the header limit |
| Trace.MergeCongruence | src/http_parser.h:61-75 | merging adjacent data events is a congruence for concatenation |
| Trace.MergeSingles | src/http_parser.h:61-75 | delivering bytes one by one and at once is the same trace, merged |
| Trace.DeliveredMerge | src/http_parser.h:61-75 | merging loses no byte and keeps their order |
| Marks.AtMostOneMark | src/http_parser.c:1827-1830 | at the end of the buffer at most one mark is set |
| Marks.InitialMarksOk | src/http_parser.c:612-630 | the marks set at the start of a call are those its state needs |
| Execution.DoingPass | src/http_parser.c:644-1815 | what one pass does to the run of the machine that is still to be accounted for |
| Execution.BodyJump | src/http_parser.c:1644-1685 | jumping over k body bytes is k passes of the machine |
| Execution.BodyEnd | src/http_parser.c:1654-1675 | the last bytes of an identity body are reported in one event, and the pointer is handed back on the last of them |
| Execution.RunToEnd | src/http_parser.c:1644-1675 | the machine delivers an identity body up to its last byte |
| Execution.StoppedDoing | src/http_parser.c:60-109 | a callback that stops the parser on a byte still to be consumed leaves a state from which feeding that byte again goes on as before, unless the second count of the byte exceeds the header limit |
| Execution.HandingEnd | src/http_parser.c:1661-1675 | the last byte of an identity body may be handed back, and is not counted |
| Execution.StoppedBetween | src/http_parser.c:60-109 | the same when the byte was consumed |
| Execution.GrewOn | src/http_parser.c:60-109 | stretches of callbacks compose: only the last one may have stopped the parser |
| Execution.HttpParser.constructor | src/http_parser.c:1898-1906 | a new parser is in its start state |
| Execution.HttpParser.Init | src/http_parser.c:1898-1906 | so is one that is initialised again |
| Execution.HttpParser.Pause | src/http_parser.c:2158-2170 | pausing and unpausing touch nothing but `http_errno` |
| Execution.HttpParser.Call | src/http_parser.c:60-75 | a notification: one event, and what the reply does to `http_errno` |
| Execution.HttpParser.CallData | src/http_parser.c:84-101 | a data callback reports exactly what is marked and unsets the mark, unless it is stopped |
| Execution.HttpParser.CallHead | src/http_parser.c:1579-1596 | on_headers_complete: 1 means no body, 0 goes on, anything else is an error |
| Execution.HttpParser.SwitchPass | src/http_parser.c:644-1815 | one pass in place follows the machine |
| Execution.HttpParser.BodyPass | src/http_parser.c:1644-1790 | the bulk passes in place follow the machine |
| Execution.HttpParser.ConsumeByte | src/http_parser.c:643-646 | the loop around `reexecute_byte` ends, moves the pointer forward, and follows the machine |
| Execution.HttpParser.FinalCalls | src/http_parser.c:1817-1837 | what is still marked at the end is reported, once |
| Execution.HttpParser.EndOfData | src/http_parser.c:1817-1839 | at the end of the buffer, what the call did is what the run of the machine over its data says |
| Execution.HttpParser.EndOfStream | src/http_parser.c:590-609 | a call with no bytes completes a body that lasts until the end, is fine between messages, and is an error elsewhere |
| Execution.HttpParser.CountByte | src/http_parser.c:635-642 | the header limit |
| Execution.HttpParser.Execute | src/http_parser.c:572-1845 | for all data and all applications: it refines the machine, also when a callback fails or pauses: the number of bytes returned and the fields then are those of the machine at that point, from which feeding the rest goes on; no callback runs after one that stopped the parser, and `http_errno` is what that one made it; a pause that consumed nothing lowers the rank of the state, so resuming makes progress; a parser in error does nothing |
| HeaderLimit.SparedRuns | src/http_parser.c:632-642 | a stream that is spared when bytes are counted again does not reach the limit when they are not |
| HeaderLimit.SparedFewer | src/http_parser.c:635-642 | what is spared with a count is spared with a smaller one |
| HeaderLimit.SparedRest | src/http_parser.c:635-642 | what follows an accepted beginning of a spared stream is spared |
| HeaderLimit.HandedBack | src/http_parser.c:1430-1434 | only a line feed in the headers, or the last byte of an identity body, is ever handed back, and the pass after that consumes it |
| HeaderLimit.ShortSpared | src/http_parser.c:635-642 | a stream is spared if its length, its line feeds and the count so far together do not exceed the limit |
| HeaderLimit.LimitIs | src/http_parser.c:635-642 | a byte raises the header overflow exactly in a header with 81920 bytes counted |
| HeaderLimit.BodySpared | src/http_parser.c:1644-1808 | bodies and trailers without values are spared whenever they are accepted |
| Feeding.NextPart | src/http_parser.c:60-109 | resuming after a pause, on values |
| Feeding.OneCall | src/http_parser.c:572-1845 | one call and what is left to feed |
| Feeding.FeedPiece | src/http_parser.h:232-240 | pausing, unpausing and feeding the unconsumed bytes again ends, and loses nothing |
| Feeding.Feed | src/http_parser.c:572-1845 | however a stream is cut and wherever it is paused: if it is spared, or never paused, the fields and the error are those of one run over the whole stream, `nread` aside, and the merged trace is that of the run, or for a run in error a beginning of it; if the application always pauses, an accepted stream is accepted if and only if it is spared, and otherwise ends at the header limit |
| LongHeader.LettersRead | src/http_parser.c:1354-1432 | a new parser of responses, given a status line and a header with a value of n letters, is in the value with all n + 15 bytes counted |
| LongHeader.LimitInTheWay | src/http_parser.c:60-109 | such a head, its value ended by a line feed one byte before the limit, is accepted by a new parser, but not spared |
| Feeding.SplitCall | src/http_parser.c:612-632 | when one call on a ++ b consumes everything, calls on a and then b do too, and end in the identical state with the same merged trace |
| Methods.MethodExactly | src/http_parser.c:657-977 | for a parser of requests and for one of both: a request method is accepted as m if and only if it is spelt m, but for a third letter that is not checked |
| Methods.Misspelt | src/http_parser.c:962-967 | GEX is taken for GET |
| Methods.NamesSpelt | src/http_parser.h:79-109 | the 26 methods are spelt as on the wire |
| Methods.OneMethod | src/http_parser.c:913-977 | no letters are taken for two methods |
| Methods.MethodGo | src/http_parser.c:913-977 | what was read always agrees with the current guess |
| Methods.AfterH | src/http_parser.c:677-693 | after H, the letter E makes a request of method HEAD whose third letter comes next, T a response, and anything else is refused |
| Methods.SpeltRuns | src/http_parser.c:873-977 | after k letters of a method the guess is the one its first k letters allow |
| Lengths.HexRun | src/http_parser.c:1692-1743 | a run of bytes that the table of digits has an entry for is accepted exactly if the value modulo 2^64 neither drops nor becomes ULLONG_MAX at any of them, and then leaves that value |
| Lengths.SizeRefused | src/http_parser.c:1692-1729 | a byte is refused as the first of a chunk size if and only if it is below 128 and no hexadecimal digit, and as a later one if it is also neither CR, semicolon nor space |
| Lengths.HexLetters | src/http_parser.c:180-189 | the letters a to f and A to F stand for 10 to 15 |
| Lengths.ChunkSizeExactly | src/http_parser.c:180-189 | exactly the bytes that are digits, or 128 and up, and keep the value climbing are read as a chunk size; what is read is made of hexadecimal digits if and only if it has no byte from 128 up |
| Lengths.DecRun | src/http_parser.c:1393-1470 | the same for Content-Length, spaces ignored |
| Lengths.LengthsExact | src/http_parser.c:1447-1743 | a length, hexadecimal as the table reads it or decimal, is refused if and only if the value modulo 2^64 of some of its first digits is below that of the digits before or is 2^64 - 1; it is stored as sent if and only if it is at most 2^64 - 2; what is accepted is right modulo 2^64 and never ULLONG_MAX |
| Lengths.WrapAccepted | src/http_parser.c:1731-1741 | the chunk size 1FFFFFFFFFFFFFFF0, 2^65 - 16, is accepted and stored as 2^64 - 16 |
| Headers.NameRun | src/http_parser.c:1174-1332 | the incremental matcher of names stands where whole-string comparison of what was read says |
| Headers.ValueRun | src/http_parser.c:1354-1516 | the same for values |
| Headers.PartRun | src/http_parser.c:1354-1539 | one line of a value, ended by CR LF or LF: what it does to the flags and the length, given what the name was recognised as |
| Headers.MorePart | src/http_parser.c:1541-1551 | a line that starts with a blank continues the value and is read like a first one |
| StatusLine.StatusExactly | src/http_parser.c:683-871 | an accepted line with a space in it is a status line, and the status is the number that stands after the version and the spaces |
| StatusLine.PlainStatus | src/http_parser.c:683-871 | HTTP/1.1 200 and LF take a new parser to its headers, with status 200 and one message begun |
| StartLines.ResVersionExactly | src/http_parser.c:695-796 | an accepted status line leaves the two numbers its text has before and after the dot |
| StartLines.ReqVersionExactly | src/http_parser.c:1052-1172 | the same for what follows the URL of an accepted request line |
| StartLines.EmptyLines | src/http_parser.c:647-911 | line ends before a message are accepted by every parser, dead ones included, and change nothing that outlives the message before; a parser of responses reports the beginning of a message for each, the others report nothing |
| StartLines.AnswerRuns | src/http_parser.c:695-871 | every well-formed status line, version numbers and status up to 999, any reason, is accepted, leaves its three numbers and reports its events |
| StartLines.QueryRuns | src/http_parser.c:873-1172 | every well-formed request line, any method, any URL that the automaton accepts to its end, with a version or without, is accepted, leaves method and version, 0.9 without one, and reports exactly the URL |
| LineGrammar.AnswerExactly | src/http_parser.c:683-871 | a status line, from its first letter to the line feed, is accepted if and only if it is HTTP/, two numbers with a dot, spaces, a number, anything after a space, and CR or nothing, the numbers at most 999 |
| LineGrammar.QueryExactly | src/http_parser.c:873-1172 | a request line leads to the headers if and only if it is the letters of a method, its third one unchecked, spaces, a URL that the automaton accepts and that may end there, and spaces and a version or nothing |
| HeadEnd.OnlyThere | src/http_parser.c:1541-1600 | on_headers_complete runs nowhere but on the line feed of an empty line outside a trailer |
| HeadEnd.HeadersEnd | src/http_parser.c:1553-1642 | that line feed reports the end of the headers and leaves the state in which section 4.4 of RFC 2616 has the body begin, or the message complete, given the fields before it and the answer of on_headers_complete |
| HeadEnd.LengthBegins | src/http_parser.c:1553-1627 | from the empty line of headers with a length to an identity body of that length |
| HeadEnd.ChunkedBegins | src/http_parser.c:1553-1620 | from the empty line of headers with the chunked coding to the first chunk |
| HeaderBlocks.HeaderRun | src/http_parser.c:1174-1551 | an accepted header, over one line or several, with or without a colon, each line ended by CR LF or LF, adds to the flags exactly what case-insensitive comparison of the whole name and the first line of the value says; a Content-Length leaves the number on its last line before a blank one, modulo 2^64 and never 2^64 - 1; nothing else that outlives the header changes |
| HeaderBlocks.BlockRun | src/http_parser.c:1174-1551 | an accepted block of headers leaves the flags and the length that its headers give, one after the other |
| HeaderSyntax.TokenTable | src/http_parser.c:138-177 | the table accepts exactly the tokens of section 2.2 of RFC 2616, any character but controls, the space and the separators, and lowers the letters A to Z |
| HeaderSyntax.NameExactly | src/http_parser.c:1174-1352 | a name is refused exactly at its first byte that is no token, colon or line end; what stood before it was reported, and nothing of the byte |
| HeaderSyntax.PlainHeader | src/http_parser.c:1174-1539 | within the limit, a name of tokens, a colon, a value without line ends, CR and LF are accepted if and only if the header is not Content-Length, the value is blank, or it is a length; exactly the name and the value without leading blanks are reported |
| HeaderSyntax.PartExactly | src/http_parser.c:1354-1539 | one line of a value is accepted if and only if it is not refused as a length, and what it reports |
| HeaderSyntax.HeaderExactly | src/http_parser.c:1174-1551 | the same for a header over one line or several, with or without a colon, its lines ended by CR LF or LF |
| HeaderSyntax.BlockExactly | src/http_parser.c:1174-1551 | a block of headers is accepted if and only if each of them is, and reports them in order |
| HeaderSyntax.OnlyLf | src/http_parser.c:1518-1808 | wherever a line, a chunk's size or data, or the empty line has come to its CR, nothing but LF is accepted, and after a chunk's data nothing but CR |
| HeaderBlocks.HeadersGiveLength | src/http_parser.c:1174-1627 | after an accepted block whose last Content-Length says N, up to the empty line, comes an identity body of N bytes |
| HeaderBlocks.HeadersGiveChunks | src/http_parser.c:1174-1620 | after one with Transfer-Encoding: chunked comes a chunk |
| HeaderBlocks.HeadersGiveStream | src/http_parser.c:1174-1640 | after one of a response with neither comes a body that lasts until the end of the stream |
| Framing.IdentityBodyConserved | src/http_parser.c:1644-1679 | before the N-th body byte: delivered plus remaining is N, the bytes are those received, the message is not complete |
| Framing.IdentityBodyCompletes | src/http_parser.c:1654-1690 | the N-th byte completes the message, once, after all N bytes were delivered |
| Framing.ReceiveIdentity | src/http_parser.c:572-1845 | for an actual parser, any pieces and any pauses: after at most N bytes of such a body exactly these were delivered, the remaining length is what is missing, and the message is complete, once, if nothing is |
| Framing.ChunkRun | src/http_parser.c:1692-1808 | a chunk, its size in hexadecimal digits with or without leading zeros, with or without an extension up to CR, delivers exactly its data and comes back to the start of a chunk |
| Framing.ChunkedRoundTrip | src/http_parser.c:1692-1808 | parsing a printed chunked body delivers exactly the payloads in order, then completes the message once |
| Framing.HighByteEnds | src/http_parser.c:180-189 | a chunked body also ends with a chunk whose size is the single byte 128 |
| Framing.ReceiveChunked | src/http_parser.c:572-1845 | the round trip for an actual parser, any pieces and any pauses |
| Messages.ReceiveSized | src/http_parser.c:572-1845 | an actual parser fed a head that announces N bytes and the beginning of the body, cut into any pieces anywhere and paused anywhere: the head is reported as in one run, then exactly the bytes of the body, and at the N-th that the message is complete; only a stream that is not spared, to an application that pauses, may end at the header limit |
| Messages.ReceiveChunks | src/http_parser.c:572-1845 | the same for a head that announces chunks and the printed body |
| Framing.DeadStays | src/http_parser.c:647-655 | after a message that closed the connection no callback ever runs, and only line ends are tolerated |
| NextMessage.AllGains | src/http_parser.c:1406-1539 | a block of headers leaves close exactly if a Connection or Proxy-Connection header says close, and likewise keep-alive, chunked by Transfer-Encoding and upgrade by a header Upgrade that is not blank |
| NextMessage.AfterHeaders | src/http_parser.c:383-394 | after any message that bytes complete, whose trailer has no connection header: the next state is the start of a request or of a response, as the parser is of requests or responses, exactly if both numbers of the version are above 0 and no header says close, or one is 0 and a header says keep-alive; otherwise the connection is over |
| NextMessage.AfterResponse | src/http_parser.c:1848-1888 | the same from the first byte of a response, empty lines before it or not, with the version its status line says |
| NextMessage.AfterRequest | src/http_parser.c:1848-1888 | the same from the first byte of a request, with the version its request line says, 0.9 without one |
| Exchanges.HeadChanges | src/http_parser.c:1553-1609 | the parser leaves for another protocol exactly if a header is Upgrade or the method is CONNECT, after the headers and with the message complete |
| Exchanges.MessageRuns | src/http_parser.c:572-1888 | every well-formed message whose body has a known extent, none, a length, or chunks with a trailer, is accepted, reported event by event and completed once, and leaves the next state its version and connection headers say |
| Exchanges.ExchangeRuns | src/http_parser.c:572-1888 | so is every sequence of them on one connection, each but the last of which persists |
| Exchanges.Exchange | src/http_parser.c:572-1888 | by a new parser; the bodies reported are those sent, one for each message |
| Exchanges.BodiesMerge | src/http_parser.h:61-75 | the bodies in a trace do not depend on how their bytes were delivered |
| Exchanges.ReceiveExchange | src/http_parser.c:572-1845 | an actual parser fed such a sequence in any pieces, cut anywhere and paused anywhere, reports all its messages in order, and their bodies; only a stream that is not spared, to an application that pauses, may end at the header limit |
| Exchanges.TwoInTurn | src/http_parser.c:383-394 | HTTP/1.1 200 OK with Content-Length: 0, twice, is such a sequence |
| Exchanges.UrlsWhole | src/http_parser.c:979-1050 | a request line may have any URL that is written from parts |
| KeepAlive.PhaseNeedsEof | src/http_parser.c:1849-1869 | whether the end of the stream is needed does not change between headers and end of message |
| KeepAlive.KeepAliveDecides | src/http_parser.c:1553-1888 | from the byte on which on_headers_complete runs: the answer of `http_should_keep_alive` when the message is complete decides the state that follows, which is that of NEW_MESSAGE (`NextMessage.AfterHeaders` says which, from the bytes); unless a trailer changed the connection flags it is the answer the fields give once the reply of on_headers_complete counts, and the answer inside on_headers_complete is the same if and only if that reply did not take the body from a message that needs the end of the stream on a connection that persists |
| KeepAlive.AnswersDiffer | src/http_parser.c:1872-1888 | a new parser given HTTP/1.1 200, LF, CR and LF, a response declared to have no body: no in on_headers_complete, yes at the end |
| ParseUrl.NextState | src/http_parser.c:424-570 | fields come in the order schema, host, path, query, fragment, and what separates them are delimiters |
| ParseUrl.LayoutTake | src/http_parser.c:2115-2127 | growing or opening a field keeps the fields in bounds, disjoint, in order, and everything else delimiters |
| ParseUrl.ExactTake | src/http_parser.c:2069-2128 | every byte stays in the field of the state it led to |
| ParseUrl.HostStep | src/http_parser.c:1921-1984 | userinfo, host and port of the host part: in order, disjoint, everything else delimiters, port all digits |
| ParseUrl.HostExactStep | src/http_parser.c:1998-2040 | every byte of the host part is in the part of the state it led to |
| ParseUrl.HostPlaced | src/http_parser.c:1986-2056 | putting the host part back among the fields keeps all of that |
| ParseUrl.PlacedAfter | src/http_parser.c:1986-2056 | and every byte is in the one field it belongs to |
| ParseUrl.StrToUlReads | src/http_parser.c:2143-2152 | `strtoul` reads the decimal value of the port's digits |
| ParseUrl.ParsedUrl.ScanChars | src/http_parser.c:2069-2128 | the character loop fails exactly when a character leaves the URL states, and cuts exactly where the states say |
| ParseUrl.ParsedUrl.ParseHost | src/http_parser.c:1986-2056 | the host loop fails exactly when the host automaton dies or ends unfinished |
| ParseUrl.ParsedUrl.ParseUrl | src/http_parser.c:2059-2156 | for every URL and whatever the structure held: success if and only if both automata accept, the second on the span that 16 bits or a missing host leave for the host part, a CONNECT target is host:port, and the port is at most 65535; exactly the fields that occur are set; on every success a schema is letters, followed by "://", a path starts with / or is the URL's leading asterisk and holds neither ? nor #, a query follows ? and holds no #, and a fragment follows #; if the host ends within 65535 bytes, or the host entry was empty where the URL has none, the fields partition the URL, every byte where it belongs, the host part stands after "://" or at the start and is user information, @, host in brackets or not, colon and port, and all are stored in 16 bits; the port is the value of its digits |
| ParseUrl.StraightPasses | src/http_parser.c:2128-2135 | then the second automaton accepts exactly if the host part of the URL is one |
| ParseUrl.CutDelimited | src/http_parser.c:424-570 | on buffer and fields alone: the byte before a query is ?, that before a fragment #, path and query hold no #, a path no ?, and after a schema comes "://" |
| ParseUrl.HostFormed | src/http_parser.c:1921-2056 | an accepted host part is user information and @, if any, a host, in brackets or not, and a colon and port, if any, and the fields are these |
| ParseUrl.HostCuts | src/http_parser.c:1986-2056 | it stands after "://", or starts the URL, and ends with the URL or before / or ? |
| UrlForms.Classes | src/http_parser.c:195-230 | the bytes of each part are those of sets written out here; strict mode takes no byte from 128 up |
| UrlForms.ParsePrinted | src/http_parser.c:2059-2156 | every well-formed URL, a path or asterisk, an absolute URL, or host and port for CONNECT, written from its parts, is accepted, whatever the structure held: exactly the fields of its parts are set, each where the part is, and the port is its number |
| UrlGrammar.Parts | src/http_parser.c:424-570 | every URL that both automata accept can be written from parts whose bytes are of their sets |
| UrlGrammar.ParseExactly | src/http_parser.c:2059-2156 | where the host ends within 65535 bytes and is not left over from another use, success if and only if the URL is well-formed, or empty and not that of CONNECT |
| ParseUrl.SchemaAlone | src/http_parser.c:2129-2135 | a URL of letters, all schema, is accepted when the entry for the host spanned them before |
| ParseUrl.HostTooFar | src/http_parser.c:2115-2127 | a URL whose host begins at byte 65539 is accepted, although its host is a single bracket |
| UrlAgreement.UrlRun | src/http_parser.c:979-1050 | the streaming parser visits the states of the whole-buffer loop and reports every byte of the URL |
| UrlAgreement.StatesAgree | src/http_parser.c:979-1050 | for every request line whose URL is accepted, the url events deliver exactly the URL, and the character loop accepts it through the same states |
| UrlAgreement.UrlEnds | src/http_parser.c:979-1050 | a space or line end is refused exactly in or after a schema before the host part begins |
| Frames.FrameReads | src/rsva11001.c:68-77 | a frame reads back as what it was made of |
| Frames.FrameBytes | src/rsva11001.c:68-77 | a frame is JPGS, four bytes of length with the highest first, the payload and JPGE |
| Frames.TakeOutcome | src/rsva11001.c:101-178 | what fits one buffer: fewer than 8 bytes wait, other first bytes than JPGS break, fewer than the length and 12 wait, then JPGE makes an image of them, what is left begins the next frame, and anything else breaks |
| Frames.TakeFrame | src/rsva11001.c:101-178 | one piece of a stream of frames: it fits, and completes the frame when its last byte is there |
| Frames.CompleteInside | src/rsva11001.c:136-160 | where the source stays in its buffers, a frame it takes to be complete ends in the bytes received, at the length its header gives |
| Frames.Reassembly | src/rsva11001.c:101-178 | a stream of frames cut into any pieces, none longer than a frame: what is being received is the unfinished end, and the latest image is the last frame completed |
| Frames.BrokenStays | src/rsva11001.c:139-142 | after a wrong magic value no later piece changes anything |
| Receiver.Connection.constructor | src/rsva11001.c:249-285 | a new connection shows no image |
| Receiver.Connection.Open | src/rsva11001.c:453-477 | opening again starts afresh: no image, nothing received, a new parser |
| Receiver.Connection.SwapBuffers | src/rsva11001.c:83-98 | `ping` and the active buffer change together |
| Receiver.Connection.StartNext | src/rsva11001.c:157-173 | the completed frame stays in the buffer now inactive, the bytes after it begin the next one |
| Receiver.Connection.Recv | src/rsva11001.c:101-178 | the body callback does to the two buffers what reassembly says, stays inside them, and fails exactly on a wrong magic value, in header or footer |
| Receiver.Connection.Examine | src/rsva11001.c:130-177 | the checks of header and footer, and when a frame is complete |
| Receiver.Connection.GetLatestImage | src/rsva11001.c:191-242 | the payload of the last image; size 0 when there is none, failure when it does not fit |
| Receiver.Heeded | src/http_parser.c:84-101 | the callback that meets a wrong magic value is the last one, and HPE_CB_body is the parser's error |
| Receiver.Connection.Deliver | src/rsva11001.c:101-178 | the buffers follow the body callbacks of the trace |
| Receiver.Connection.Receive | src/rsva11001.c:613-652 | one recv: parser and buffers stay consistent; a parser in error changes neither the trace nor the image, ever |
| EndToEnd.StreamRun | src/http_parser.c:1681-1685 | after a head that makes everything body, exactly the bytes after the head are delivered |
| EndToEnd.Reassembled | src/rsva11001.c:101-178 | whatever the callbacks have seen so far reassembles to whole frames and the start of one |
| EndToEnd.ReceiveOne | src/rsva11001.c:613-652 | one more piece is accepted without an error |
| EndToEnd.LatestImage | src/rsva11001.c:101-242 | from received bytes to the image: for any such head, any frames and any pieces none longer than a frame, what is handed out is the payload of the last frame completed, or nothing if there is none |
| EndToEnd.PlainHeadStreams | src/http_parser.c:1601-1640 | every accepted response, empty lines before it or not, whose status line says a status other than 1xx, 204 and 304 and whose headers give no length, no chunked coding and no upgrade is such a head |
| EndToEnd.SomeHeadStreams | src/http_parser.c:1601-1640 | there is such a head |
| Accounts.KeptOpen | src/main.c:211-241 | opening takes the cameras in turn |
| Accounts.KeptStore | src/main.c:358-389 | a new image goes to everyone queued on its slot, once each, in order of arrival, and nobody else |
| Accounts.KeptHandle | src/main.c:448-586 | a request is answered once or queued once, with the last image of the slot named in the note; that it is the slot asked for is stated by `Outcomes.RequestOutcome` |
| Outcomes.RequestOutcome | src/main.c:448-586 | from the parts of a request alone: the one note that answers it, as stated for `Reactor.Globals.HandleNewRequest`, what joins which queue, and that it meets a full queue exactly if 64 wait there |
| Outcomes.CameraOutcome | src/main.c:625-680 | what an event on the camera connection leaves, part by part, from the event alone |
| Outcomes.ServerOutcome | src/main.c:688-715 | requests are looked at in order, all of them or up to one whose image cannot be sent |
| Outcomes.NeverStopped | src/main.c:588-738 | cameras that hang up, send nonsense or nothing, and images that cannot be written, never stop the server, as long as the system calls succeed and nobody asks it to stop |
| Outcomes.EventStops | src/main.c:625-732 | which single events stop it |
| Outcomes.WaitsOutcome | src/main.c:603-734 | the waits of a turn end with the first that failed, was interrupted, brought fewer than four events or left no active camera; up to there exactly their events count, in order |
| Outcomes.TurnOpens | src/main.c:588-600 | a turn opens the next camera exactly if it begins without an active one |
| Outcomes.OpeningOutcome | src/main.c:588-600 | a camera that cannot be opened stops the server at once |
| Accounts.LoopingProcess | src/main.c:406-445 | an image of the active camera goes to the slot of its channel, after its connection was closed |
| Accounts.LoopingCamera | src/main.c:632-680 | after an event on the camera connection the active camera, if there is one, is connected |
| Accounts.OneConnection | src/main.c:588-738 | in every run at most one connection is open, the active camera's, and no assertion fails; only a queue of 64 can be overrun |
| Accounts.BetweenEvents | src/main.c:606-732 | the same between any two events of a turn |
| Queues.NoneOverrun | src/main.c:48-52 | if no more than 64 requests of a run ask to wait for any slot, no queue is overrun, so that nothing fails at all |
| Queues.SixtyFiveOverrun | src/main.c:448-586 | 65 requests that wait for one slot overrun its queue |
| Accounts.Rotation | src/main.c:211-241 | in every run any n openings in a row visit each of the n cameras once |
| Accounts.SlotsByChannel | src/main.c:358-389 | in every run slot s holds the last image stored there, and only of the camera whose channel is s modulo n |
| Accounts.RequestsConserved | src/main.c:358-586 | in every run each connection handed in was answered once or waits in one queue; queues are first come, first served; who waits has waited since the slot's last image; every image sent was the slot's latest |
| Reactor.Globals.constructor | src/main.c:127-153 | camera i is configured for channel i + 1 |
| Reactor.Globals.OpenNextCameraConnection | src/main.c:211-241 | the method does what the model says |
| Reactor.Globals.Close | src/rsva11001.c:668-685 | closing twice is harmless; a failure keeps the socket |
| Reactor.Globals.WriteImageFile | src/main.c:292-399 | the loop over the queue replies to all of it, in order, and empties it |
| Reactor.Globals.ProcessActiveCamera | src/main.c:401-446 | the three results, and what each leaves behind |
| Reactor.Globals.HandleNewRequest | src/main.c:448-586 | two notes are logged, that the connection asked and the reply; the reply is queued exactly for a GET of the camera path with a query, an empty source or one that is a camera's number, and wait; sent exactly for such a request without wait when that camera's slot has an image; refused exactly otherwise; it is about slot k when the source is k, and slot 0 when it is empty; the call fails exactly when an image could not be sent |
| Reactor.Globals.OnCameraEvent | src/main.c:625-680 | the active camera is given up exactly when it hung up, made trouble or delivered an image, and can be closed; the reactor shuts down exactly when it cannot; a stored image goes to the camera's slot and to everyone waiting there |
| Reactor.Globals.OnServerEvent | src/main.c:688-715 | new connections are handled until one fails |
| Reactor.Globals.React | src/main.c:588-738 | the nested loops do what the model of a run says, so that all its invariants hold of the globals |
| Base64.Utf8RoundTrip | reverseEngineering/ha8xxb_v2.2_1130/cramfs/www/tools.js:77-133 | UTF-8 decoding undoes encoding for every sequence of code units |
| Base64.Utf8Exactly | reverseEngineering/ha8xxb_v2.2_1130/cramfs/www/tools.js:77-102 | the encoding is exactly the bytes that stand for the units by arithmetic on digits of 64, as section 3 of RFC 3629 has it |
| Base64.UnitValue | reverseEngineering/ha8xxb_v2.2_1130/cramfs/www/tools.js:104-133 | what any bytes are decoded to, well-formed or not, by the same arithmetic, missing bytes counting as 0 |
| Base64.NewlinesAlone | reverseEngineering/ha8xxb_v2.2_1130/cramfs/www/tools.js:78-78 | text without CR LF is encoded as it is |
| Base64.NewlinesAt | reverseEngineering/ha8xxb_v2.2_1130/cramfs/www/tools.js:78-78 | the first CR LF becomes LF, and so on in what follows |
| Base64.GroupDigits | reverseEngineering/ha8xxb_v2.2_1130/cramfs/www/tools.js:21-31 | a group is the four 6-bit digits of its 24-bit number, with the padding of section 4 of RFC 4648 |
| Base64.Alphabet | reverseEngineering/ha8xxb_v2.2_1130/cramfs/www/tools.js:4-4 | the 64 digits and the padding are those of section 4 of RFC 4648 |
| Base64.ArmourGroup | reverseEngineering/ha8xxb_v2.2_1130/cramfs/www/tools.js:16-35 | the k-th four characters are the group of the k-th three bytes |
| Base64.UngroupBytes | reverseEngineering/ha8xxb_v2.2_1130/cramfs/www/tools.js:52-67 | four digits give the three bytes of their 24-bit number |
| Base64.UngroupPadded | reverseEngineering/ha8xxb_v2.2_1130/cramfs/www/tools.js:60-66 | with padding in place of the last digit or the last two, the first two bytes or the first |
| Base64.UnarmourCut | reverseEngineering/ha8xxb_v2.2_1130/cramfs/www/tools.js:48-67 | a text that stops inside a group is decoded as if the letter A followed |
| Base64.ArmourShape | reverseEngineering/ha8xxb_v2.2_1130/cramfs/www/tools.js:7-37 | the output is in whole groups of the alphabet |
| Base64.ArmourPadding | reverseEngineering/ha8xxb_v2.2_1130/cramfs/www/tools.js:26-30 | padding stands only at the end, as many characters as bytes are missing |
| Base64.ArmourRoundTrip | reverseEngineering/ha8xxb_v2.2_1130/cramfs/www/tools.js:7-75 | Base64 decoding undoes encoding for every sequence of bytes |
| Base64.RoundTrip | reverseEngineering/ha8xxb_v2.2_1130/cramfs/www/tools.js:7-133 | decode(encode(s)) is s with each CR LF replaced by LF |
| Base64.EncodeExactly | reverseEngineering/ha8xxb_v2.2_1130/cramfs/www/tools.js:7-37 | the encoding of a text is the Base64 form of exactly the bytes that stand for it |
| Base64.Codec.Utf8Encode | reverseEngineering/ha8xxb_v2.2_1130/cramfs/www/tools.js:77-102 | the result is the bytes that stand for the text, its newlines replaced, unit by unit: one byte below 128, two below 2048 with 192 + the upper and 128 + the lower digit of 64, three otherwise with 224 +, 128 + and 128 + |
| Base64.Codec.Utf8Decode | reverseEngineering/ha8xxb_v2.2_1130/cramfs/www/tools.js:104-133 | the loop computes the code units, also past the end |
| Base64.Codec.EncodeText | reverseEngineering/ha8xxb_v2.2_1130/cramfs/www/tools.js:7-37 | the loop computes `Encode`, of which `Base64.EncodeExactly`, `Base64.ArmourGroup` and `Base64.GroupDigits` say what it is by arithmetic |
| Base64.Codec.DecodeText | reverseEngineering/ha8xxb_v2.2_1130/cramfs/www/tools.js:40-75 | the loop computes the decoding, of any text |

## Left out

- Execution.HttpParser.Execute: the refinement is stated for applications whose n-th answer to on_headers_complete, no body or body as announced, is fixed in advance; `skip` gives it.
- Feeding.Feed: for an application that pauses in some callbacks only, a stream that is not spared may end at the header limit or not; which, is not said.
- Methods.MethodExactly: line ends before the method, which the parser skips, are not part of the statement.
- ParseUrl.ParsedUrl.ParseUrl: where the host lies beyond 16 bits or an old entry stands in for it, what is stored of the fields is not said, only which are set; a schema without a host is excluded when the old entry for the host reaches beyond the URL, because the code then reads outside it.
- HeaderBlocks.BlockRun: a block is written as a list of headers with their lines; that every accepted block can be written so is not shown. `HeaderSyntax.BlockExactly` says which blocks so written are accepted.
- Exchanges.ReceiveExchange: only the last message may close the connection; one that lasts until the end of the stream is not among them (see `EndToEnd.LatestImage`), nor is one after which another protocol follows (see `Exchanges.HeadChanges`).
- UrlForms.ParsePrinted: for URLs whose host part ends within 65535 bytes; the others are in the contract of `ParseUrl.ParsedUrl.ParseUrl`. The same holds of `UrlGrammar.ParseExactly`.
- Receiver.Connection.Recv: what `CanTake` excludes is exactly where the code fails an assertion, looks for the footer outside its buffer, or copies bytes that are not of the piece or do not fit.
- Receiver.Connection.Deliver: the body callbacks are replayed from the trace after the call to the parser instead of during it; what they answer to the parser is the same (`Receiver.BodyReply`).
- Receiver.Connection.constructor: the receive buffers are allocated here and not at the first opening.
- Reactor.Globals.HandleNewRequest: queueing a 65th connection on a slot, which the code does not check, is excluded; `Accounts.OneConnection` says that nothing else can go wrong, and `Queues.NoneOverrun` when this cannot.
- Non-strict mode (`HTTP_PARSER_STRICT=0`), the error-string tables and `http_method_str`: configuration and look-up.
- Sockets, poll, epoll, signalfd, mmap, files, name resolution, the environment and the wall clock: their outcomes are inputs of the model.
- Sending the request (`rsva11001_connection_process`, first half): a loop over `send` that only repeats what was not written yet.
- The sandgrouse SCGI library is not part of this model; a reply is one entry in the log, a query parameter is what the library and `strtoul` make of it.
- The 404 for an image whose size has 16 digits or more: images are at most 30000 bytes.
- `src/log.h`, `src/request.c`, `utils/`, and the DVR's other web pages: logging, unfinished stubs, scripts and user interface.
