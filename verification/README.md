# A Dafny model of libuinet's event, receive and HTTP cores

libuinet runs the FreeBSD TCP/IP stack in user space.  Five parts of its tree keep state across calls, and
have guarantees that hold for every input, every run or every interleaving.  This project models those parts
and proves these guarantees.

**HTTP/1.x push parser** (`lib/libhttp_parser/http_parser.c`, strict mode).  `HttpTypes` has the parser
fields, `HttpMachine` one execution of the big switch for one byte, `HttpRun` the parser as a machine that
takes a stream byte by byte.  `HttpParser` is the parser as it is written: a class whose `Execute` goes over a
buffer with marks, bulk skipping of body bytes, bytes that are executed again, and callbacks that may pause
it.  It is proved against the byte machine.  On the machine, `HttpInvariant` shows that no internal assertion
fails, `HttpTrace` that callbacks come in order, `HttpSession` what cutting and pausing can do and cannot, with
an example in `HttpLimit`.  `HttpBody` and `HttpTrailer` show that bodies and header fields are delivered
exactly and lengths are read exactly, `HttpRecognisers` that methods and header names are recognised exactly,
`HttpStartLine` that request lines and status lines are read exactly, `HttpNumbers` that numbers and words mean
what is written, `HttpRefusals` what is refused.  `HttpMessage` puts this together: from the text of a message
follow its callbacks, where it ends, and whether another may follow.  `HttpUrl` is the URL splitter with its two
passes; `HttpUrlText` shows that URLs are cut where they were put together, and `HttpUrlExact` that no others are
accepted.

**libev's scheduler core** (`lib/libev/ev.c`, `lib/libev/ev_poll.c`; 4-heap with cached times, five
priorities).  `EvHeap` is the timer heap, `EvPending` and `EvDispatch` say what the stacks of pending events
mean as lists and what a run of the callbacks delivers, `EvLoop` is the loop with its timers and stacks.
`EvPoll` is the poll backend and `EvFd` the I/O watchers with their change list.

**Wakeup from other threads** (`lib/libev/ev.c`).  `EvWakeup` is `ev_async_send` against the wait section of
`ev_run`, as steps of any number of senders and the loop that interleave in any order; a step is one access
to a shared variable.  `EvUinet` is the same for the upcalls from the stack's sockets, their pending list and
its drain; `EvUinetInvariant` proves the invariant step by step, `EvUinetRuns` says what follows for every
run.  `EvEndToEnd` puts the two together: the loop does not sleep while a socket it watches is ready.  `EvRest`,
`EvProgress` and `EvSettles` show that nothing gets stuck: from every state of the one, the other and both
together, what is under way gets through, all that is ready is delivered, and the loop comes to rest.

**netmap zero-copy receive** (`lib/libuinet/uinet_if_netmap.c`).  `NetmapCirc` is about stretches of circular
arrays, `NetmapPool` is the pool of buffer contexts, with frees from other threads in between, `NetmapRing`
the receive ring with its reserved slots.

**Passive extraction** (`bin/passive/passive.c`).  `Passive` has the two directions of a connection, each with
its parser and its buffer, which hand control to each other by pausing.

Conventions.  A byte is a `char`.  Times are reals.  Counters are unbounded; where the width matters the
limit is written out.  What the environment decides is a parameter: the bytes read, what callbacks do (a
script, or a function of the callbacks so far), what other threads do meanwhile, how many packets the kernel
reports, which descriptors a backend gives up.

Where something does not hold, the exact condition is proved.  Pause invariance of the HTTP parser fails at the
header size limit, because a byte that is seen again after a pause is counted again: `HttpLimit` has an input
on which it does, `HttpSession.SessionTracks` says by how much the counter is ahead, and
`HttpSession.LimitExact` when that makes a difference.  And the fourth comparison of the slow path of
`downheap` (`lib/libev/ev.c:1984`) is never made, because with four children the fast path is taken;
`EvHeap.FindMinChild` asserts this.  `http_should_keep_alive` goes by "both version numbers are above 0" where
its comment says HTTP/1.1, so version 2.0 counts as 1.0 does; `HttpMessage.IsLast` follows the code.

## Model

| member | source | states |
|---|---|---|
| HttpRun.RunSplit | lib/libhttp_parser/http_parser.c:617-1912 | running over a and then over b is running over a + b: same fields, same header counter, same callbacks, same total consumed |
| HttpRun.RunNread | lib/libhttp_parser/http_parser.c:640-661 | of two parsers that differ in the header counter only, the one with the higher count meets the header size limit and the other does not, if and only if the other stays within it and the higher count plus the header bytes up to where the counter is first cleared is above it; unless it meets the limit, all else is the same, and the counts differ as before or, once cleared, not at all |
| HttpRun.OverflowIsHigh | lib/libhttp_parser/http_parser.c:640-661 | a run meets the limit if and only if the highest count of header bytes between two clearings, counted without a limit, is above it |
| HttpRun.HighestFrom | lib/libhttp_parser/http_parser.c:640-661 | a higher count at the start is felt up to the first clearing of the counter, and no further |
| HttpRun.WithinBite | lib/libhttp_parser/http_parser.c:662-663 | from any point in the middle of a byte, what is left of the byte is the same; the rank is lower there, and the byte counts as a header byte if and only if it did at its start |
| HttpRun.AgainRank | lib/libhttp_parser/http_parser.c:662-663 | executing a byte again always gets to a state of lower rank, so a byte is done with after finitely many rounds |
| HttpRun.BulkSkip | lib/libhttp_parser/http_parser.c:1717-1752 | skipping body bytes at once is the same as taking them one by one |
| HttpRun.BulkEof | lib/libhttp_parser/http_parser.c:1754-1758 | a body without length takes all bytes of a buffer as one by one |
| HttpInvariant.StepSane | lib/libhttp_parser/http_parser.c:662-1887 | every execution of the switch that is not an error keeps the relations between state, header state, index and content length |
| HttpInvariant.StepInv | lib/libhttp_parser/http_parser.c:662-1887 | it also keeps the width of the numeric fields, the header counter being 1 at the start of a chunk, and the callback trace's fit to the state |
| HttpInvariant.SaneAsserts | lib/libhttp_parser/http_parser.c:1719-1723 | in such a state no assertion of the switch fails |
| HttpInvariant.RunInv | lib/libhttp_parser/http_parser.c:579-1912 | on no input does an internal assertion fail, from any parser that satisfies the invariant |
| HttpInvariant.InitInv | lib/libhttp_parser/http_parser.c:1974-1983 | a fresh parser satisfies the invariant |
| HttpParser.HttpParser.constructor | lib/libhttp_parser/http_parser.c:1974-1983 | a fresh parser is valid, in its start state, not in error |
| HttpParser.HttpParser.Pause | lib/libhttp_parser/http_parser.c:2234-2246 | pausing changes the error number between OK and paused only |
| HttpParser.HttpParser.Callback | lib/libhttp_parser/http_parser.c:60-76 | a notification is recorded, and the parser is paused exactly if the application pauses it there |
| HttpParser.HttpParser.CallbackData | lib/libhttp_parser/http_parser.c:85-109 | an open run of data is reported from its mark up to here, and its mark is cleared |
| HttpParser.HttpParser.ExecuteEof | lib/libhttp_parser/http_parser.c:595-614 | the end of the stream completes a message without a length, is fine between messages, and is an error inside one |
| HttpParser.HttpParser.Switch | lib/libhttp_parser/http_parser.c:662-1887 | the imperative switch with its marks does what the byte machine does, whatever it has still to report |
| HttpParser.HttpParser.SkipBody | lib/libhttp_parser/http_parser.c:1717-1752 | so does bulk skipping, in one run over the bytes that are there |
| HttpParser.HttpParser.Leftover | lib/libhttp_parser/http_parser.c:1890-1912 | at the end of a buffer at most one mark is left, and its data is reported |
| HttpParser.HttpParser.Execute | lib/libhttp_parser/http_parser.c:577-1922 | a call that is OK is a run of the byte machine over the buffer, in fields, counter, trace and bytes consumed; if it is paused, the parser is where that run comes by when as many bytes are consumed, between two bytes or in the middle of one; if it fails, it does so where the run fails, and all is reported but at most one last piece of the buffer; at most the last callback pauses; a parser in error does nothing; an OK call, or one paused at the end of a message, consumes a byte, and the latter stands between two bytes |
| HttpParser.RoundInRun | lib/libhttp_parser/http_parser.c:638-1888 | a round of the loop, be it one execution of the switch or a bulk skip, takes the run from the start of the buffer to just where the machine gets |
| HttpParser.SkipAdvances | lib/libhttp_parser/http_parser.c:1717-1752 | a bulk skip, also one that ends the body and leaves its last byte to be executed again, is such a round |
| HttpParser.EndConsumes | lib/libhttp_parser/http_parser.c:1760-1763 | the end of a message is reported only with a byte that is consumed |
| HttpSession.CallTracks | lib/libhttp_parser/http_parser.c:577-1922 | one call more, cut or paused anywhere: the parser is still where the one run from the start comes by; its counter stays ahead, by one more if the call went on from the middle of a header byte, until it is cleared |
| HttpSession.SessionTracks | lib/libhttp_parser/test.c:3100-3303 | at each point of a session, the fields and the merged trace are those of one run from the start, and the header counter is that of the run plus the number of times the parser went on from a pause in front of a header byte since the counter was last cleared |
| HttpSession.HeldIsNotBetween | lib/libhttp_parser/http_parser.c:1612-1671 | being paused in front of a byte that was begun is not the same as standing between two bytes |
| HttpSession.SessionIsOneRun | lib/libhttp_parser/test.c:3100-3303 | however a stream is cut into buffers and wherever callbacks pause, the final fields and the merged callback trace are those of one unpaused call on all of it, and it is known how much the header counter is ahead |
| HttpSession.SessionFailsLikeOneRun | lib/libhttp_parser/test.c:3100-3303 | a session that fails, other than by the header size limit, fails at the byte and with the error of the one call, with all reported but at most one last piece |
| HttpSession.LimitExact | lib/libhttp_parser/http_parser.c:640-661 | a session meets the header size limit with its next call where one unpaused run does not, if and only if that run stays within the limit, but the header bytes it has counted, those the call counts before the counter is next cleared, and the pauses in front of header bytes since it was last cleared are together above it |
| HttpLimit.PausingCountsTwice | lib/libhttp_parser/http_parser.c:640-661 | from a fresh parser, a request with a header of the full size that ends in a line feed: one call on it is fine; but in a session in which the application pauses when it is given the header value, the call that goes on with the line feed overflows |
| HttpSession.Drive | lib/libhttp_parser/test.c:3255-3303 | a caller that cuts a stream into pieces of any size, and goes on with the rest whenever a callback has paused the parser, makes a session, to which all of the above applies: the points of the session are those of the parser, up to an error or a change of protocol; if it gets through the stream, the parser and its trace are those of one call on all of it; and its callbacks are in order |
| HttpSession.WholeSplit | lib/libhttp_parser/http_parser.c:1679-1685 | a caller that goes on behind a change of protocol gets the same however the stream is cut |
| HttpTrace.StepFits | lib/libhttp_parser/http_parser.c:662-1887 | every execution of the switch keeps the callback trace in the phase that goes with the state: between messages, in headers, in a body or in a trailer |
| HttpTrace.RunFits | lib/libhttp_parser/http_parser.c:617-1912 | so does every run, also one that fails |
| HttpTrace.FreshInOrder | lib/libhttp_parser/http_parser.c:1974-1983 | from a fresh parser of any kind, on any input, the callbacks come in order |
| HttpTrace.CallInOrder | lib/libhttp_parser/http_parser.c:577-1922 | so does every call, cut or paused anywhere |
| HttpTrace.WholeMessage | lib/libhttp_parser/http_parser.h:231-240 | in a trace in order, each message_complete ends a message that began with message_begin and has exactly one headers_complete; only header data comes before that, and behind it first only body data and then only trailer fields |
| HttpTrace.BodyInMessage | lib/libhttp_parser/http_parser.h:231-240 | in a trace in order, body data comes behind the headers_complete of a message, with only body data in between |
| HttpTrace.BeginsApart | lib/libhttp_parser/http_parser.h:231-240 | in a trace in order, a message begins first, behind the end of another, or once more right behind its own begin |
| HttpTrace.BegunAgain | lib/libhttp_parser/http_parser.c:712-733 | the latter happens once for each line end in front of a response, and each time message_begin is reported |
| HttpBody.ChunkSizeExact | lib/libhttp_parser/http_parser.c:1765-1816 | a chunk size line gives exactly the hexadecimal value of its digits, or an error if that is too large; it never wraps and never equals ULLONG_MAX |
| HttpBody.ContentLengthExact | lib/libhttp_parser/http_parser.c:1446-1523 | a content length is accepted if and only if it starts with a digit, has only digits and spaces and is not too large, and then it is exactly the decimal value of its digits; any other value is an error |
| HttpBody.HexExact | lib/libhttp_parser/http_parser.c:1781-1816 | the digits read so far and those to come make up the value of them all |
| HttpBody.DecExact | lib/libhttp_parser/http_parser.c:1486-1510 | the same for decimal digits, with spaces in between |
| HttpBody.HeadersEndByte | lib/libhttp_parser/http_parser.c:1626-1715 | with the line feed that ends the headers, chunks follow if and only if there is no upgrade, the application does not skip the body and the message is chunked; a body of known length, if and only if it is moreover not chunked and the length is given and not 0; a body until end of file, if and only if there is neither and the message needs one; otherwise the message is complete, and left if there is an upgrade; HttpMessage.FromHeader says the same of the text |
| HttpBody.IdentityBody | lib/libhttp_parser/http_parser.c:1674-1763 | with content length N > 0, exactly the next N bytes are delivered, then one message_complete, and nothing more is consumed |
| HttpBody.Chunks | lib/libhttp_parser/http_parser.c:1765-1887 | any list of non-empty chunks, with extensions, is delivered as the concatenation of their data |
| HttpTrailer.Trailer | lib/libhttp_parser/http_parser.c:1227-1624 | any header fields behind the last chunk, with line ends of either kind, with empty values or not, and with values that go on on further lines, are reported as they were sent and have the effect on flags and length that their names and values ask for, and the empty line completes the message; a content length that cannot be read is an error |
| HttpTrailer.OneField | lib/libhttp_parser/http_parser.c:1227-1624 | the same for one field, from the start of its line to the start of the next |
| HttpTrailer.FoldLines | lib/libhttp_parser/http_parser.c:1579-1603 | further lines of a value are added to it as they are, and whatever word was recognised on its first line is forgotten |
| HttpTrailer.FoldStarts | lib/libhttp_parser/http_parser.c:1422-1471 | the same for the first byte of such a line; a content length that goes on on a further line is an error |
| HttpTrailer.SkipSpace | lib/libhttp_parser/http_parser.c:1407-1420 | white space in front of a value is skipped, also across line ends |
| HttpTrailer.BareName | lib/libhttp_parser/http_parser.c:1391-1401 | a name without a colon is reported and has no effect |
| HttpTrailer.ChunkedBody | lib/libhttp_parser/http_parser.c:1626-1887 | a chunked message body delivers exactly the concatenation of its chunks, then the fields of its trailer, whatever they are, then one message_complete, and consumes exactly the encoding; but a trailer with a content length that cannot be read is an error |
| HttpRecognisers.MethodAccepted | lib/libhttp_parser/http_parser.c:908-1030 | every method of the table is followed from its first byte, with the detours of the switch, to itself |
| HttpRecognisers.MethodExact | lib/libhttp_parser/http_parser.c:666-1030 | apart from leading line ends, the bytes in front of the first space are accepted exactly if they are in the method table, and then that method is stored; so it is also in the start state of a parser for both requests and responses, where HEAD is entered in its middle, except that what starts with "HT" makes it a response parser, and no method |
| HttpRecognisers.WordBehindH | lib/libhttp_parser/http_parser.c:695-709 | behind an H, an E leads into the method HEAD, a T into a status line, and anything else is an error |
| HttpRecognisers.HeaderNameExact | lib/libhttp_parser/http_parser.c:1227-1389 | at the colon the header state is connection, content-length, transfer-encoding or upgrade exactly if the lower-cased name is that (or proxy-connection) |
| HttpRecognisers.HeaderValueExact | lib/libhttp_parser/http_parser.c:1422-1571 | the values chunked, keep-alive and close are recognised exactly if the value spells them, apart from case and trailing spaces |
| HttpStartLine.NumberExact | lib/libhttp_parser/http_parser.c:755-868 | a version number or a status code, up to the byte that ends it, is accepted if and only if it has digits only, at least one, and is not above 999, where the first digit of a request's version is not 0; and then it is exactly the decimal value of its digits |
| HttpStartLine.StatusLineExact | lib/libhttp_parser/http_parser.c:712-906 | a status line is accepted if and only if its major and minor version and its code are such numbers; then major, minor and status are these values, the flags and the length are cleared, and message_begin and the reason phrase, if it is not empty, are reported; otherwise the error says which of them it was |
| HttpStartLine.VersionExact | lib/libhttp_parser/http_parser.c:1073-1225 | behind the URL of a request, a version is accepted if and only if it is such a pair of numbers, and they are stored; if the line ends there, version 0.9 is stored |
| HttpStartLine.TargetExact | lib/libhttp_parser/http_parser.c:1032-1103 | the URL of a request is reported as it was sent, or it is an error if the state machine for URLs gets stuck on it |
| HttpStartLine.RequestLineExact | lib/libhttp_parser/http_parser.c:908-1225 | a request line with any method of the table is accepted if and only if its URL does not get stuck and is not cut short, and its version can be read; then method, version and URL are stored and reported as they were sent, also by a parser that does not know yet whether it gets a request |
| HttpStartLine.UrlAfterPass | lib/libhttp_parser/http_parser.c:428-574 | for its URL the request parser goes through the same states as the first pass of http_parser_parse_url |
| HttpStartLine.GoodUrlTaken | lib/libhttp_parser/http_parser.c:428-574 | so no request is refused for a URL that http_parser_parse_url accepts |
| HttpRefusals.OnlyAwaited | lib/libhttp_parser/http_parser.c:735-753 | in the states where one certain byte has to follow, any other is an error at that byte, and nothing is reported |
| HttpRefusals.ChunkSizeOnly | lib/libhttp_parser/http_parser.c:1765-1827 | a chunk size, up to the byte that ends it, is accepted if and only if it has hexadecimal digits only, at least one, and is not too large |
| HttpRefusals.NameRefused | lib/libhttp_parser/http_parser.c:1227-1404 | in a header name nothing but token bytes is accepted |
| HttpRefusals.BlankResponse | lib/libhttp_parser/http_parser.c:712-733 | every line end in front of a response is reported as a message_begin |
| HttpRefusals.DeadRefuses | lib/libhttp_parser/http_parser.c:665-673 | behind the last message, line ends are skipped and anything else is an error |
| HttpMessage.EffectsSay | lib/libhttp_parser/http_parser.c:1422-1602 | the flags and the length that a list of header fields leaves follow from what the fields say: close, keep-alive, chunked and upgrade if some field says so on one line, the length of the last field that gives one |
| HttpMessage.HeaderFields | lib/libhttp_parser/http_parser.c:1227-1624 | any list of header fields is reported as it was sent and has that effect, up to the empty line; but a content length that cannot be read is an error |
| HttpMessage.NewMessageSays | lib/libhttp_parser/http_parser.c:1923-1964 | the state behind a message is dead if and only if both version numbers are above 0 and some field says close, or one of them is 0 and none says keep-alive, or it is a response without length or chunks whose status is not 1xx, 204 or 304 and whose body is not skipped; otherwise it is the start state for the same kind of message |
| HttpMessage.FromHeader | lib/libhttp_parser/http_parser.c:1227-1887 | for any header fields and the body they announce: fields, body and trailer are reported as they were sent and message_complete follows the last byte of the body, with the state behind it as above, except that a response that does not say where its body ends takes all that follows as its body, exactly in that case and if there is no upgrade; with an upgrade the parser is left behind the header |
| HttpMessage.MessageExact | lib/libhttp_parser/http_parser.c:662-1887 | the same for whole messages, from the first byte of the request line or status line on |
| HttpMessage.PipelineExact | lib/libhttp_parser/http_parser.c:577-1922 | any number of messages sent one after the other, each of which may be followed by another, are delivered one after the other, each as it was sent |
| HttpMessage.NothingFollows | lib/libhttp_parser/http_parser.c:665-673 | behind a message that may not be followed by another, line ends are skipped and anything else is an error, and no more is reported |
| HttpNumbers.HexReadBack | lib/libhttp_parser/http_parser.c:180-213 | a number written in hexadecimal digits of either case is read back as that number |
| HttpNumbers.DecReadBack | lib/libhttp_parser/http_parser.c:859-860 | so is one written in decimal digits |
| HttpNumbers.NameInAnyCase | lib/libhttp_parser/http_parser.c:145-178 | a header name is taken for one of the known names if and only if it is that name letter by letter, in any case |
| HttpNumbers.TokenListed | lib/libhttp_parser/http_parser.c:145-178 | the bytes of header names are letters, digits and the fifteen marks of the table |
| HttpNumbers.ValueInAnyCase | lib/libhttp_parser/http_parser.c:362-362 | a value is taken for one of the known words if and only if it is that word letter by letter, in any case, with nothing but spaces behind it |
| HttpUrl.ParseHost | lib/libhttp_parser/http_parser.c:2060-2131 | the method computes HostParsed; if it succeeds, user information, host and port tile the host span but for delimiters, and the port is all digits |
| HttpUrl.SplitUrl | lib/libhttp_parser/http_parser.c:2138-2202 | the method computes PassAll; if it succeeds, the fields tile the URL in order but for delimiters |
| HttpUrl.ParseUrl | lib/libhttp_parser/http_parser.c:2134-2231 | the method computes Parsed; if it succeeds, the fields are in bounds, in URL order and disjoint, all bytes outside are delimiters, a schema has a host, the port is the value of its digits and fits 16 bits, and CONNECT has just host and port |
| HttpUrl.HostTransitions | lib/libhttp_parser/http_parser.c:1996-2058 | how the states of the host parser follow each other, and that bytes of no field are delimiters |
| HttpUrl.UrlTransitions | lib/libhttp_parser/http_parser.c:428-574 | fields come in URL order, none is entered twice, and bytes of no field are delimiters |
| HttpUrlText.PassAuthority | lib/libhttp_parser/http_parser.c:480-510 | the first pass takes any authority as one host span, and notes an '@' |
| HttpUrlText.HostOfAuthority | lib/libhttp_parser/http_parser.c:1996-2131 | the host parser cuts any authority into the user information, host and port it was made of, IPv6 addresses included |
| HttpUrlText.OriginForm | lib/libhttp_parser/http_parser.c:2134-2231 | every path with query and fragment, also behind more than one '#', is accepted and cut where it was put together |
| HttpUrlText.AbsoluteForm | lib/libhttp_parser/http_parser.c:2134-2231 | every absolute URL is cut where it was put together; it is refused exactly if its port is above 65535 |
| HttpUrlText.ConnectForm | lib/libhttp_parser/http_parser.c:2211-2228 | an authority, with anything behind it, is accepted as target of CONNECT exactly if it has no user information, has a port not above 65535, and only delimiters, which are ignored, follow |
| HttpUrlExact.UrlExact | lib/libhttp_parser/http_parser.c:2134-2231 | a URL is accepted if and only if it is empty, in origin form or in absolute form with a port not above 65535 or, for CONNECT, in the form above |
| HttpUrlExact.HostOnly | lib/libhttp_parser/http_parser.c:1996-2131 | what the host parser accepts is an authority: user information, host or IPv6 address in brackets, port |
| HttpUrlExact.UrlOnly | lib/libhttp_parser/http_parser.c:428-574 | what the first pass has not refused is, up to there, the beginning of a URL in one of the forms |
| HttpUrlExact.AcceptedEnd | lib/libhttp_parser/http_parser.c:1050-1065 | the first pass over a URL that is accepted does not end where a space would be an error |
| EvHeap.UpHeap | lib/libev/ev.c:2039-2058 | moving up with a hole is the same as swapping upwards, and every moved watcher knows its new index |
| EvHeap.DownHeap | lib/libev/ev.c:1959-2000 | the same downwards |
| EvHeap.FindMinChild | lib/libev/ev.c:1971-1985 | fast and slow path find the first of the earliest children; the fourth comparison of the slow path is asserted not to be made |
| EvHeap.AdjustHeap | lib/libev/ev.c:2061-2068 | adjustheap computes Adjusted, and every moved watcher knows its new index |
| EvHeap.ReHeap | lib/libev/ev.c:2071-2080 | any array of entries of different watchers, whatever indices these have, becomes a heap of the same entries, with exact indices |
| EvHeap.UpIsHeap | lib/libev/ev.c:2039-2058 | moving up repairs a heap in which one entry is too far down |
| EvHeap.DownIsHeap | lib/libev/ev.c:1959-2000 | moving down repairs a heap in which one entry is too far up |
| EvHeap.AdjustedIsHeap | lib/libev/ev.c:2061-2068 | adjustheap repairs a heap in which one entry has any time, and keeps its entries |
| EvHeap.RootIsMin | lib/libev/ev.c:3067-3080 | the first entry of a heap is the earliest |
| EvPending.LiveBumped | lib/libev/ev.c:1710-1711 | adding events in place adds them to the watcher's entry of the list |
| EvPending.LiveCleared | lib/libev/ev.c:3743-3747 | overwriting an entry by the dummy takes the watcher off the list |
| EvPending.FedBackOrder | lib/libev/ev.c:1730-1736 | of two watchers fed in reverse, the one collected first ends up behind the other |
| EvDispatch.HighestFirst | lib/libev/ev.c:3239-3257 | every dispatch takes the last entry of the highest priority that has any, and each watcher is on one list once, for callbacks that do anything |
| EvDispatch.StoppedStaysOut | lib/libev/ev.c:3739-3748 | a watcher stopped by a callback is not dispatched after that unless it is fed again |
| EvDispatch.AbsentNotDispatched | lib/libev/ev.c:3239-3257 | what is not pending and is not fed is not dispatched |
| EvDispatch.NotLost | lib/libev/ev.c:1704-1721 | the events a watcher is owed come with its first dispatch, unless it is stopped |
| EvDispatch.NotInvented | lib/libev/ev.c:1704-1721 | every event dispatched was pending before or was fed by an earlier callback |
| EvDispatch.BehindFirst | lib/libev/ev.c:3239-3257 | of two watchers of a priority the one that is behind on the stack is dispatched first |
| EvLoop.Loop.constructor | lib/libev/ev.c:3058-3080 | a loop without timers and pending events satisfies the invariants |
| EvLoop.Loop.FeedEvent | lib/libev/ev.c:1704-1721 | a watcher joins the list of its priority, or gets the events added if it is there; back-indices stay exact |
| EvLoop.Loop.ClearPending | lib/libev/ev.c:3739-3748 | the watcher leaves its list, the others stay in order |
| EvLoop.Loop.PendingHas | lib/libev/ev.c:3058-3065 | a watcher is marked pending exactly if it is on its list |
| EvLoop.Loop.TimerStart | lib/libev/ev.c:3838-3859 | the timer is added to the active ones with its time made absolute; heap order, indices and cached times stay exact |
| EvLoop.Loop.TimerStop | lib/libev/ev.c:3862-3890 | the timer, wherever in the heap, leaves it and its list, and its time is made relative again |
| EvLoop.Loop.TimerAgain | lib/libev/ev.c:3892-3917 | the timer is moved, started or stopped as its repeat value says |
| EvLoop.Loop.ActiveInHeap | lib/libev/ev.c:3067-3080 | a timer is active exactly if it is in the heap, at the index it has, with its time cached |
| EvLoop.Loop.FirstEarliest | lib/libev/ev.c:3067-3080 | the first timer of the heap is the earliest of all active ones |
| EvLoop.Loop.FeedReverseDone | lib/libev/ev.c:1730-1736 | the collected watchers are fed, the last one first |
| EvLoop.Loop.Expire | lib/libev/ev.c:3293-3311 | the first timer is rescheduled by its interval, but not into the past, or stopped; no other timer changes |
| EvLoop.Loop.TimersReify | lib/libev/ev.c:3284-3320 | it ends; exactly the active timers with a time before now are taken, each once, in the order of their times; those with an interval then go off at the later of now and their time plus the interval, the others are stopped, and the rest is unchanged; no active timer is left before now; they are fed in reverse |
| EvLoop.Loop.InvokePending | lib/libev/ev.c:3239-3257 | for any script of what callbacks do, the callbacks run in the order of Dispatched, all queues are empty afterwards, queues and heap are intact, and which timers are active and when they go off is what the callbacks that ran have made of it |
| EvLoop.Loop.ExpireAndInvoke | lib/libev/ev.c:3636-3653 | when timers_reify and then ev_invoke_pending have run, the callbacks were those of the events pending before and of just the timers that were due; every timer that was due, and that no callback stops, was dispatched with the timer event; of two such timers of a priority that were not pending, the one due earlier came first |
| EvLoop.ExpiredInOrder | lib/libev/ev.c:3284-3320 | for lists fed back in reverse: of two expired timers of a priority that were not pending, the one due earlier is dispatched first |
| EvLoop.ExpiredDelivered | lib/libev/ev.c:3284-3320 | for lists fed back in reverse: every expired timer is dispatched, with the timer event |
| EvPoll.Poll.Modify | lib/libev/ev_poll.c:51-86 | the set passed to poll(2) becomes the old one with the descriptor's mask set, or without it if the mask is empty |
| EvPoll.Poll.SwapRemove | lib/libev/ev_poll.c:78-85 | removal by moving the last entry keeps all other entries and their places in the table |
| EvPoll.Poll.EntriesAreInterest | lib/libev/ev_poll.c:51-86 | every entry of the array is in the set, and no descriptor is in the array twice |
| EvFd.DelOne | lib/libev/ev.c:3724-3737 | taking a watcher off a list leaves the others in order |
| EvFd.Fds.FdChange | lib/libev/ev.c:1844-1856 | the descriptors marked for reification are exactly those on the change list, each once; marks add up, and no other descriptor's change |
| EvFd.Fds.IoStart | lib/libev/ev.c:3793-3817 | the watcher becomes the first of its descriptor's list, and the descriptor is marked as changed, and as set anew if the watcher was |
| EvFd.Fds.IoStop | lib/libev/ev.c:3819-3836 | the watcher leaves its list and its pending events, and the descriptor is marked as changed |
| EvFd.Fds.IoReset | lib/libev/ev++.h:617-623 | setting a watcher to another descriptor or mask moves it, if it is active, to the head of that descriptor's list, and marks the descriptor as set anew; no other list changes, and all lists and the poll set stay coherent |
| EvFd.Fds.FdKill | lib/libev/ev.c:1859-1869 | all watchers of the descriptor are stopped, each is then fed an error, and no other list changes |
| EvFd.Fds.Refresh | lib/libev/ev.c:1813-1838 | a descriptor's recorded mask becomes the union of its watchers' masks, and the poll set follows; the backend is called if and only if that is another mask than before or the descriptor was set anew |
| EvFd.Fds.FdReify | lib/libev/ev.c:1784-1841 | it ends, even if the backend kills descriptors during the loop; then the change list is empty, nothing is marked, all lists and the poll set are coherent, every descriptor that was set anew has been passed to the backend, and only descriptors the backend killed have lost watchers |
| EvFd.Fds.PollSet | lib/libev/ev.c:1784-1841 | when nothing is left to reify, the poll set has for each descriptor exactly the union of its active watchers' masks |
| EvWakeup.StepInv | lib/libev/ev.c:2145-2258 | every step of a sender or the loop keeps the invariant: a raised flag will be seen, a marked watcher will be scanned, a skipped write is made up for while the loop waits |
| EvWakeup.NoLostWakeup | lib/libev/ev.c:3567-3629 | in every interleaving of any number of senders: when the loop is in a blocking poll, the pipe is empty and no sender is on its way, no started watcher and no signal is marked; that the loop gets there is EvRest.ComesToRest |
| EvWakeup.EverySendIsFed | lib/libev/ev.c:4867-4872 | whatever is sent to a watcher that stays started has been fed when the loop is next quiet |
| EvWakeup.FeedsNeedSends | lib/libev/ev.c:2242-2257 | a watcher is fed at most as often as it was sent to |
| EvRest.PollIsDecided | lib/libev/ev.c:3567-3572 | in every run, when the loop is in a poll, it has been in it since its last decision, and the poll may block if and only if there was no other reason then not to block and pipe_write_skipped was found clear |
| EvRest.RaisesIfDown | lib/libev/ev.c:2145-2153 | in every run, a sender goes beyond its check of the flag only if it found it down |
| EvRest.WritesIfWanted | lib/libev/ev.c:2158-2189 | in every run, a sender writes to the pipe only if it found that the loop wants it |
| EvRest.FedForAReason | lib/libev/ev.c:3625-3629 | in every run, pipe_w is pending only since the pipe was found readable or a skipped write was found |
| EvRest.ComesToRest | lib/libev/ev.c:2145-2258 | from every state of every run, the senders on their way get through, and then the loop by itself, without any other reason not to block, gets to a poll that may block, with an empty pipe |
| EvRest.SendIsServed | lib/libev/ev.c:4867-4872 | in every state of every run, whoever sends to a watcher that is started has it fed: the sender gets through and the loop by itself feeds it |
| EvUinetInvariant.StepInv | lib/libev/ev.c:2415-2602 | every step of a stack thread, a batch or the loop keeps the invariant of the upcall protocol |
| EvUinetInvariant.StopIsEnabled | lib/libev/ev.c:4999-5011 | the reader and writer counts cover every watcher, so they do not go below zero |
| EvUinetRuns.NoLostReadiness | lib/libev/ev.c:2481-2549 | at any time in every run, a ready side of a socket that has a watcher and is not inhibited is pending with that event, and on the pending list or the list being drained, unless a thread is on its way with it, or the loop itself is in the very operation that looks at it, reports it or drains the socket |
| EvUinetRuns.WaitMissesNothing | lib/libev/ev.c:2481-2549 | in every run, when the loop waits, a ready side of a socket that has a watcher, whatever happened to it before, has a thread on its way or is pending with that event and on the pending list; and while uinet_pend_lock is free, the async event is then sent or more batches were started than finished |
| EvUinetRuns.PendingIsTold | lib/libev/ev.c:2415-2480 | in every run, while the lock is free a pending list that is not empty has the async event sent or queued, more batches started than finished, or the drain about to take it |
| EvUinetRuns.BatchesCounted | lib/libev/ev.c:2415-2441 | in every run, uinet_in_batch is the number of batches started less that of batches finished; while the lock is free, one may be started, and one finished if and only if there is one to finish, so the assertion holds |
| EvUinetRuns.Membership | lib/libev/ev.c:4910-5045 | at any time in every run when uinet_pend_lock is free, for a socket that the loop is not in an operation on: it is pending exactly if it is on the pending list or the list being drained, on the previous list exactly if it is inhibited or being drained, never on both lists or twice, and an upcall is installed exactly if it has a watcher and is not inhibited |
| EvUinetRuns.PrevListEmpty | lib/libev/ev.c:2551-2561 | in every run the previous list is empty when the drain starts |
| EvUinetRuns.ClearsInstalled | sys/kern/uipc_socket.c:3813-3838 | in every run an upcall is cleared only if it is installed |
| EvUinetRuns.NoRace | lib/libev/ev.c:2564-2600 | in every run, where the loop writes a socket's flags without the lock no upcall of the socket is running |
| EvUinetRuns.DrainDelivers | lib/libev/ev.c:2571-2600 | a watcher whose socket is on the list the drain took, with an event it waits for, has been fed that event when the drain is done, whatever happens in between |
| EvUinetRuns.FeedsOnly | lib/libev/ev.c:2587-2597 | no watcher is fed what it did not ask for or what its socket did not have |
| EvUinetRuns.NoFalseFeeds | lib/libev/ev.c:2484-2513 | in every run, no watcher is fed an event that its socket did not have at some time before: what is reported was found ready, by the thread or by the loop |
| EvProgress.ComesToWait | lib/libev/ev.c:2415-2602 | from every state of every run, the threads on their way get through and then the loop by itself gets to wait: no lock and no upcall holds anyone up for good |
| EvProgress.EveryoneServed | lib/libev/ev.c:2415-2602 | from every state of every run, once the threads on their way are through and the batches finished, the loop by itself feeds every watcher that waits for a side that is ready, and waits again |
| EvProgress.WakeIsServed | lib/libev/ev.c:2481-2549 | in every state of every run, when the stack wakes a side of a socket that has become ready, every watcher that waits for it is fed, if the loop is not just stopping a watcher |
| EvEndToEnd.StepInv | lib/libev/ev.c:2145-2602 | in the two protocols put together, every step of a stack thread, a sender or the loop keeps both invariants and what ties them: the async event is sent on one side exactly if it is marked on the other, and the loop is in the same part of its cycle |
| EvEndToEnd.NoSleepOnReadiness | lib/libev/ev.c:2415-2602 | in every run, when the loop is in a poll that may block, with an empty pipe and no sender on its way, every batch started is finished and uinet_pend_lock is free, every ready side of a socket that has a watcher has a stack thread on its way |
| EvEndToEnd.SidesFollow | lib/libev/ev.c:2225-2257 | putting them together holds nothing up: in every run, where the loop leaves its wait section or makes the async watcher pending, the sockets' side is where it can follow |
| EvSettles.ComesToRest | lib/libev/ev.c:2145-2602 | from every state of every run of the two together, once no more is asked of them and the application has taken what is ready, the threads and senders on their way get through, the batches are finished, and the loop gets to a poll that may block, with an empty pipe |
| NetmapPool.TakenValid | lib/libuinet/uinet_if_netmap.c:192-213 | a bufinfo handed out was in the free list and is not out already; the pool stays a partition |
| NetmapPool.UntakenValid | lib/libuinet/uinet_if_netmap.c:215-229 | undoing an alloc puts the very bufinfo back in front, whatever was freed in between |
| NetmapPool.SteppedValid | lib/libuinet/uinet_if_netmap.c:230-249 | each of the three steps of a free, at any time, keeps the pool and the set of bufinfos that hold a buffer |
| NetmapPool.SweptOneValid | lib/libuinet/uinet_if_netmap.c:617-626 | the entry at the trail is the first that was freed and not swept |
| NetmapPool.PoolInEveryRun | lib/libuinet/uinet_if_netmap.c:135-249 | in every interleaving the available, returnable and outstanding bufinfos are a partition of all, none is handed out twice, and an undo is exact |
| NetmapPool.Pool.constructor | lib/libuinet/uinet_if_netmap.c:135-172 | all bufinfos are available |
| NetmapPool.Pool.TakeBufinfo | lib/libuinet/uinet_if_netmap.c:192-213 | the first available bufinfo with the slot's buffer, or none if none is available |
| NetmapPool.Pool.UntakeBufinfo | lib/libuinet/uinet_if_netmap.c:219-229 | the array form of the undo |
| NetmapPool.Pool.FreeStepBy | lib/libuinet/uinet_if_netmap.c:231-249 | the array form of the steps of a free |
| NetmapPool.Pool.Others | lib/libuinet/uinet_if_netmap.c:231-249 | any steps of other threads give AllStepped, keep the bufinfos that hold a buffer, and never lower returnable |
| NetmapPool.FreeReturns | lib/libuinet/uinet_if_netmap.c:231-249 | a free from its begin to its end makes the bufinfo the last of those that can be returned, and no longer out |
| NetmapPool.FreesAtSweepEnd | lib/libuinet/uinet_if_netmap.c:629-630 | frees between the two counter updates that end a sweep are as frees before both |
| NetmapRing.Lend | lib/libuinet/uinet_if_netmap.c:735-762 | a buffer that goes to the stack moves from the ring to its bufinfo |
| NetmapRing.Rotate | lib/libuinet/uinet_if_netmap.c:719-733 | a copied packet's buffer moves to the end of the slots in use |
| NetmapRing.Return | lib/libuinet/uinet_if_netmap.c:617-626 | a swept buffer moves from its bufinfo to the ring |
| NetmapRing.Ring.Meanwhile | lib/libuinet/uinet_if_netmap.c:231-249 | whatever other threads free between two steps of the receive thread, the slots and what they hold stay |
| NetmapRing.Ring.Packet | lib/libuinet/uinet_if_netmap.c:713-771 | a packet's buffer is lent exactly if a bufinfo is available and there is an mbuf, and is put back otherwise; no buffer is lost or doubled, whatever other threads free meanwhile, in the copy path too |
| NetmapRing.Ring.Packets | lib/libuinet/uinet_if_netmap.c:713-771 | every packet of a pass is read as it was before the pass, in order, with frees before and with each packet: no slot with an unread packet is written; behind the others then come, in order, the buffers of exactly those packets for which there was no bufinfo left or no mbuf |
| NetmapRing.Ring.SweepTrail | lib/libuinet/uinet_if_netmap.c:603-633 | exactly the bufinfos returnable at its start are swept, with frees before each round and after the last; their buffers, in the order in which they were freed, are behind those in use, and the reserved stretch is that much shorter |
| NetmapRing.Ring.ReceivePass | lib/libuinet/uinet_if_netmap.c:709-784 | a pass, with frees before it, in it and before and in its sweep, sees the packets that were in the ring when it started, in order; then come the buffers of those that were copied and those of the bufinfos that were freed when the sweep started, at least all that were freed before the first packet; reserved changes by what was lent and what was returned, the pool is what these allocs, undone allocs and frees make of it in this order, and the kernel is told where the reserved stretch begins |
| NetmapRing.Ring.DryRecovers | lib/libuinet/uinet_if_netmap.c:709-784 | when all bufinfos are out or freed and another thread frees one, then after a pass, in which all packets are copied, one is available again |
| NetmapRing.Ring.RxUpdate | lib/libuinet/uinet_if_netmap_host.c:183-200 | the head that the kernel is told is the begin of the reserved stretch |
| NetmapRing.Ring.Receive | lib/libuinet/uinet_if_netmap.c:687-784 | each pass of any number, with frees by other threads at any time, also when the pool runs dry, starts where the one before it ended and does that, if the kernel reports packets at all and no more than there are slots that are not reserved; the buffers in slots that are not reserved and those held by bufinfos stay the original ones without duplicates, and at most half of the slots are reserved |
| Passive.OneEnd | bin/passive/passive.c:464-482 | if the callbacks pause the parser at the end of a message and only there, a call completes a message exactly if it pauses, and then one |
| Passive.ParseOn | bin/passive/passive.c:312-328 | a call of the parser on the bytes that follow goes on with one parse of the stream: same fields, same header counter, same merged callbacks, or the failure of that parse |
| Passive.CallParser | bin/passive/passive.c:312-328 | so does the call as it is made, which completes a message exactly if it is paused |
| Passive.Conn.ParseBuffer | bin/passive/passive.c:312-328 | it ends; the buffer is then empty or the parser stopped; the bytes consumed and those left are the bytes read; at most one message is completed, exactly if the parser is paused, and then the buffer has shrunk |
| Passive.Conn.Read | bin/passive/passive.c:373-396 | what is read lies behind the index, and no unparsed byte is overwritten |
| Passive.Conn.Eof | bin/passive/passive.c:444-445 | the end of the stream completes a message exactly if the parser is in use and in a body that ends there |
| Passive.Pair.constructor | bin/passive/passive.c:853-864 | the request side goes first |
| Passive.Pair.Cycle | bin/passive/passive.c:398-433 | a round of the loop: conn's message goes on, and its buffer is empty; or it is completed and the peer's goes on, and the peer's watcher is the one that is started; or both are completed, and conn goes on with a shorter buffer; or the pair is closed, if and only if a parser has failed |
| Passive.Pair.Shutdown | bin/passive/passive.c:437-449 | both parsers are told of the end of the streams, and that completes a message exactly if the parser of the side whose turn it is is in use and in a body that ends there |
| Passive.Pair.ExtractCb | bin/passive/passive.c:348-452 | it ends; the pair is closed if and only if the socket cannot be read or a parser has failed; otherwise exactly one watcher is started, that of the side whose turn it is, its parser is not paused and its buffer is empty; some bytes are read if there are any, and all bytes read are accounted for |
| Passive.Pair.Serve | bin/passive/passive.c:348-452 | through any sequence of callbacks, requests and responses are completed in strict turn, and the callbacks of each side are those of one parse of the bytes consumed from its stream, but for what the end of the stream adds; the pair is closed if and only if a socket could not be read or a parser failed, and until then every callback is served and takes some of what its socket has |

## Left out

- The select, epoll, kqueue, port and Windows backends of libev, and its signal, child, stat, embed, fork, idle, periodic and check watchers: they are mostly calls to the kernel.
- Floating-point rounding, clock reads and time jumps: times are exact and supplied.
- Memory models weaker than sequential consistency: the fences of the source are taken as given.
- EvWakeup.NoLostWakeup: starts with the pipe set up and its watcher active; the handling of fork, which calls pipecb directly, is not modelled.
- EvUinetRuns.NoLostReadiness: sockets are attached once and for all; ev_uinet_detach is not modelled, nor is moving a socket to another loop.
- EvUinetRuns.PrevListEmpty: ev_run is not called from a callback, and callbacks do not feed libev's own watchers.
- EvLoop.Loop.InvokePending: a watcher's priority does not change, and a run of callbacks that never ends is not described.
- EvFd.Fds.FdReify: the intrusive lists of watchers are sequences, and the backend is the poll backend together with any choice of descriptors it kills; the Windows handle check is not modelled.
- Array growth in libev happens at once when needed, by a size of its own choice, and never fails.
- The C++ layer, the libevent emulation and ev_walk: thin wrappers.
- HttpParser.HttpParser.Execute: callbacks may pause but not fail, and callbacks that are not set are as callbacks that do nothing; non-strict mode is not modelled.
- HttpMessage.MessageExact: a name without a colon among the header fields is not part of its messages; HttpTrailer.BareName is about such a line.
- HttpUrl.ParseUrl: for buffers of at most 65535 bytes and a zeroed result; strtoul does not read a digit behind the buffer.
- NetmapRing.Ring.Receive: the ring's current slot starts at 0, and the kernel reports at most the slots that are not reserved; statistics and the batch events are not modelled here.
- The transmit side of the netmap interface, its setup and its teardown.
- The TCP/IP stack itself and the socket calls on it.
- Writing files, inflating and printing in the passive program, and its mode without extraction.
- The programs tproxy, echo, connscale, poolspeed, sysctl and vmstat: mostly input, output and options.
