/** One execution of the switch inside http_parser_execute, as a function of the parser and
    the current byte, together with the pure helpers it calls. */
module HttpMachine {
  import opened HttpTypes

  /** What one execution of the switch asks of the enclosing loop as regards callbacks.
      `Mark(d)` is the MARK macro: the byte belongs to a run of `d` that starts here at the
      latest.  `Stay(d)` leaves an already open run of `d` open.  `Flush(d)` is CALLBACK_DATA.
      `MarkFlush(d)` reports the run including the current byte.  `EmptyValue` marks and
      immediately reports a header value without bytes. */
  datatype Act = Quiet | Mark(datum: Datum) | Stay(datum: Datum) | Flush(datum: Datum)
               | MarkFlush(datum: Datum) | EmptyValue | Note(notice: Notice)

  /** Where control goes: next byte, the same byte again, the error label, or out of the
      function because the connection changes protocol. */
  datatype Next = Consume | Again | Fail(errno: Errno) | Exit

  datatype Micro = Micro(p: Parser, act: Act, next: Next)

  function Go(p: Parser, s: State): Micro { Micro(p.(state := s), Quiet, Consume) }

  function Keep(p: Parser): Micro { Micro(p, Quiet, Consume) }

  function Err(p: Parser, e: Errno): Micro { Micro(p, Quiet, Fail(e)) }

  /** STRICT_CHECK(!ok), then on to state s. */
  function Expect(p: Parser, ok: bool, s: State): Micro {
    if ok then Go(p, s) else Err(p, Strict)
  }

  /** http_message_needs_eof */
  predicate NeedsEof(p: Parser) {
    && !p.kind.Request?
    && !(p.status / 100 == 1 || p.status == 204 || p.status == 304 || p.flags.skipBody)
    && !(p.flags.chunked || p.contentLength != ULLONG_MAX)
  }

  /** http_should_keep_alive */
  predicate ShouldKeepAlive(p: Parser) {
    && (if p.major > 0 && p.minor > 0 then !p.flags.close else p.flags.keepAlive)
    && !NeedsEof(p)
  }

  /** NEW_MESSAGE() */
  function NewMessage(p: Parser): State {
    if !ShouldKeepAlive(p) then Dead else if p.kind.Request? then StartReq else StartRes
  }

  /** parse_url_char */
  function ParseUrlChar(s: State, ch: char): State {
    if ch == ' ' || ch == CR || ch == LF || ch == '\t' || ch as int == 12 then Dead
    else if s.ReqSpacesBeforeUrl? then
        (if ch == '/' || ch == '*' then ReqPath else if IsAlpha(ch) then ReqSchema else Dead)
      else if s.ReqSchema? then
        (if IsAlpha(ch) then ReqSchema else if ch == ':' then ReqSchemaSlash else Dead)
      else if s.ReqSchemaSlash? then if ch == '/' then ReqSchemaSlashSlash else Dead
      else if s.ReqSchemaSlashSlash? then if ch == '/' then ReqServerStart else Dead
      else if s.ReqServerWithAt? then if ch == '@' then Dead else ParseServerChar(ch)
      else if s.ReqServerStart? then ParseServerChar(ch)
      else if s.ReqServer? then ParseServerChar(ch)
      else if s.ReqPath? then
        (if IsUrlChar(ch) then ReqPath
        else if ch == '?' then ReqQueryStart
        else if ch == '#' then ReqFragmentStart
        else Dead)
      else if s.ReqQueryStart? then ParseQueryChar(ch)
      else if s.ReqQuery? then ParseQueryChar(ch)
      else if s.ReqFragmentStart? then
        (if IsUrlChar(ch) || ch == '?' then ReqFragment
        else if ch == '#' then ReqFragmentStart
        else Dead)
      else if s.ReqFragment? then
        (if IsUrlChar(ch) || ch == '?' || ch == '#' then ReqFragment else Dead)
      else Dead
  }

  function ParseServerChar(ch: char): State {
    if ch == '/' then ReqPath
    else if ch == '?' then ReqQueryStart
    else if ch == '@' then ReqServerWithAt
    else if IsUserinfoChar(ch) || ch == '[' || ch == ']' then ReqServer
    else Dead
  }

  function ParseQueryChar(ch: char): State {
    if IsUrlChar(ch) || ch == '?' then ReqQuery
    else if ch == '#' then ReqFragmentStart
    else Dead
  }

  // ----- start of a message and the status line

  function FirstMethod(ch: char): (m: Method)
    requires MethodInitial(ch)
  {
    match ch
    case 'C' => CONNECT
    case 'D' => DELETE
    case 'G' => GET
    case 'H' => HEAD
    case 'L' => LOCK
    case 'M' => MKCOL
    case 'N' => NOTIFY
    case 'O' => OPTIONS
    case 'P' => POST
    case 'R' => REPORT
    case 'S' => SUBSCRIBE
    case 'T' => TRACE
    case _ => UNLOCK
  }

  predicate MethodInitial(ch: char) {
    ch == 'C' || ch == 'D' || ch == 'G' || ch == 'H' || ch == 'L' || ch == 'M' || ch == 'N' || ch == 'O'
    || ch == 'P' || ch == 'R' || ch == 'S' || ch == 'T' || ch == 'U'
  }

  function Fresh(p: Parser): Parser { p.(flags := NO_FLAGS, contentLength := ULLONG_MAX) }

  function StepStart(p: Parser, ch: char): Micro {
    if p.state.Dead? then
      (if ch == CR || ch == LF then Keep(p) else Err(p, ClosedConnection))
    else if p.state.StartReqOrRes? then
      (if ch == CR || ch == LF then Keep(p)
      else if ch == 'H' then Micro(Fresh(p).(state := ResOrRespH), Note(MessageBegin), Consume)
      else Micro(Fresh(p).(kind := Request, state := StartReq), Quiet, Again))
    else if p.state.ResOrRespH? then
      (if ch == 'T' then Go(p.(kind := Response), ResHT)
      else if ch == 'E' then Go(p.(kind := Request, verb := HEAD, index := 2), ReqMethod)
      else Err(p, InvalidConstant))
    else if p.state.StartRes? then
      (if ch == 'H' then Micro(Fresh(p).(state := ResH), Note(MessageBegin), Consume)
      else if ch == CR || ch == LF then Micro(Fresh(p), Note(MessageBegin), Consume)
      else Err(Fresh(p), InvalidConstant))
    else if p.state.StartReq? then
      (if ch == CR || ch == LF then Keep(p)
      else if !IsAlpha(ch) then Err(Fresh(p), InvalidMethod)
      else if MethodInitial(ch) then
        Micro(Fresh(p).(verb := FirstMethod(ch), index := 1, state := ReqMethod), Note(MessageBegin), Consume)
      else Err(Fresh(p).(verb := DELETE, index := 1), InvalidMethod))
    else Keep(p)
  }

  /** Shared by the four version states: append a decimal digit to a version number. */
  function Version(n: nat, ch: char): nat
    requires IsNum(ch)
  {
    n * 10 + Digit(ch)
  }

  function StepStatusLine(p: Parser, ch: char): Micro {
    if p.state.ResH? then Expect(p, ch == 'T', ResHT)
    else if p.state.ResHT? then Expect(p, ch == 'T', ResHTT)
    else if p.state.ResHTT? then Expect(p, ch == 'P', ResHTTP)
    else if p.state.ResHTTP? then Expect(p, ch == '/', ResFirstMajor)
    else if p.state.ResFirstMajor? then
      (if IsNum(ch) then Go(p.(major := Digit(ch)), ResMajor) else Err(p, InvalidVersion))
    else if p.state.ResMajor? then
      (if ch == '.' then Go(p, ResFirstMinor)
      else if !IsNum(ch) then Err(p, InvalidVersion)
      else
        var q := p.(major := Version(p.major, ch));
        if q.major > 999 then Err(q, InvalidVersion) else Keep(q))
    else if p.state.ResFirstMinor? then
      (if IsNum(ch) then Go(p.(minor := Digit(ch)), ResMinor) else Err(p, InvalidVersion))
    else if p.state.ResMinor? then
      (if ch == ' ' then Go(p, ResFirstStatusCode)
      else if !IsNum(ch) then Err(p, InvalidVersion)
      else
        var q := p.(minor := Version(p.minor, ch));
        if q.minor > 999 then Err(q, InvalidVersion) else Keep(q))
    else if p.state.ResFirstStatusCode? then
      (if IsNum(ch) then Go(p.(status := Digit(ch)), ResStatusCode)
      else if ch == ' ' then Keep(p)
      else Err(p, InvalidStatus))
    else if p.state.ResStatusCode? then
      (if !IsNum(ch) then
        if ch == ' ' then Go(p, ResStatusStart)
        else if ch == CR then Go(p, ResLineAlmostDone)
        else if ch == LF then Go(p, HeaderFieldStart)
        else Err(p, InvalidStatus)
      else
        var q := p.(status := Version(p.status, ch));
        if q.status > 999 then Err(q, InvalidStatus) else Keep(q))
    else if p.state.ResStatusStart? then
      (if ch == CR then Go(p, ResLineAlmostDone)
      else if ch == LF then Go(p, HeaderFieldStart)
      else Micro(p.(state := ResStatus, index := 0), Mark(StatusData), Consume))
    else if p.state.ResStatus? then
      (if ch == CR then Micro(p.(state := ResLineAlmostDone), Flush(StatusData), Consume)
      else if ch == LF then Micro(p.(state := HeaderFieldStart), Flush(StatusData), Consume)
      else Micro(p, Stay(StatusData), Consume))
    else if p.state.ResLineAlmostDone? then Expect(p, ch == LF, HeaderFieldStart)
    else Keep(p)
  }

  // ----- the request line

  /** The method that takes over when byte `ch` at position `index` does not continue `m`. */
  function Reroute(m: Method, index: nat, ch: char): (r: Method)
    requires CanReroute(m, index, ch)
  {
    match m
    case CONNECT => if ch == 'H' then CHECKOUT else COPY
    case MKCOL =>
      if ch == 'O' then MOVE else if ch == 'E' then MERGE else if ch == '-' then MSEARCH else MKACTIVITY
    case SUBSCRIBE => SEARCH
    case POST => if ch == 'R' then PROPFIND else if ch == 'U' then PUT else PATCH
    case PUT => PURGE
    case UNLOCK => UNSUBSCRIBE
    case _ => PROPPATCH
  }

  predicate CanReroute(m: Method, index: nat, ch: char) {
    match m
    case CONNECT => (index == 1 && ch == 'H') || (index == 2 && ch == 'P')
    case MKCOL => (index == 1 && (ch == 'O' || ch == 'E' || ch == '-')) || (index == 2 && ch == 'A')
    case SUBSCRIBE => index == 1 && ch == 'E'
    case POST => index == 1 && (ch == 'R' || ch == 'U' || ch == 'A')
    case PUT => index == 2 && ch == 'R'
    case UNLOCK => index == 2 && ch == 'S'
    case PROPFIND => index == 4 && ch == 'P'
    case _ => false
  }

  function StepMethod(p: Parser, ch: char): Micro {
    var matcher := MethodString(p.verb);
    if ch as int == 0 then Err(p, InvalidMethod)
    else if ch == ' ' && p.index == |matcher| then Go(p.(index := p.index + 1), ReqSpacesBeforeUrl)
    else if p.index < |matcher| && ch == matcher[p.index] then Keep(p.(index := p.index + 1))
    else if CanReroute(p.verb, p.index, ch) then
      Keep(p.(verb := Reroute(p.verb, p.index, ch), index := p.index + 1))
    else Err(p, InvalidMethod)
  }

  function UrlTo(p: Parser, s: State, act: Act): Micro {
    if s.Dead? then Err(p.(state := Dead), InvalidUrl) else Micro(p.(state := s), act, Consume)
  }

  /** URL states in which white space is an error. */
  predicate TightUrl(s: State) { s.ReqSchema? || s.ReqSchemaSlash? || s.ReqSchemaSlashSlash? || s.ReqServerStart? }

  function StepUrl(p: Parser, ch: char): Micro {
    if p.state.ReqSpacesBeforeUrl? then
      if ch == ' ' then Keep(p)
      else UrlTo(p, ParseUrlChar(if p.verb.CONNECT? then ReqServerStart else ReqSpacesBeforeUrl, ch), Mark(UrlData))
    else if ch == ' ' || ch == CR || ch == LF then
      if TightUrl(p.state) then Err(p, InvalidUrl)
      else if ch == ' ' then Micro(p.(state := ReqHttpStart), Flush(UrlData), Consume)
      else Micro(p.(major := 0, minor := 9, state := if ch == CR then ReqLineAlmostDone else HeaderFieldStart),
                 Flush(UrlData), Consume)
    else UrlTo(p, ParseUrlChar(p.state, ch), Stay(UrlData))
  }

  function StepRequestLine(p: Parser, ch: char): Micro {
    if p.state.ReqHttpStart? then
      (if ch == 'H' then Go(p, ReqHttpH) else if ch == ' ' then Keep(p) else Err(p, InvalidConstant))
    else if p.state.ReqHttpH? then Expect(p, ch == 'T', ReqHttpHT)
    else if p.state.ReqHttpHT? then Expect(p, ch == 'T', ReqHttpHTT)
    else if p.state.ReqHttpHTT? then Expect(p, ch == 'P', ReqHttpHTTP)
    else if p.state.ReqHttpHTTP? then Expect(p, ch == '/', ReqFirstMajor)
    else if p.state.ReqFirstMajor? then
      (if '1' <= ch <= '9' then Go(p.(major := Digit(ch)), ReqMajor) else Err(p, InvalidVersion))
    else if p.state.ReqMajor? then
      (if ch == '.' then Go(p, ReqFirstMinor)
      else if !IsNum(ch) then Err(p, InvalidVersion)
      else
        var q := p.(major := Version(p.major, ch));
        if q.major > 999 then Err(q, InvalidVersion) else Keep(q))
    else if p.state.ReqFirstMinor? then
      (if IsNum(ch) then Go(p.(minor := Digit(ch)), ReqMinor) else Err(p, InvalidVersion))
    else if p.state.ReqMinor? then
      (if ch == CR then Go(p, ReqLineAlmostDone)
      else if ch == LF then Go(p, HeaderFieldStart)
      else if !IsNum(ch) then Err(p, InvalidVersion)
      else
        var q := p.(minor := Version(p.minor, ch));
        if q.minor > 999 then Err(q, InvalidVersion) else Keep(q))
    else if p.state.ReqLineAlmostDone? then
      (if ch == LF then Go(p, HeaderFieldStart) else Err(p, LfExpected))
    else Keep(p)
  }

  // ----- headers

  /** The word that a matching header state compares against, and the state it leads to. */
  function WordOf(h: HState): (w: string)
    ensures |w| <= 17
  {
    if h.MatchingConnection? then "connection"
    else if h.MatchingProxyConnection? then "proxy-connection"
    else if h.MatchingContentLength? then "content-length"
    else if h.MatchingTransferEncoding? then "transfer-encoding"
    else if h.MatchingUpgrade? then "upgrade"
    else if h.MatchingChunked? then "chunked"
    else if h.MatchingKeepAlive? then "keep-alive"
    else if h.MatchingClose? then "close"
    else ""
  }

  function HitOf(h: HState): HState {
    if h.MatchingConnection? || h.MatchingProxyConnection? then Connection
    else if h.MatchingContentLength? then ContentLength
    else if h.MatchingTransferEncoding? then TransferEncoding
    else if h.MatchingUpgrade? then UpgradeHeader
    else if h.MatchingChunked? then Chunked
    else if h.MatchingKeepAlive? then KeepAlive
    else if h.MatchingClose? then Close
    else General
  }

  predicate MatchingField(h: HState) {
    h.MatchingConnection? || h.MatchingProxyConnection? || h.MatchingContentLength? || h.MatchingTransferEncoding?
    || h.MatchingUpgrade?
  }

  predicate MatchingValue(h: HState) { h.MatchingChunked? || h.MatchingKeepAlive? || h.MatchingClose? }

  /** Advance a word matcher: it goes on while inside the word, hits at the last character, and
      falls back to General as soon as a character differs. */
  function Match(p: Parser, code: nat): Parser {
    var word := WordOf(p.hstate);
    var i := p.index + 1;
    p.(index := i,
       hstate := if i >= |word| || code != word[i] as int then General
                 else if i == |word| - 1 then HitOf(p.hstate)
                 else p.hstate)
  }

  function StepFieldStart(p: Parser, ch: char): Micro {
    if ch == CR then Go(p, HeadersAlmostDone)
    else if ch == LF then Micro(p.(state := HeadersAlmostDone), Quiet, Again)
    else if !IsToken(ch) then Err(p, InvalidHeaderToken)
    else
      var c := ToLower(ch);
      var h := if c == 'c' then HC
               else if c == 'p' then MatchingProxyConnection
               else if c == 't' then MatchingTransferEncoding
               else if c == 'u' then MatchingUpgrade
               else General;
      Micro(p.(index := 0, state := HeaderField, hstate := h), Mark(FieldData), Consume)
  }

  /** The inner switch on header_state while reading a field name; `c` is the lower-cased token byte. */
  function FieldByte(p: Parser, c: char): Parser {
    if p.hstate.HC? then p.(index := p.index + 1, hstate := if c == 'o' then HCO else General)
    else if p.hstate.HCO? then p.(index := p.index + 1, hstate := if c == 'n' then HCON else General)
    else if p.hstate.HCON? then
      p.(index := p.index + 1,
         hstate := if c == 'n' then MatchingConnection else if c == 't' then MatchingContentLength else General)
    else if MatchingField(p.hstate) then Match(p, c as int)
    else if p.hstate.Connection? || p.hstate.ContentLength? || p.hstate.TransferEncoding?
        || p.hstate.UpgradeHeader? then
      p.(hstate := General)
    else p
  }

  function StepField(p: Parser, ch: char): Micro {
    if IsToken(ch) then Micro(FieldByte(p, ToLower(ch)), Stay(FieldData), Consume)
    else if ch == ':' then Micro(p.(state := HeaderValueDiscardWs), Flush(FieldData), Consume)
    else if ch == CR then Micro(p.(state := HeaderAlmostDone), Flush(FieldData), Consume)
    else if ch == LF then Micro(p.(state := HeaderFieldStart), Flush(FieldData), Consume)
    else Err(p, InvalidHeaderToken)
  }

  function StepValueStart(p: Parser, ch: char): Micro {
    var q := p.(state := HeaderValue, index := 0);
    if p.hstate.UpgradeHeader? then
      (Micro(q.(flags := q.flags.(upgrade := true), hstate := General), Mark(ValueData), Consume))
    else if p.hstate.TransferEncoding? then
      (Micro(q.(hstate := if Lower(ch) == 'c' as int then MatchingChunked else General), Mark(ValueData), Consume))
    else if p.hstate.ContentLength? then
      (if IsNum(ch) then Micro(q.(contentLength := Digit(ch)), Mark(ValueData), Consume)
      else Err(q, InvalidContentLength))
    else if p.hstate.Connection? then
      (Micro(q.(hstate := if Lower(ch) == 'k' as int then MatchingKeepAlive
                         else if Lower(ch) == 'c' as int then MatchingClose
                         else General),
            Mark(ValueData), Consume))
    else Micro(q.(hstate := General), Mark(ValueData), Consume)
  }

  /** The largest content length that may still be multiplied by 10 (by 16, in a chunk size). */
  const DECIMAL_LIMIT: nat := (ULLONG_MAX - 10) / 10
  const HEX_LIMIT: nat := (ULLONG_MAX - 16) / 16

  function ValueByte(p: Parser, ch: char): Micro {
    if p.hstate.ContentLength? then
      if ch == ' ' then Micro(p, Stay(ValueData), Consume)
      else if !IsNum(ch) then Err(p, InvalidContentLength)
      else if DECIMAL_LIMIT < p.contentLength then Err(p, InvalidContentLength)
      else Micro(p.(contentLength := p.contentLength * 10 + Digit(ch)), Stay(ValueData), Consume)
    else if MatchingValue(p.hstate) then Micro(Match(p, Lower(ch)), Stay(ValueData), Consume)
    else if p.hstate.Chunked? || p.hstate.KeepAlive? || p.hstate.Close? then
      Micro(if ch == ' ' then p else p.(hstate := General), Stay(ValueData), Consume)
    else if p.hstate.General? || p.hstate.Connection? || p.hstate.TransferEncoding? then
      Micro(p, Stay(ValueData), Consume)
    else Micro(p.(hstate := General), Stay(ValueData), Consume)
  }

  /** Flags set once a header line is known not to be continued. */
  function HeaderFlags(p: Parser): Flags {
    if p.hstate.KeepAlive? then p.flags.(keepAlive := true)
    else if p.hstate.Close? then p.flags.(close := true)
    else if p.hstate.Chunked? then p.flags.(chunked := true)
    else p.flags
  }

  function StepValue(p: Parser, ch: char): Micro {
    if p.state.HeaderValueDiscardWs? then
      (if ch == ' ' || ch == '\t' then Keep(p)
      else if ch == CR then Go(p, HeaderValueDiscardWsAlmostDone)
      else if ch == LF then Go(p, HeaderValueDiscardLws)
      else StepValueStart(p, ch))
    else if p.state.HeaderValueStart? then StepValueStart(p, ch)
    else if p.state.HeaderValue? then
      (if ch == CR then Micro(p.(state := HeaderAlmostDone), Flush(ValueData), Consume)
      else if ch == LF then Micro(p.(state := HeaderAlmostDone), Flush(ValueData), Again)
      else ValueByte(p, ch))
    else if p.state.HeaderAlmostDone? then Expect(p, ch == LF, HeaderValueLws)
    else if p.state.HeaderValueLws? then
      (if ch == ' ' || ch == '\t' then Micro(p.(state := HeaderValueStart), Quiet, Again)
      else Micro(p.(flags := HeaderFlags(p), state := HeaderFieldStart), Quiet, Again))
    else if p.state.HeaderValueDiscardWsAlmostDone? then Expect(p, ch == LF, HeaderValueDiscardLws)
    else if p.state.HeaderValueDiscardLws? then
      (if ch == ' ' || ch == '\t' then Go(p, HeaderValueDiscardWs)
      else Micro(p.(state := HeaderFieldStart), EmptyValue, Again))
    else Keep(p)
  }

  // ----- end of headers, bodies and chunks

  function Complete(p: Parser, next: Next): Micro {
    Micro(p.(state := NewMessage(p)), Note(MessageComplete), next)
  }

  function StepHeadersEnd(p: Parser, ch: char): Micro {
    if ch != LF then Err(p, Strict)
    else if p.state.HeadersAlmostDone? then
      if p.flags.trailing then Complete(p, Consume)
      else Micro(p.(state := HeadersDone, upgrade := p.flags.upgrade || p.verb.CONNECT?), Note(HeadersComplete), Again)
    else
      if p.upgrade then Complete(p, Exit)
      else if p.flags.skipBody then Complete(p, Consume)
      else if p.flags.chunked then Go(p, ChunkSizeStart)
      else if p.contentLength == 0 then Complete(p, Consume)
      else if p.contentLength != ULLONG_MAX then Go(p, BodyIdentity)
      else if p.kind.Request? || !NeedsEof(p) then Complete(p, Consume)
      else Go(p, BodyIdentityEof)
  }

  function StepBody(p: Parser, ch: char): Micro {
    if p.state.BodyIdentity? then
      (if p.contentLength > 1 then Micro(p.(contentLength := p.contentLength - 1), Mark(BodyData), Consume)
      else Micro(p.(contentLength := 0, state := MessageDone), MarkFlush(BodyData), Again))
    else if p.state.BodyIdentityEof? then Micro(p, Mark(BodyData), Consume)
    else if p.state.MessageDone? then Complete(p, Consume)
    else Keep(p)
  }

  function StepChunk(p: Parser, ch: char): Micro {
    if p.state.ChunkSizeStart? then
      (if Unhex(ch) < 0 then Err(p, InvalidChunkSize)
      else Go(p.(contentLength := Unhex(ch)), ChunkSize))
    else if p.state.ChunkSize? then
      (if ch == CR then Go(p, ChunkSizeAlmostDone)
      else if Unhex(ch) < 0 then
        if ch == ';' || ch == ' ' then Go(p, ChunkParameters) else Err(p, InvalidChunkSize)
      else if HEX_LIMIT < p.contentLength then Err(p, InvalidContentLength)
      else Keep(p.(contentLength := p.contentLength * 16 + Unhex(ch))))
    else if p.state.ChunkParameters? then
      (if ch == CR then Go(p, ChunkSizeAlmostDone) else Keep(p))
    else if p.state.ChunkSizeAlmostDone? then
      (if ch != LF then Err(p, Strict)
      else if p.contentLength == 0 then
        Go(p.(flags := p.flags.(trailing := true)), HeaderFieldStart)
      else Go(p, ChunkData))
    else if p.state.ChunkData? then
      (if p.contentLength > 1 then Micro(p.(contentLength := p.contentLength - 1), Mark(BodyData), Consume)
      else Micro(p.(contentLength := 0, state := ChunkDataAlmostDone), Mark(BodyData), Consume))
    else if p.state.ChunkDataAlmostDone? then
      (if ch != CR then Err(p, Strict) else Micro(p.(state := ChunkDataDone), Flush(BodyData), Consume))
    else if p.state.ChunkDataDone? then Expect(p, ch == LF, ChunkSizeStart)
    else Keep(p)
  }

  // ----- the whole switch

  datatype Section = InStart | InStatusLine | InMethod | InUrl | InRequestLine
                   | InFieldStart | InField | InValue | InHeadersEnd | InBody | InChunk

  predicate UrlState(s: State) {
    s.ReqSchema? || s.ReqSchemaSlash? || s.ReqSchemaSlashSlash? || s.ReqServerStart? || s.ReqServer?
    || s.ReqServerWithAt? || s.ReqPath? || s.ReqQueryStart? || s.ReqQuery? || s.ReqFragmentStart? || s.ReqFragment?
  }

  function SectionOf(s: State): Section {
    if s.Dead? || s.StartReqOrRes? || s.ResOrRespH? || s.StartRes? || s.StartReq? then InStart
    else if s.ReqMethod? then InMethod
    else if s.ReqSpacesBeforeUrl? || UrlState(s) then InUrl
    else if s.ReqHttpStart? || s.ReqHttpH? || s.ReqHttpHT? || s.ReqHttpHTT? || s.ReqHttpHTTP? || s.ReqFirstMajor?
      || s.ReqMajor? || s.ReqFirstMinor? || s.ReqMinor? || s.ReqLineAlmostDone? then InRequestLine
    else if s.HeaderFieldStart? then InFieldStart
    else if s.HeaderField? then InField
    else if s.HeaderValueDiscardWs? || s.HeaderValueDiscardWsAlmostDone? || s.HeaderValueDiscardLws?
      || s.HeaderValueStart? || s.HeaderValue? || s.HeaderValueLws? || s.HeaderAlmostDone? then InValue
    else if s.HeadersAlmostDone? || s.HeadersDone? then InHeadersEnd
    else if s.ChunkSizeStart? || s.ChunkSize? || s.ChunkParameters? || s.ChunkSizeAlmostDone? || s.ChunkData?
      || s.ChunkDataAlmostDone? || s.ChunkDataDone? then InChunk
    else if s.BodyIdentity? || s.BodyIdentityEof? || s.MessageDone? then InBody
    else InStatusLine
  }

  /** One execution of the switch for the current byte. */
  function Step(p: Parser, ch: char): Micro {
    match SectionOf(p.state)
    case InStart => StepStart(p, ch)
    case InStatusLine => StepStatusLine(p, ch)
    case InMethod => StepMethod(p, ch)
    case InUrl => StepUrl(p, ch)
    case InRequestLine => StepRequestLine(p, ch)
    case InFieldStart => StepFieldStart(p, ch)
    case InField => StepField(p, ch)
    case InValue => StepValue(p, ch)
    case InHeadersEnd => StepHeadersEnd(p, ch)
    case InBody => StepBody(p, ch)
    case InChunk => StepChunk(p, ch)
  }

  /** The header byte counter after a switch execution from state s: three states clear it. */
  function Counter(s: State, nread: nat, next: Next): nat {
    if (s.HeadersDone? || s.ChunkSizeAlmostDone? || s.ChunkDataDone?) && !next.Fail? then 0 else nread
  }
}
