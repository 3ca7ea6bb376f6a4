/** What every reachable parser satisfies, and that none of the assertions inside
    http_parser_execute can fail, whatever the input. */
module HttpInvariant {
  import opened HttpTypes
  import opened HttpMachine
  import opened HttpRun

  /** The header states the field name switch knows, with the matcher inside its word. */
  predicate FieldState(h: HState, index: nat) {
    if h.HC? then index == 0
    else if h.HCO? then index == 1
    else if h.HCON? then index == 2
    else if MatchingField(h) then index < |WordOf(h)|
    else h.General? || h.Connection? || h.ContentLength? || h.TransferEncoding? || h.UpgradeHeader?
  }

  predicate ValueState(h: HState, index: nat) {
    if MatchingValue(h) then index < |WordOf(h)|
    else h.General? || h.ContentLength? || h.Chunked? || h.KeepAlive? || h.Close?
  }

  /** The states that promise something about the other fields. */
  predicate Promising(s: State) {
    s.ReqMethod? || s.HeaderField? || s.HeaderValue? || s.BodyIdentity? || s.MessageDone? || SectionOf(s).InChunk?
  }

  /** What they promise. */
  predicate Keeps(p: Parser) {
    if p.state.ReqMethod? then 1 <= p.index <= |MethodString(p.verb)|
    else if p.state.HeaderField? then FieldState(p.hstate, p.index)
    else if p.state.HeaderValue? then
      ValueState(p.hstate, p.index) && (p.hstate.ContentLength? ==> p.contentLength < ULLONG_MAX)
    else if p.state.BodyIdentity? then 0 < p.contentLength < ULLONG_MAX
    else if p.state.MessageDone? then p.contentLength == 0
    else
      && p.flags.chunked
      && (p.state.ChunkSize? || p.state.ChunkParameters? || p.state.ChunkSizeAlmostDone? ==>
            p.contentLength < ULLONG_MAX)
      && (p.state.ChunkData? ==> 0 < p.contentLength < ULLONG_MAX)
      && (p.state.ChunkDataAlmostDone? ==> p.contentLength == 0)
  }

  predicate Fits(p: Parser) { Promising(p.state) ==> Keeps(p) }

  /** Every field stays inside the width the struct gives it. */
  predicate InWidth(p: Parser) {
    p.index <= 20 && p.contentLength <= ULLONG_MAX && p.major <= 999 && p.minor <= 999 && p.status <= 999
  }

  predicate Sane(p: Parser) { Fits(p) && InWidth(p) }

  /** The invariant between two bytes. */
  predicate Inv(p: Parser, nread: nat) {
    Sane(p) && nread <= MAX_HEADER_SIZE && (p.state.ChunkSizeStart? ==> nread == 0)
  }

  /** The assertions that the switch evaluates before it handles byte ch. */
  predicate Asserts(p: Parser, nread: nat, ch: char) {
    if p.state.HeaderField? then IsToken(ch) ==> FieldState(p.hstate, p.index)
    else if p.state.HeaderValue? then ch != CR && ch != LF ==> !p.hstate.Connection? && !p.hstate.TransferEncoding?
    else if p.state.BodyIdentity? then p.contentLength != 0 && p.contentLength != ULLONG_MAX
    else if p.state.ChunkSizeStart? then nread == 1 && p.flags.chunked
    else if p.state.ChunkSize? then p.flags.chunked
    else if p.state.ChunkParameters? then p.flags.chunked
    else if p.state.ChunkSizeAlmostDone? then p.flags.chunked
    else if p.state.ChunkData? then p.flags.chunked && p.contentLength != 0 && p.contentLength != ULLONG_MAX
    else if p.state.ChunkDataAlmostDone? then p.flags.chunked && p.contentLength == 0
    else if p.state.ChunkDataDone? then p.flags.chunked
    else true
  }

  lemma SaneStart(p: Parser, ch: char)
    requires Sane(p)
    ensures var m := StepStart(p, ch); SectionOf(p.state).InStart? && !m.next.Fail? ==> Sane(m.p)
  {
  }

  lemma SaneStatusLine(p: Parser, ch: char)
    requires Sane(p)
    ensures var m := StepStatusLine(p, ch); SectionOf(p.state).InStatusLine? && !m.next.Fail? ==> Sane(m.p)
  {
    hide Keeps;
  }

  lemma RerouteInside(m: Method, index: nat, ch: char)
    requires CanReroute(m, index, ch)
    ensures index < |MethodString(Reroute(m, index, ch))|
  {
  }

  lemma SaneMethod(p: Parser, ch: char)
    requires Sane(p)
    ensures var m := StepMethod(p, ch); p.state.ReqMethod? && !m.next.Fail? ==> Sane(m.p)
  {
    if CanReroute(p.verb, p.index, ch) {
      RerouteInside(p.verb, p.index, ch);
    }
    assert |MethodString(p.verb)| <= 11;
  }

  lemma UrlCharState(s: State, ch: char)
    ensures var t := ParseUrlChar(s, ch); t.Dead? || UrlState(t)
  {
    hide IsAlpha, IsUserinfoChar, IsUrlChar;
  }

  lemma SaneUrl(p: Parser, ch: char)
    requires Sane(p) && SectionOf(p.state).InUrl?
    ensures var m := StepUrl(p, ch); !m.next.Fail? ==> Sane(m.p)
  {
    UrlCharState(p.state, ch);
    UrlCharState(ReqServerStart, ch);
    UrlCharState(ReqSpacesBeforeUrl, ch);
    hide ParseUrlChar, Keeps;
  }

  lemma SaneRequestLine(p: Parser, ch: char)
    requires Sane(p)
    ensures var m := StepRequestLine(p, ch); SectionOf(p.state).InRequestLine? && !m.next.Fail? ==> Sane(m.p)
  {
    hide Keeps;
  }

  /** A word matcher stays inside its word as long as it is matching. */
  lemma MatchBounds(p: Parser, code: nat)
    requires p.index < |WordOf(p.hstate)|
    ensures var q := Match(p, code);
            && q == p.(index := p.index + 1, hstate := q.hstate)
            && (q.hstate.General? || q.hstate == HitOf(p.hstate)
                || (q.hstate == p.hstate && q.index < |WordOf(q.hstate)|))
  {
    hide WordOf, HitOf;
  }

  lemma LongWords()
    ensures |WordOf(MatchingConnection)| > 3 && |WordOf(MatchingContentLength)| > 3
    ensures |WordOf(MatchingProxyConnection)| > 0 && |WordOf(MatchingTransferEncoding)| > 0
    ensures |WordOf(MatchingUpgrade)| > 0
    ensures |WordOf(MatchingChunked)| > 0 && |WordOf(MatchingKeepAlive)| > 0 && |WordOf(MatchingClose)| > 0
  {
  }

  lemma FieldByteSane(p: Parser, c: char)
    requires FieldState(p.hstate, p.index) && p.index <= 20
    ensures var q := FieldByte(p, c);
            q == p.(index := q.index, hstate := q.hstate) && FieldState(q.hstate, q.index) && q.index <= 20
  {
    LongWords();
    if MatchingField(p.hstate) {
      MatchBounds(p, c as int);
    }
    hide Match, WordOf;
  }

  lemma SaneFieldStart(p: Parser, ch: char)
    requires Sane(p) && p.state.HeaderFieldStart?
    ensures var m := StepFieldStart(p, ch); !m.next.Fail? ==> Sane(m.p)
  {
    LongWords();
    hide WordOf, IsToken, ToLower, MethodString, ValueState;
  }

  lemma SaneField(p: Parser, ch: char)
    requires Sane(p) && p.state.HeaderField?
    ensures var m := StepField(p, ch); !m.next.Fail? ==> Sane(m.p)
  {
    FieldByteSane(p, ToLower(ch));
    hide FieldByte, FieldState, IsToken, ToLower, MethodString, ValueState;
  }

  lemma ValueByteSane(p: Parser, ch: char)
    requires Sane(p) && p.state.HeaderValue?
    ensures var m := ValueByte(p, ch); !m.next.Fail? ==> Sane(m.p) && m.p.state.HeaderValue?
  {
    if MatchingValue(p.hstate) {
      MatchBounds(p, Lower(ch));
    }
    hide Match, WordOf, Lower, MethodString, FieldState;
  }

  lemma ValueStartSane(p: Parser, ch: char)
    requires Sane(p)
    ensures var m := StepValueStart(p, ch); !m.next.Fail? ==> Sane(m.p)
  {
    LongWords();
    hide Lower, WordOf, MethodString, FieldState;
  }

  lemma SaneInValue(p: Parser, ch: char)
    requires Sane(p) && p.state.HeaderValue?
    ensures var m := StepValue(p, ch); !m.next.Fail? ==> Sane(m.p)
  {
    ValueByteSane(p, ch);
    hide ValueByte, StepValueStart, Keeps, HeaderFlags;
  }

  lemma SaneAroundValue(p: Parser, ch: char)
    requires Sane(p) && SectionOf(p.state).InValue? && !p.state.HeaderValue?
    ensures var m := StepValue(p, ch); !m.next.Fail? ==> Sane(m.p)
  {
    ValueStartSane(p, ch);
    hide ValueByte, StepValueStart, Keeps, HeaderFlags;
  }

  lemma SaneHeadersEnd(p: Parser, ch: char)
    requires Sane(p)
    ensures var m := StepHeadersEnd(p, ch); SectionOf(p.state).InHeadersEnd? && !m.next.Fail? ==> Sane(m.p)
  {
    hide NeedsEof, ShouldKeepAlive;
  }

  lemma SaneBody(p: Parser, ch: char)
    requires Sane(p)
    ensures var m := StepBody(p, ch); SectionOf(p.state).InBody? && !m.next.Fail? ==> Sane(m.p)
  {
    hide ShouldKeepAlive;
  }

  lemma SaneChunk(p: Parser, ch: char)
    requires Sane(p)
    ensures var m := StepChunk(p, ch); SectionOf(p.state).InChunk? && !m.next.Fail? ==> Sane(m.p)
  {
    assert Unhex(ch) < 16;
    hide Unhex;
  }

  /** Every switch execution that does not fail keeps the parser sane. */
  lemma StepSane(p: Parser, ch: char)
    requires Sane(p)
    ensures var m := Step(p, ch); !m.next.Fail? ==> Sane(m.p)
  {
    SaneStart(p, ch);
    SaneStatusLine(p, ch);
    SaneMethod(p, ch);
    if SectionOf(p.state).InUrl? {
      SaneUrl(p, ch);
    }
    SaneRequestLine(p, ch);
    if p.state.HeaderFieldStart? {
      SaneFieldStart(p, ch);
    } else if p.state.HeaderField? {
      SaneField(p, ch);
    } else if p.state.HeaderValue? {
      SaneInValue(p, ch);
    } else if SectionOf(p.state).InValue? {
      SaneAroundValue(p, ch);
    }
    SaneHeadersEnd(p, ch);
    SaneBody(p, ch);
    SaneChunk(p, ch);
    hide Sane, StepStart, StepStatusLine, StepMethod, StepUrl, StepRequestLine, StepFieldStart, StepField,
         StepValue, StepHeadersEnd, StepBody, StepChunk;
  }

  // ----- the callback history that goes with a state

  datatype Collecting = Nothing | Of(datum: Datum)

  /** The datum, other than body bytes, that is being collected in a state. */
  function Collects(s: State): Collecting {
    if s.HeaderField? then Of(FieldData)
    else if s.HeaderValue? then Of(ValueData)
    else if s.ResStatus? then Of(StatusData)
    else if UrlState(s) then Of(UrlData)
    else Nothing
  }

  predicate CollectsThe(s: State, d: Datum) { Collects(s).Of? && Collects(s).datum == d }

  /** The states in which body bytes are being collected. */
  predicate BodyState(s: State) {
    s.BodyIdentity? || s.BodyIdentityEof? || s.ChunkData? || s.ChunkDataAlmostDone?
  }

  /** In the middle of a datum, the last thing reported is a part of that datum. */
  predicate LogFits(s: State, log: Log) { Collects(s).Of? ==> EndsWith(log, Collects(s).datum) }

  /** What an execution of the switch does to the open run of data bytes: it opens or extends a
      run only of the datum of the state it goes to, and a run ends exactly where it is reported.
      A chunk size starts only behind headers or behind a chunk. */
  predicate ActFits(s: State, act: Act, t: State) {
    (t.ChunkSizeStart? ==> s.HeadersDone? || s.ChunkDataDone?) &&
    match act
    case Quiet => Collects(s).Nothing? && Collects(t).Nothing? && !BodyState(s)
    case Note(_) => Collects(s).Nothing? && Collects(t).Nothing? && !BodyState(s)
    case EmptyValue => Collects(s).Nothing? && Collects(t).Nothing? && !BodyState(s) && !BodyState(t)
    case MarkFlush(d) => d.BodyData? && s.BodyIdentity? && t.MessageDone?
    case Flush(d) => Collects(t).Nothing? && !BodyState(t)
                     && if d.BodyData? then s.ChunkDataAlmostDone? else CollectsThe(s, d)
    case Stay(d) => !d.BodyData? && CollectsThe(s, d) && CollectsThe(t, d)
    case Mark(d) => if d.BodyData? then BodyState(s) && BodyState(t)
                    else Collects(s).Nothing? && !BodyState(s) && CollectsThe(t, d)
  }

  /** Moreover, a byte of data is consumed with the switch execution that recognises it as data,
      and a failing execution reports nothing. */
  predicate Fine(s: State, m: Micro) {
    && (m.act.Mark? || m.act.Stay? ==> m.next.Consume?)
    && (m.next.Exit? ==> m.act.Note?)
    && if m.next.Fail? then m.act.Quiet? && !m.next.errno.OK? && !m.next.errno.Paused?
       else ActFits(s, m.act, m.p.state)
  }

  lemma ActStart(p: Parser, ch: char)
    ensures var m := StepStart(p, ch); SectionOf(p.state).InStart? ==> Fine(p.state, m)
  {
  }

  lemma ActStatusLine(p: Parser, ch: char)
    ensures var m := StepStatusLine(p, ch);
            SectionOf(p.state).InStatusLine? ==> Fine(p.state, m)
  {
    hide Version;
  }

  lemma ActMethod(p: Parser, ch: char)
    ensures var m := StepMethod(p, ch); p.state.ReqMethod? ==> Fine(p.state, m)
  {
    hide MethodString, Reroute, CanReroute;
  }

  lemma ActUrl(p: Parser, ch: char)
    ensures var m := StepUrl(p, ch); SectionOf(p.state).InUrl? ==> Fine(p.state, m)
  {
    UrlCharState(p.state, ch);
    UrlCharState(ReqServerStart, ch);
    UrlCharState(ReqSpacesBeforeUrl, ch);
    hide ParseUrlChar;
  }

  lemma ActRequestLine(p: Parser, ch: char)
    ensures var m := StepRequestLine(p, ch);
            SectionOf(p.state).InRequestLine? ==> Fine(p.state, m)
  {
    hide Version;
  }

  lemma ActFieldStart(p: Parser, ch: char)
    ensures var m := StepFieldStart(p, ch); p.state.HeaderFieldStart? ==> Fine(p.state, m)
  {
    hide IsToken, ToLower;
  }

  lemma ActField(p: Parser, ch: char)
    ensures var m := StepField(p, ch); p.state.HeaderField? ==> Fine(p.state, m)
  {
    assert FieldByte(p, ToLower(ch)).state == p.state by { hide WordOf, HitOf, ToLower, IsToken; }
    hide FieldByte, IsToken, ToLower;
  }

  lemma ValueByteAct(p: Parser, ch: char)
    ensures var m := ValueByte(p, ch);
            if m.next.Fail? then m.act.Quiet? && m.next.errno.InvalidContentLength?
            else m.next.Consume? && m.act == Stay(ValueData) && m.p.state == p.state
  {
    hide Lower, WordOf, HitOf;
  }

  lemma ValueStartAct(p: Parser, ch: char)
    ensures var m := StepValueStart(p, ch);
            if m.next.Fail? then m.act.Quiet? && m.next.errno.InvalidContentLength?
            else m.next.Consume? && m.act == Mark(ValueData) && m.p.state.HeaderValue?
  {
    hide Lower;
  }

  lemma ActValue(p: Parser, ch: char)
    ensures var m := StepValue(p, ch); SectionOf(p.state).InValue? ==> Fine(p.state, m)
  {
    ValueByteAct(p, ch);
    ValueStartAct(p, ch);
    hide ValueByte, StepValueStart, HeaderFlags;
  }

  lemma ActBody(p: Parser, ch: char)
    ensures var m := StepHeadersEnd(p, ch);
            SectionOf(p.state).InHeadersEnd? ==> Fine(p.state, m)
    ensures var m := StepBody(p, ch); SectionOf(p.state).InBody? ==> Fine(p.state, m)
    ensures var m := StepChunk(p, ch); SectionOf(p.state).InChunk? ==> Fine(p.state, m)
  {
    hide NeedsEof, ShouldKeepAlive, Unhex;
  }

  lemma StepAct(p: Parser, ch: char)
    ensures var m := Step(p, ch); Fine(p.state, m)
  {
    ActStart(p, ch);
    ActStatusLine(p, ch);
    ActMethod(p, ch);
    ActUrl(p, ch);
    ActRequestLine(p, ch);
    ActFieldStart(p, ch);
    ActField(p, ch);
    ActValue(p, ch);
    ActBody(p, ch);
    hide Sane, Fine, StepStart, StepStatusLine, StepMethod, StepUrl, StepRequestLine, StepFieldStart, StepField,
         StepValue, StepHeadersEnd, StepBody, StepChunk;
  }

  /** The history keeps fitting the state. */
  lemma LogFitsNext(s: State, log: Log, act: Act, t: State, ch: char)
    requires LogFits(s, log) && ActFits(s, act, t)
    ensures LogFits(t, Emit(log, act, ch))
  {
    hide Collects, BodyState, Push, EndsWith;
    if act.Mark? || act.Stay? {
      PushEnds(log, act.datum, ch);
    }
    BodyCollectsNothing(t);
  }

  lemma PushEnds(log: Log, d: Datum, ch: char)
    ensures EndsWith(Push(log, Data(d, [ch])), d)
  {
  }

  lemma BodyCollectsNothing(s: State)
    ensures BodyState(s) || s.MessageDone? ==> Collects(s).Nothing?
  {
  }

  // ----- whole runs

  /** Every switch execution for byte ch finds its assertions true. */
  predicate BiteSafe(noBody: NoBody, p: Parser, nread: nat, log: Log, ch: char)
    decreases Rank(p.state)
  {
    AgainRank(p, ch);
    var m := Step(p, ch);
    var l := Emit(log, m.act, ch);
    Asserts(p, nread, ch) &&
    (m.next.Again? ==> BiteSafe(noBody, Answered(noBody, l, m), Counter(p.state, nread, m.next), l, ch))
  }

  /** Every switch execution of a run over data finds its assertions true. */
  predicate RunSafe(noBody: NoBody, p: Parser, nread: nat, log: Log, data: string)
    decreases |data|
  {
    data == "" || Overflows(p.state, nread) ||
    (var n := Fetch(p.state, nread);
     var b := Bite(noBody, p, n, log, data[0]);
     BiteSafe(noBody, p, n, log, data[0]) &&
     (b.next.Consume? ==> RunSafe(noBody, b.p, b.nread, b.log, data[1..])))
  }

  /** What holds between two switch executions for the same byte. */
  predicate MidInv(p: Parser, nread: nat) {
    Sane(p) && nread <= MAX_HEADER_SIZE && (p.state.ChunkSizeStart? ==> nread == 1)
  }

  lemma SaneAsserts(p: Parser, nread: nat, ch: char)
    requires MidInv(p, nread)
    ensures Asserts(p, nread, ch)
  {
  }

  /** ChunkSizeStart is entered with a cleared counter, and never for the byte at hand. */
  lemma ChunkStartCleared(p: Parser, nread: nat, ch: char)
    requires ActFits(p.state, Step(p, ch).act, Step(p, ch).p.state)
    ensures var m := Step(p, ch);
            m.p.state.ChunkSizeStart? && !m.next.Fail? ==> !m.next.Again? && Counter(p.state, nread, m.next) == 0
  {
    AgainRank(p, ch);
    hide Step;
  }

  lemma StepInv(noBody: NoBody, p: Parser, nread: nat, log: Log, ch: char)
    requires MidInv(p, nread) && LogFits(p.state, log)
    ensures var m := Step(p, ch);
            var l := Emit(log, m.act, ch);
            var q := Answered(noBody, l, m);
            var n := Counter(p.state, nread, m.next);
            && (!m.next.Fail? ==> LogFits(q.state, l) && Inv(q, n))
            && (m.next.Again? ==> MidInv(q, n))
  {
    StepSane(p, ch);
    StepAct(p, ch);
    var m := Step(p, ch);
    hide Step, ActFits, LogFits;
    if !m.next.Fail? {
      ChunkStartCleared(p, nread, ch);
      LogFitsNext(p.state, log, m.act, m.p.state, ch);
    }
  }

  lemma {:induction false} BiteInv(noBody: NoBody, p: Parser, nread: nat, log: Log, ch: char)
    requires MidInv(p, nread) && LogFits(p.state, log)
    ensures BiteSafe(noBody, p, nread, log, ch)
    ensures var b := Bite(noBody, p, nread, log, ch); !b.next.Fail? ==> Inv(b.p, b.nread) && LogFits(b.p.state, b.log)
    decreases Rank(p.state)
  {
    StepInv(noBody, p, nread, log, ch);
    SaneAsserts(p, nread, ch);
    AgainRank(p, ch);
    var m := Step(p, ch);
    hide Step, MidInv, LogFits, Asserts, Inv;
    if m.next.Again? {
      var l := Emit(log, m.act, ch);
      BiteInv(noBody, Answered(noBody, l, m), Counter(p.state, nread, m.next), l, ch);
    }
  }

  lemma FetchInv(p: Parser, nread: nat)
    requires Inv(p, nread) && !Overflows(p.state, nread)
    ensures MidInv(p, Fetch(p.state, nread))
  {
  }

  /** No assertion fails on any input, and a run that does not fail ends in a good parser. */
  lemma {:induction false} RunInv(noBody: NoBody, p: Parser, nread: nat, log: Log, data: string)
    requires Inv(p, nread) && LogFits(p.state, log)
    ensures RunSafe(noBody, p, nread, log, data)
    ensures var r := RunBytes(noBody, p, nread, log, data);
            !r.stop.Failed? ==> Inv(r.p, r.nread) && LogFits(r.p.state, r.log)
    decreases |data|
  {
    hide Inv, LogFits, MidInv, Bite, BiteSafe;
    if data != "" && !Overflows(p.state, nread) {
      FetchInv(p, nread);
      var n := Fetch(p.state, nread);
      BiteInv(noBody, p, n, log, data[0]);
      var b := Bite(noBody, p, n, log, data[0]);
      if b.next.Consume? {
        RunInv(noBody, b.p, b.nread, b.log, data[1..]);
      }
    }
  }

  /** A freshly initialised parser is good. */
  lemma InitInv(kind: Kind)
    ensures Inv(Init(kind), 0) && LogFits(Init(kind).state, [])
  {
  }
}
