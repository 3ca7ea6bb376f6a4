/** The shape of the callback trace of every run: messages one after the other, each with one end of its
    headers and, only behind that, its body. */
module HttpTrace {
  import opened HttpTypes
  import opened HttpMachine
  import opened HttpRun
  import opened HttpInvariant
  import opened HttpParser

  /** Where in a message a trace is: between messages, behind the begin of one, in its headers, in its body
      or in the trailer behind the body; or not in any order. */
  datatype Phase = Outside | Begun | Heading | Delivering | Trailing | Wrong

  function AfterData(ph: Phase, d: Datum): Phase {
    if ph.Begun? || ph.Heading? then if d.BodyData? then Wrong else Heading
    else if ph.Delivering? && d.BodyData? then Delivering
    else if (ph.Delivering? || ph.Trailing?) && (d.FieldData? || d.ValueData?) then Trailing
    else Wrong
  }

  function AfterNotice(ph: Phase, n: Notice): Phase {
    match n
    case MessageBegin => if ph.Outside? || ph.Begun? then Begun else Wrong
    case HeadersComplete => if ph.Begun? || ph.Heading? then Delivering else Wrong
    case MessageComplete => if ph.Delivering? || ph.Trailing? then Outside else Wrong
  }

  function AfterCall(ph: Phase, c: Call): Phase {
    if c.Data? then AfterData(ph, c.datum) else AfterNotice(ph, c.notice)
  }

  function PhaseOf(log: Log): Phase {
    if log == [] then Outside else AfterCall(PhaseOf(log[..|log| - 1]), log[|log| - 1])
  }

  lemma PhaseAppend(log: Log, c: Call)
    ensures PhaseOf(log + [c]) == AfterCall(PhaseOf(log), c)
  {
    assert (log + [c])[..|log + [c]| - 1] == log;
  }

  /** Merging data callbacks does not matter. */
  lemma PhasePush(log: Log, c: Call)
    ensures PhaseOf(Push(log, c)) == AfterCall(PhaseOf(log), c)
  {
    hide PhaseOf, AfterData, AfterNotice;
    PhaseAppend(log, c);
    if c.Data? && EndsWith(log, c.datum) {
      var before, last := log[..|log| - 1], log[|log| - 1];
      PhaseAppend(before, Data(c.datum, last.bytes + c.bytes));
      PhaseAppend(before, last);
      assert before + [last] == log;
      DataAgain(PhaseOf(before), c.datum);
    }
  }

  lemma DataAgain(ph: Phase, d: Datum)
    ensures AfterData(AfterData(ph, d), d) == AfterData(ph, d)
  {
  }

  // ----- the phase that goes with a state

  /** The parts of a message, by the states in which they are read. */
  datatype Area = AtStart | OnLine | OnFields | OnBody

  function AreaOf(s: State): Area {
    if s.Dead? || s.StartReqOrRes? || s.StartRes? || s.StartReq? then AtStart
    else if s.HeaderFieldStart? || s.HeaderField? || s.HeaderValueDiscardWs? || s.HeaderValueDiscardWsAlmostDone?
      || s.HeaderValueDiscardLws? || s.HeaderValueStart? || s.HeaderValue? || s.HeaderValueLws? || s.HeaderAlmostDone?
      || s.HeadersAlmostDone? then OnFields
    else if s.HeadersDone? || s.BodyIdentity? || s.BodyIdentityEof? || s.MessageDone? || s.ChunkSizeStart?
      || s.ChunkSize? || s.ChunkParameters? || s.ChunkSizeAlmostDone? || s.ChunkData? || s.ChunkDataAlmostDone?
      || s.ChunkDataDone? then OnBody
    else OnLine
  }

  /** Header fields are read in front of a body or, with trailing set, behind it. */
  predicate PhaseFits(s: State, trailing: bool, ph: Phase) {
    match AreaOf(s)
    case AtStart => ph.Outside? || (s.StartRes? && ph.Begun?)
    case OnLine => (ph.Begun? || ph.Heading?) && !trailing
    case OnFields => if trailing then ph.Delivering? || ph.Trailing? else ph.Begun? || ph.Heading?
    case OnBody => ph.Delivering?
  }

  function AfterAct(ph: Phase, act: Act): Phase {
    match act
    case Quiet => ph
    case Mark(d) => AfterData(ph, d)
    case Stay(d) => AfterData(ph, d)
    case MarkFlush(d) => AfterData(ph, d)
    case Flush(_) => ph
    case EmptyValue => AfterData(ph, ValueData)
    case Note(n) => AfterNotice(ph, n)
  }

  lemma PhaseEmit(log: Log, act: Act, ch: char)
    ensures PhaseOf(Emit(log, act, ch)) == AfterAct(PhaseOf(log), act)
  {
    hide PhaseOf, Push, AfterData, AfterNotice;
    match act
    case Mark(d) => PhasePush(log, Data(d, [ch]));
    case Stay(d) => PhasePush(log, Data(d, [ch]));
    case MarkFlush(d) => PhasePush(log, Data(d, [ch]));
    case EmptyValue => PhasePush(log, Data(ValueData, ""));
    case Note(n) => PhaseAppend(log, Notify(n));
    case _ =>
  }

  predicate InPhase(p: Parser, ph: Phase) { PhaseFits(p.state, p.flags.trailing, ph) }

  predicate StaysFit(ph: Phase, m: Micro) { m.next.Fail? || InPhase(m.p, AfterAct(ph, m.act)) }

  // ----- where each section of the switch leads

  /** No notice is given, and the message is in one of two areas. */
  predicate LeadsTo(p: Parser, m: Micro, a: Area, b: Area) {
    || m.next.Fail?
    || (&& !m.act.Note? && m.p.flags.trailing == p.flags.trailing && (AreaOf(m.p.state) == a || AreaOf(m.p.state) == b)
        && (m.act.EmptyValue? ==> AreaOf(p.state) == OnFields))
  }

  lemma StatusLineLeads(p: Parser, ch: char)
    requires SectionOf(p.state).InStatusLine?
    ensures LeadsTo(p, StepStatusLine(p, ch), OnLine, OnFields)
  {
    hide Version;
  }

  lemma RequestLineLeads(p: Parser, ch: char)
    ensures p.state.ReqMethod? ==> LeadsTo(p, StepMethod(p, ch), OnLine, OnFields)
    ensures SectionOf(p.state).InRequestLine? ==> LeadsTo(p, StepRequestLine(p, ch), OnLine, OnFields)
  {
    hide Version, MethodString, Reroute, CanReroute;
  }

  lemma UrlLeads(p: Parser, ch: char)
    requires SectionOf(p.state).InUrl?
    ensures LeadsTo(p, StepUrl(p, ch), OnLine, OnFields)
  {
    UrlCharState(p.state, ch);
    UrlCharState(ReqServerStart, ch);
    UrlCharState(ReqSpacesBeforeUrl, ch);
    hide ParseUrlChar;
  }

  lemma FieldLeads(p: Parser, ch: char)
    ensures p.state.HeaderFieldStart? ==> LeadsTo(p, StepFieldStart(p, ch), OnFields, OnFields)
    ensures p.state.HeaderField? ==> LeadsTo(p, StepField(p, ch), OnFields, OnFields)
  {
    FieldByteKeeps(p, ToLower(ch));
    hide IsToken, ToLower, FieldByte;
  }

  lemma FieldByteKeeps(p: Parser, c: char)
    ensures var q := FieldByte(p, c); q.state == p.state && q.flags == p.flags
  {
    hide WordOf, HitOf;
  }

  lemma ValueLeads(p: Parser, ch: char)
    requires SectionOf(p.state).InValue?
    ensures LeadsTo(p, StepValue(p, ch), OnFields, OnFields)
  {
    ValueKeeps(p, ch);
    hide ValueByte, StepValueStart;
  }

  lemma ValueKeeps(p: Parser, ch: char)
    ensures var m := ValueByte(p, ch);
            m.next.Fail? || (!m.act.Note? && !m.act.EmptyValue? && m.p.state == p.state && m.p.flags == p.flags)
    ensures var m := StepValueStart(p, ch);
            m.next.Fail? || (!m.act.Note? && m.p.state.HeaderValue? && m.p.flags.trailing == p.flags.trailing)
  {
    hide Lower, WordOf, HitOf;
  }

  lemma NewMessageStart(p: Parser)
    ensures AreaOf(NewMessage(p)) == AtStart
  {
  }

  /** The message is complete. */
  predicate Ends(m: Micro) { m.act == Note(MessageComplete) && AreaOf(m.p.state) == AtStart }

  lemma BodyLeads(p: Parser, ch: char)
    requires SectionOf(p.state).InBody?
    ensures LeadsTo(p, StepBody(p, ch), OnBody, OnBody) || Ends(StepBody(p, ch))
  {
    NewMessageStart(p);
    hide NewMessage;
  }

  lemma ChunkLeads(p: Parser, ch: char)
    requires SectionOf(p.state).InChunk?
    ensures var m := StepChunk(p, ch);
            || LeadsTo(p, m, OnBody, OnBody)
            || (m.act.Quiet? && AreaOf(m.p.state) == OnFields && m.p.flags.trailing)
  {
    hide Unhex;
  }

  lemma EndLeads(p: Parser, ch: char)
    requires SectionOf(p.state).InHeadersEnd?
    ensures var m := StepHeadersEnd(p, ch);
            || m.next.Fail?
            || (Ends(m) && (p.state.HeadersDone? || p.flags.trailing))
            || (AreaOf(m.p.state) == OnBody
                && if p.state.HeadersDone? then m.act.Quiet? else !p.flags.trailing && m.act == Note(HeadersComplete))
  {
    NewMessageStart(p);
    hide NewMessage, NeedsEof;
  }

  lemma StartLeads(p: Parser, ch: char)
    requires SectionOf(p.state).InStart?
    ensures var m := StepStart(p, ch);
            || m.next.Fail?
            || (m.act == Note(MessageBegin) && AreaOf(p.state) == AtStart && !m.p.flags.trailing
                && (AreaOf(m.p.state) == OnLine || (p.state.StartRes? && m.p.state.StartRes?)))
            || (m.act.Quiet? && AreaOf(m.p.state) == AreaOf(p.state)
                && if AreaOf(p.state) == AtStart then !p.state.StartRes? && !m.p.state.StartRes?
                   else m.p.flags == p.flags)
  {
    hide IsAlpha, MethodInitial, FirstMethod;
  }

  // ----- the phase along a run

  predicate DatumFits(a: Area, d: Datum) {
    if d.UrlData? || d.StatusData? then a == OnLine else !d.BodyData? && a == OnFields
  }

  /** Data that is reported belongs to the part of the message. */
  predicate DataFits(s: State, act: Act, t: State) {
    match act
    case Mark(d) => if d.BodyData? then AreaOf(s) == OnBody else DatumFits(AreaOf(t), d)
    case Stay(d) => DatumFits(AreaOf(s), d)
    case MarkFlush(d) => d.BodyData? && AreaOf(s) == OnBody
    case _ => true
  }

  lemma DataInPlace(p: Parser, ch: char)
    ensures var m := Step(p, ch); !m.next.Fail? ==> DataFits(p.state, m.act, m.p.state)
  {
    StepAct(p, ch);
    var m := Step(p, ch);
    hide Step;
    if !m.next.Fail? {
      ActInPlace(p.state, m.act, m.p.state);
    }
  }

  lemma CollectsInPlace(s: State)
    ensures Collects(s).Of? ==> DatumFits(AreaOf(s), Collects(s).datum)
    ensures BodyState(s) ==> AreaOf(s) == OnBody
  {
  }

  lemma ActInPlace(s: State, act: Act, t: State)
    requires ActFits(s, act, t)
    ensures DataFits(s, act, t)
  {
    CollectsInPlace(s);
    CollectsInPlace(t);
    hide AreaOf, Collects;
  }

  lemma LeadsFit(p: Parser, m: Micro, ph: Phase)
    requires InPhase(p, ph) && DataFits(p.state, m.act, m.p.state)
    requires match AreaOf(p.state)
             case OnLine => LeadsTo(p, m, OnLine, OnFields)
             case OnFields => LeadsTo(p, m, OnFields, OnFields)
             case OnBody => LeadsTo(p, m, OnBody, OnBody)
             case _ => false
    ensures StaysFit(ph, m)
  {
    hide AreaOf;
  }

  lemma EndsFit(p: Parser, m: Micro, ph: Phase)
    requires InPhase(p, ph) && Ends(m)
    requires AreaOf(p.state) == OnBody || (AreaOf(p.state) == OnFields && p.flags.trailing)
    ensures StaysFit(ph, m)
  {
    hide AreaOf;
  }

  lemma StartFit(p: Parser, ch: char, ph: Phase)
    requires InPhase(p, ph) && SectionOf(p.state).InStart?
    ensures StaysFit(ph, StepStart(p, ch))
  {
    StartLeads(p, ch);
    hide AreaOf, StepStart;
  }

  lemma EndFit(p: Parser, ch: char, ph: Phase)
    requires InPhase(p, ph) && SectionOf(p.state).InHeadersEnd?
    ensures StaysFit(ph, StepHeadersEnd(p, ch))
  {
    EndLeads(p, ch);
    Sections(p.state);
    var m := StepHeadersEnd(p, ch);
    hide AreaOf, StepHeadersEnd;
    if !m.next.Fail? && Ends(m) {
      EndsFit(p, m, ph);
    }
  }

  lemma BodyFit(p: Parser, ch: char, ph: Phase)
    requires InPhase(p, ph) && SectionOf(p.state).InBody?
    requires DataFits(p.state, StepBody(p, ch).act, StepBody(p, ch).p.state)
    ensures StaysFit(ph, StepBody(p, ch))
  {
    BodyLeads(p, ch);
    Sections(p.state);
    hide AreaOf, StepBody, DataFits, LeadsTo;
    if LeadsTo(p, StepBody(p, ch), OnBody, OnBody) {
      LeadsFit(p, StepBody(p, ch), ph);
    } else {
      EndsFit(p, StepBody(p, ch), ph);
    }
  }

  lemma ChunkFit(p: Parser, ch: char, ph: Phase)
    requires InPhase(p, ph) && SectionOf(p.state).InChunk?
    requires !StepChunk(p, ch).next.Fail? ==> DataFits(p.state, StepChunk(p, ch).act, StepChunk(p, ch).p.state)
    ensures StaysFit(ph, StepChunk(p, ch))
  {
    ChunkLeads(p, ch);
    Sections(p.state);
    var m := StepChunk(p, ch);
    hide AreaOf, StepChunk, DataFits, LeadsTo;
    if !m.next.Fail? && LeadsTo(p, m, OnBody, OnBody) {
      LeadsFit(p, m, ph);
    }
  }

  /** Every switch execution keeps the trace in order. */
  lemma StepFits(p: Parser, ch: char, ph: Phase)
    requires InPhase(p, ph)
    ensures StaysFit(ph, Step(p, ch))
  {
    DataInPlace(p, ch);
    Sections(p.state);
    NoFailInBody(p, ch);
    hide AreaOf, DataFits, LeadsTo, InPhase, StaysFit, StepStart, StepStatusLine, StepMethod, StepUrl, StepRequestLine,
         StepFieldStart, StepField, StepValue, StepHeadersEnd, StepBody, StepChunk;
    var m := Step(p, ch);
    if m.next.Fail? {
      FailFits(ph, m);
    } else {
      match SectionOf(p.state)
      case InStart => StartFit(p, ch, ph);
      case InHeadersEnd => EndFit(p, ch, ph);
      case InBody => BodyFit(p, ch, ph);
      case InChunk => ChunkFit(p, ch, ph);
      case InStatusLine =>
        StatusLineLeads(p, ch);
        LeadsFit(p, m, ph);
      case InMethod =>
        RequestLineLeads(p, ch);
        LeadsFit(p, m, ph);
      case InUrl =>
        UrlLeads(p, ch);
        LeadsFit(p, m, ph);
      case InRequestLine =>
        RequestLineLeads(p, ch);
        LeadsFit(p, m, ph);
      case InFieldStart =>
        FieldLeads(p, ch);
        LeadsFit(p, m, ph);
      case InField =>
        FieldLeads(p, ch);
        LeadsFit(p, m, ph);
      case InValue =>
        ValueLeads(p, ch);
        LeadsFit(p, m, ph);
    }
  }

  lemma NoFailInBody(p: Parser, ch: char)
    ensures !StepBody(p, ch).next.Fail?
  {
  }

  lemma FailFits(ph: Phase, m: Micro)
    requires m.next.Fail?
    ensures StaysFit(ph, m)
  {
  }

  lemma Sections(s: State)
    ensures match SectionOf(s)
            case InStart => AreaOf(s) == if s.ResOrRespH? then OnLine else AtStart
            case InFieldStart => AreaOf(s) == OnFields
            case InField => AreaOf(s) == OnFields
            case InValue => AreaOf(s) == OnFields
            case InHeadersEnd => AreaOf(s) == if s.HeadersAlmostDone? then OnFields else OnBody
            case InBody => AreaOf(s) == OnBody
            case InChunk => AreaOf(s) == OnBody
            case _ => AreaOf(s) == OnLine
  {
    HeaderSections(s);
    LineSections(s);
    hide SectionOf, AreaOf;
  }

  lemma HeaderSections(s: State)
    ensures var x := SectionOf(s);
            && (x.InFieldStart? || x.InField? || x.InValue? ==> AreaOf(s) == OnFields)
            && (x.InHeadersEnd? ==> AreaOf(s) == if s.HeadersAlmostDone? then OnFields else OnBody)
            && (x.InBody? || x.InChunk? ==> AreaOf(s) == OnBody)
  {
    hide UrlState;
  }

  lemma LineSections(s: State)
    ensures var x := SectionOf(s);
            && (x.InStart? ==> AreaOf(s) == if s.ResOrRespH? then OnLine else AtStart)
            && (x.InStatusLine? || x.InMethod? || x.InUrl? || x.InRequestLine? ==> AreaOf(s) == OnLine)
  {
  }

  lemma AnsweredFits(noBody: NoBody, log: Log, m: Micro, ph: Phase)
    requires InPhase(m.p, ph)
    ensures InPhase(Answered(noBody, log, m), ph)
  {
    hide PhaseFits;
  }

  lemma {:induction false} BiteFits(noBody: NoBody, p: Parser, nread: nat, log: Log, ch: char)
    requires InPhase(p, PhaseOf(log))
    ensures var b := Bite(noBody, p, nread, log, ch);
            PhaseOf(b.log) != Wrong && (!b.next.Fail? ==> InPhase(b.p, PhaseOf(b.log)))
    decreases Rank(p.state)
  {
    AgainRank(p, ch);
    StepFits(p, ch, PhaseOf(log));
    StepAct(p, ch);
    var m := Step(p, ch);
    InPhaseRight(p, PhaseOf(log));
    hide Step, InPhase, PhaseOf, ActFits;
    var l := Emit(log, m.act, ch);
    PhaseEmit(log, m.act, ch);
    if !m.next.Fail? {
      var q := Answered(noBody, l, m);
      AnsweredFits(noBody, l, m, PhaseOf(l));
      InPhaseRight(q, PhaseOf(l));
      if m.next.Again? {
        BiteFits(noBody, q, Counter(p.state, nread, m.next), l, ch);
      }
    }
  }

  lemma InPhaseRight(p: Parser, ph: Phase)
    requires InPhase(p, ph)
    ensures ph != Wrong
  {
  }

  /** The trace of every run is in order. */
  lemma {:induction false} RunFits(noBody: NoBody, p: Parser, nread: nat, log: Log, data: string)
    requires InPhase(p, PhaseOf(log))
    ensures var r := RunBytes(noBody, p, nread, log, data);
            PhaseOf(r.log) != Wrong && (!r.stop.Failed? ==> InPhase(r.p, PhaseOf(r.log)))
    decreases |data|
  {
    hide Bite, InPhase, PhaseOf;
    InPhaseRight(p, PhaseOf(log));
    if data != "" && !Overflows(p.state, nread) {
      var n := Fetch(p.state, nread);
      BiteFits(noBody, p, n, log, data[0]);
      var b := Bite(noBody, p, n, log, data[0]);
      if b.next.Consume? {
        RunFits(noBody, b.p, b.nread, b.log, data[1..]);
      }
    }
  }

  // ----- what it means

  predicate HeadDatum(c: Call) { c.Data? && !c.datum.BodyData? }

  predicate BodyDatum(c: Call) { c.Data? && c.datum.BodyData? }

  predicate FieldDatum(c: Call) { c.Data? && (c.datum.FieldData? || c.datum.ValueData?) }

  /** From b to h, a message begins and its headers are reported. */
  ghost predicate Headed(log: Log, b: nat, h: nat) {
    b < h <= |log| && log[b] == Notify(MessageBegin) && forall k :: b < k < h ==> HeadDatum(log[k])
  }

  /** From h to j, the headers are complete and the body is reported, and from t on a trailer. */
  ghost predicate Bodied(log: Log, h: nat, t: nat, j: nat) {
    && h < t <= j <= |log| && log[h] == Notify(HeadersComplete)
    && (forall k :: h < k < t ==> BodyDatum(log[k])) && (forall k :: t <= k < j ==> FieldDatum(log[k]))
  }

  /** The message under way at the end of a trace. */
  ghost predicate UnderWay(log: Log, ph: Phase, b: nat, h: nat, t: nat) {
    if ph.Begun? then Headed(log, b, |log|) && b == |log| - 1
    else if ph.Heading? then Headed(log, b, |log|)
    else Headed(log, b, h) && Bodied(log, h, t, |log|) && (ph.Delivering? ==> t == |log|)
  }

  lemma {:induction false} MessageUnderWay(log: Log) returns (b: nat, h: nat, t: nat)
    requires PhaseOf(log) != Wrong && PhaseOf(log) != Outside
    ensures UnderWay(log, PhaseOf(log), b, h, t)
    decreases |log|
  {
    var n := |log| - 1;
    var before, c := log[..n], log[n];
    var was, ph := PhaseOf(before), PhaseOf(log);
    b, h, t := n, n, |log|;
    if !ph.Begun? {
      assert was != Wrong && was != Outside;
      b, h, t := MessageUnderWay(before);
      if c.Notify? {
        h, t := n, |log|;
      } else if ph.Delivering? {
        t := |log|;
      } else if was.Delivering? {
        t := n;
      }
    }
  }

  /** A trace that is in order was in order all along. */
  lemma {:induction false} RightBefore(log: Log, k: nat)
    requires PhaseOf(log) != Wrong && k <= |log|
    ensures PhaseOf(log[..k]) != Wrong
    decreases |log|
  {
    if k == |log| {
      assert log[..k] == log;
    } else {
      var before := log[..|log| - 1];
      RightBefore(before, k);
      assert before[..k] == log[..k];
    }
  }

  /** The call at i of a trace that is in order. */
  lemma CallAt(log: Log, i: nat)
    requires PhaseOf(log) != Wrong && i < |log|
    ensures var ph := PhaseOf(log[..i]); ph != Wrong && AfterCall(ph, log[i]) != Wrong
  {
    RightBefore(log, i);
    RightBefore(log, i + 1);
    assert log[..i + 1] == log[..i] + [log[i]];
    PhaseAppend(log[..i], log[i]);
  }

  lemma HeadedMore(log: Log, n: nat, b: nat, h: nat)
    requires n <= |log| && Headed(log[..n], b, h)
    ensures Headed(log, b, h)
  {
    assert forall k :: 0 <= k < n ==> log[..n][k] == log[k];
  }

  lemma BodiedMore(log: Log, n: nat, h: nat, t: nat)
    requires n <= |log| && Bodied(log[..n], h, t, n)
    ensures Bodied(log, h, t, n)
  {
    assert forall k :: 0 <= k < n ==> log[..n][k] == log[k];
  }

  /** Where a trace is in order: what is complete at j began at b, and between there is one end of headers,
      at h; in front of it are headers, behind it first the body and then, from t on, a trailer. */
  lemma WholeMessage(log: Log, j: nat) returns (b: nat, h: nat, t: nat)
    requires PhaseOf(log) != Wrong && j < |log| && log[j] == Notify(MessageComplete)
    ensures Headed(log, b, h) && Bodied(log, h, t, j)
  {
    CallAt(log, j);
    hide PhaseOf, Headed, Bodied;
    b, h, t := MessageUnderWay(log[..j]);
    HeadedMore(log, j, b, h);
    BodiedMore(log, j, h, t);
  }

  /** Body data comes behind the end of the headers of a message, with nothing but body data in between. */
  lemma BodyInMessage(log: Log, i: nat) returns (b: nat, h: nat)
    requires PhaseOf(log) != Wrong && i < |log| && BodyDatum(log[i])
    ensures Headed(log, b, h) && Bodied(log, h, i + 1, i + 1)
  {
    CallAt(log, i);
    assert PhaseOf(log[..i]).Delivering?;
    var t;
    b, h, t := MessageUnderWay(log[..i]);
    HeadedMore(log, i, b, h);
    BodiedMore(log, i, h, t);
  }

  /** A message begins when none is under way; only right behind its begin may it be said to begin again. */
  lemma BeginsApart(log: Log, i: nat)
    requires PhaseOf(log) != Wrong && 0 < i < |log| && log[i] == Notify(MessageBegin)
    ensures log[i - 1] == Notify(MessageComplete) || log[i - 1] == Notify(MessageBegin)
  {
    CallAt(log, i);
    RightBefore(log, i - 1);
    assert log[..i] == log[..i - 1] + [log[i - 1]];
    PhaseAppend(log[..i - 1], log[i - 1]);
  }

  /** Which does happen: each line end in front of a response is reported as a begin, too. */
  lemma {:induction false} BegunAgain(noBody: NoBody, p: Parser, n: nat, log: Log, blank: string)
    requires p.state.StartRes? && LineEnds(blank) && n + |blank| + 1 <= MAX_HEADER_SIZE
    ensures var r := RunBytes(noBody, p, n, log, blank + "H");
            && r.stop.Ran? && r.p.state.ResH?
            && r.log == log + seq(|blank| + 1, _ => Notify(MessageBegin))
    decreases |blank|
  {
    hide Step, Cont;
    var data, l := blank + "H", log + [Notify(MessageBegin)];
    BeginByte(noBody, p, n + 1, log, data[0], data[1..]);
    if blank == "" {
      assert data[1..] == "";
    } else {
      assert data[1..] == blank[1..] + "H";
      BegunAgain(noBody, Fresh(p), n + 1, l, blank[1..]);
      assert [Notify(MessageBegin)] + seq(|blank|, _ => Notify(MessageBegin))
          == seq(|blank| + 1, _ => Notify(MessageBegin));
    }
  }

  lemma BeginByte(noBody: NoBody, p: Parser, n: nat, log: Log, ch: char, rest: string)
    requires p.state.StartRes? && (ch == CR || ch == LF || ch == 'H')
    ensures Cont(noBody, p, n, log, ch, rest)
         == Later(RunBytes(noBody, if ch == 'H' then Fresh(p).(state := ResH) else Fresh(p), n,
                           log + [Notify(MessageBegin)], rest), 1)
  {
    hide Step, Cont, RunBytes;
    StepOfLine(p, ch);
    ContStep(noBody, p, n, log, ch, rest);
  }

  // ----- the parser as it is called

  /** A fresh parser is between messages, so whatever it is given, its trace is in order. */
  lemma FreshInOrder(noBody: NoBody, kind: Kind, data: string)
    ensures InPhase(Init(kind), PhaseOf([])) && PhaseOf(RunBytes(noBody, Init(kind), 0, [], data).log) != Wrong
  {
    RunFits(noBody, Init(kind), 0, [], data);
  }

  lemma {:induction false} WithinFits(noBody: NoBody, p: Parser, log: Log, ch: char, q: Parser, l: Log)
    requires InPhase(p, PhaseOf(log)) && Within(noBody, p, log, ch, q, l)
    ensures InPhase(q, PhaseOf(l))
    decreases Rank(p.state)
  {
    AgainRank(p, ch);
    StepFits(p, ch, PhaseOf(log));
    var m := Step(p, ch);
    hide Step, InPhase, PhaseOf;
    var l' := Emit(log, m.act, ch);
    PhaseEmit(log, m.act, ch);
    var p' := Answered(noBody, l', m);
    AnsweredFits(noBody, l', m, PhaseOf(l'));
    if !(q == p' && l == l') {
      WithinFits(noBody, p', l', ch, q, l);
    }
  }

  lemma ComesByFits(noBody: NoBody, p: Parser, nread: nat, log: Log, data: string, i: nat, held: bool,
                    q: Parser, n: nat, l: Log)
    requires InPhase(p, PhaseOf(log)) && ComesBy(noBody, p, nread, log, data, i, held, q, n, l)
    ensures InPhase(q, PhaseOf(l))
  {
    hide RunBytes, InPhase, PhaseOf, Within;
    RunFits(noBody, p, nread, log, data[..i]);
    if held {
      var r := RunBytes(noBody, p, nread, log, data[..i]);
      WithinFits(noBody, r.p, r.log, data[i], q, l);
    }
  }

  /** Every call of http_parser_execute on a buffer keeps the trace in order, wherever the buffer was cut
      and wherever the call is paused; so does one that fails. */
  lemma CallInOrder(noBody: NoBody, p: Parser, nread: nat, log: Log, data: string,
                    p': Parser, nread': nat, log': Log, e: Errno, used: nat)
    requires InPhase(p, PhaseOf(log)) && Executed(noBody, p, nread, log, data, p', nread', log', e, used)
    ensures PhaseOf(log') != Wrong && (e.OK? || e.Paused? ==> InPhase(p', PhaseOf(log')))
  {
    hide RunBytes, InPhase, PhaseOf, ComesBy;
    var r := RunBytes(noBody, p, nread, log, data);
    RunFits(noBody, p, nread, log, data);
    if e.OK? || e.Paused? {
      if r != Run(p', nread', log', used, Ran) && r != Run(p', nread', log', used, Upgraded) {
        ComesByFits(noBody, p, nread, log, data, used,
                    ComesBy(noBody, p, nread, log, data, used, true, p', nread', log'), p', nread', log');
      }
      InPhaseRight(p', PhaseOf(log'));
    } else {
      var d, k: nat :| k <= used && r.log == Grown(log', d, data[k..used]);
      PhasePush(log', Data(d, data[k..used]));
    }
  }

  /** The same for the callbacks one by one. */
  lemma {:induction false} PhaseOfCalls(calls: seq<Call>)
    ensures PhaseOf(Canon(calls)) == PhaseOf(calls)
    decreases |calls|
  {
    if calls != [] {
      var before := calls[..|calls| - 1];
      PhaseOfCalls(before);
      PhasePush(Canon(before), calls[|calls| - 1]);
    }
  }
}
