/** What is refused where only certain bytes may follow, and what is skipped between messages. */
module HttpRefusals {
  import opened HttpTypes
  import opened HttpMachine
  import opened HttpRun
  import opened HttpParser
  import opened HttpBody
  import opened HttpRecognisers

  // ----- states in which one byte is awaited

  datatype Awaited = Any | Only(ch: char)

  function Awaits(s: State): Awaited {
    if s.ResH? || s.ResHT? || s.ReqHttpH? || s.ReqHttpHT? then Only('T')
    else if s.ResHTT? || s.ReqHttpHTT? then Only('P')
    else if s.ResHTTP? || s.ReqHttpHTTP? then Only('/')
    else if s.ChunkDataAlmostDone? then Only(CR)
    else if s.ResLineAlmostDone? || s.ReqLineAlmostDone? || s.HeaderAlmostDone? || s.HeaderValueDiscardWsAlmostDone?
         || s.HeadersAlmostDone? || s.HeadersDone? || s.ChunkSizeAlmostDone? || s.ChunkDataDone? then Only(LF)
    else Any
  }

  lemma OtherByte(p: Parser, ch: char)
    requires Awaits(p.state).Only? && ch != Awaits(p.state).ch
    ensures Step(p, ch) == Micro(p, Quiet, Fail(if p.state.ReqLineAlmostDone? then LfExpected else Strict))
  {
    hide Step;
    StepOfVersion(p, ch);
    if SectionOf(p.state).InValue? {
      StepOfValue(p, ch);
    }
    if SectionOf(p.state).InChunk? {
      StepOfChunk(p, ch);
    }
    StepOfBody(p, ch);
  }

  /** Where one byte is awaited, any other is an error at that byte. */
  lemma OnlyAwaited(noBody: NoBody, p: Parser, n: nat, log: Log, data: string)
    requires Awaits(p.state).Only? && data != "" && data[0] != Awaits(p.state).ch && n < MAX_HEADER_SIZE
    ensures var r := RunBytes(noBody, p, n, log, data);
            && r.stop == Failed(if p.state.ReqLineAlmostDone? then LfExpected else Strict)
            && r.used == 0 && r.log == log
  {
    hide Step, Cont;
    OtherByte(p, data[0]);
    ContStep(noBody, p, Fetch(p.state, n), log, data[0], data[1..]);
  }

  // ----- chunk sizes

  predicate EndsSize(ch: char) { ch == CR || ch == ';' || ch == ' ' }

  predicate NoneEndsSize(w: string) { forall i :: 0 <= i < |w| ==> !EndsSize(w[i]) }

  lemma SizeStep(p: Parser, ch: char)
    requires p.state.ChunkSize?
    ensures var m := Step(p, ch);
            if EndsSize(ch) then
              m == Micro(p.(state := if ch == CR then ChunkSizeAlmostDone else ChunkParameters), Quiet, Consume)
            else if Unhex(ch) < 0 then m.next.Fail?
            else HexStep(p, ch, m)
  {
    hide Step;
    StepOfChunk(p, ch);
    assert EndsSize(ch) ==> Unhex(ch) < 0;
  }

  predicate HexStep(p: Parser, ch: char, m: Micro) {
    if HEX_LIMIT < p.contentLength then m.next.Fail?
    else Unhex(ch) >= 0 && m == Micro(p.(contentLength := p.contentLength * 16 + Unhex(ch)), Quiet, Consume)
  }

  /** Reading on through a chunk size to the byte that ends it: nothing but hexadecimal digits is
      accepted. */
  lemma {:induction false} SizeExact(noBody: NoBody, p: Parser, n: nat, log: Log, w: string, d: char)
    requires p.state.ChunkSize? && NoneEndsSize(w) && EndsSize(d) && n + |w| + 1 <= MAX_HEADER_SIZE
    requires p.contentLength <= MAX_CHUNK
    ensures var r := RunBytes(noBody, p, n, log, w + [d]);
            if HexDigits(w) && HexFrom(p.contentLength, w) <= MAX_CHUNK then
              r == Run(p.(contentLength := HexFrom(p.contentLength, w),
                          state := if d == CR then ChunkSizeAlmostDone else ChunkParameters),
                       n + |w| + 1, log, |w| + 1, Ran)
            else r.stop.Failed?
    decreases |w|
  {
    hide Step, Cont, Unhex;
    var data := w + [d];
    SizeStep(p, data[0]);
    ContStep(noBody, p, n + 1, log, data[0], data[1..]);
    if w == "" {
      assert data[1..] == "";
    } else if Unhex(w[0]) >= 0 {
      assert data[1..] == w[1..] + [d];
      UnhexRange(w[0]);
      if p.contentLength <= HEX_LIMIT {
        SizeExact(noBody, p.(contentLength := p.contentLength * 16 + Unhex(w[0])), n + 1, log, w[1..], d);
        assert HexDigits(w) <==> HexDigits(w[1..]);
      } else if HexDigits(w) {
        HexGrows(p.contentLength * 16 + Unhex(w[0]), w[1..]);
      }
    }
  }

  /** A chunk size, to the byte that ends it, is accepted if and only if it consists of hexadecimal
      digits, at least one, and is not above the limit; and then it is the exact number. */
  lemma ChunkSizeOnly(noBody: NoBody, p: Parser, log: Log, w: string, d: char)
    requires p.state.ChunkSizeStart? && NoneEndsSize(w) && EndsSize(d) && |w| + 1 <= MAX_HEADER_SIZE
    ensures var r := RunBytes(noBody, p, 0, log, w + [d]);
            if w != "" && HexDigits(w) && HexFrom(0, w) <= MAX_CHUNK then
              r == Run(p.(contentLength := HexFrom(0, w),
                          state := if d == CR then ChunkSizeAlmostDone else ChunkParameters),
                       |w| + 1, log, |w| + 1, Ran)
            else r.stop.Failed?
  {
    hide Step, Cont, Unhex;
    var data := w + [d];
    StepOfChunk(p, data[0]);
    ContStep(noBody, p, 1, log, data[0], data[1..]);
    NotHex(d);
    if w != "" && Unhex(w[0]) >= 0 {
      assert data[1..] == w[1..] + [d];
      UnhexRange(w[0]);
      SizeExact(noBody, p.(state := ChunkSize, contentLength := Unhex(w[0])), 1, log, w[1..], d);
      assert HexDigits(w) <==> HexDigits(w[1..]);
    }
  }

  lemma NotHex(d: char)
    ensures EndsSize(d) ==> Unhex(d) < 0
  {
  }

  // ----- header names

  /** A byte that is neither a token byte nor one that ends a name. */
  predicate NoName(ch: char) { !IsToken(ch) && ch != ':' && ch != CR && ch != LF }

  /** Nothing but token bytes is accepted in a name. */
  lemma {:induction false} NameRefused(noBody: NoBody, p: Parser, n: nat, log: Log, name: string, ch: char)
    requires p.state.HeaderFieldStart? || p.state.HeaderField?
    requires Tokens(name) && NoName(ch) && n + |name| + 1 <= MAX_HEADER_SIZE
    ensures RunBytes(noBody, p, n, log, name + [ch]).stop == Failed(InvalidHeaderToken)
    decreases |name|
  {
    hide Step, Cont, IsToken, FieldByte, ToLower, Push;
    var data := name + [ch];
    StepOfField(p, data[0]);
    TokenBytes(data[0]);
    ContStep(noBody, p, n + 1, log, data[0], data[1..]);
    if name != "" {
      assert data[1..] == name[1..] + [ch];
      var m := Step(p, data[0]);
      NameGoesOn(p, data[0]);
      NameRefused(noBody, m.p, n + 1, Emit(log, m.act, data[0]), name[1..], ch);
    }
  }

  lemma NameGoesOn(p: Parser, ch: char)
    requires (p.state.HeaderFieldStart? || p.state.HeaderField?) && IsToken(ch)
    ensures var m := Step(p, ch);
            m.p.state.HeaderField? && m.next.Consume? && (m.act.Mark? || m.act.Stay?)
  {
    hide Step, IsToken;
    StepOfField(p, ch);
    TokenBytes(ch);
  }

  // ----- between messages

  function Times(k: nat, c: Call): seq<Call> { seq(k, _ => c) }

  /** Each line end in front of a response is reported as the begin of a message. */
  lemma {:induction false} BlankResponse(noBody: NoBody, p: Parser, n: nat, log: Log, s: string)
    requires p.state.StartRes? && LineEnds(s) && n + |s| <= MAX_HEADER_SIZE
    ensures Leads(noBody, p, n, log, s, if s == "" then p else Fresh(p), n + |s|,
                  log + Times(|s|, Notify(MessageBegin)))
    decreases |s|
  {
    hide Step, Cont;
    if s == "" {
      assert log + Times(|s|, Notify(MessageBegin)) == log;
    } else {
      var l := log + [Notify(MessageBegin)];
      StepOfLine(p, s[0]);
      ContStep(noBody, p, n + 1, log, s[0], s[1..]);
      BlankResponse(noBody, Fresh(p), n + 1, l, s[1..]);
      assert l + Times(|s| - 1, Notify(MessageBegin)) == log + Times(|s|, Notify(MessageBegin));
    }
  }

  /** Line ends behind the last message are skipped; anything else is an error. */
  lemma {:induction false} BlankDead(noBody: NoBody, p: Parser, n: nat, log: Log, s: string)
    requires p.state.Dead? && LineEnds(s) && n + |s| <= MAX_HEADER_SIZE
    ensures Leads(noBody, p, n, log, s, p, n + |s|, log)
    decreases |s|
  {
    hide Step, Cont;
    if s != "" {
      StepOfLine(p, s[0]);
      ContStep(noBody, p, n + 1, log, s[0], s[1..]);
      BlankDead(noBody, p, n + 1, log, s[1..]);
    }
  }

  lemma DeadRefuses(noBody: NoBody, p: Parser, n: nat, log: Log, s: string, ch: char, rest: string)
    requires p.state.Dead? && LineEnds(s) && ch != CR && ch != LF && n + |s| < MAX_HEADER_SIZE
    ensures var r := RunBytes(noBody, p, n, log, s + ([ch] + rest));
            r == Run(p, n + |s| + 1, log, |s|, Failed(ClosedConnection))
  {
    hide Step, Cont;
    BlankDead(noBody, p, n, log, s);
    RunSplit(noBody, p, n, log, s, [ch] + rest);
    StepOfLine(p, ch);
    ContStep(noBody, p, n + |s| + 1, log, ch, rest);
    assert ([ch] + rest)[1..] == rest;
  }
}
