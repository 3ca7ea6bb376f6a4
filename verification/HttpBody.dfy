/** Bodies: the numbers that delimit them are read exactly or refused, and exactly the bytes they
    delimit are delivered before the message is complete. */
module HttpBody {
  import opened HttpTypes
  import opened HttpMachine
  import opened HttpRun
  import opened HttpParser

  /** Running over data takes (p, n, log) to (q, m, l), consuming all of it. */
  ghost predicate Leads(noBody: NoBody, p: Parser, n: nat, log: Log, data: string, q: Parser, m: nat, l: Log) {
    RunBytes(noBody, p, n, log, data) == Run(q, m, l, |data|, Ran)
  }

  lemma LeadsOn(noBody: NoBody, p: Parser, n: nat, log: Log, a: string, q: Parser, m: nat, l: Log,
                b: string, q': Parser, m': nat, l': Log)
    requires Leads(noBody, p, n, log, a, q, m, l) && Leads(noBody, q, m, l, b, q', m', l')
    ensures Leads(noBody, p, n, log, a + b, q', m', l')
  {
    RunSplit(noBody, p, n, log, a, b);
    hide RunBytes;
  }

  /** A single byte handled by a single switch execution. */
  lemma OneByte(noBody: NoBody, p: Parser, n: nat, log: Log, ch: char)
    requires !Overflows(p.state, n) && Step(p, ch).next.Consume?
    ensures var m := Step(p, ch);
            var l := Emit(log, m.act, ch);
            Leads(noBody, p, n, log, [ch], Answered(noBody, l, m), Counter(p.state, Fetch(p.state, n), Consume), l)
  {
    hide Step;
    ContStep(noBody, p, Fetch(p.state, n), log, ch, []);
    assert [ch][1..] == [];
  }

  // ----- chunk sizes

  predicate HexDigits(s: string) { forall i :: 0 <= i < |s| ==> Unhex(s[i]) >= 0 }

  /** The number written as the hexadecimal digits v followed by s. */
  function HexFrom(v: nat, s: string): nat
    requires HexDigits(s)
    decreases |s|
  {
    if s == "" then v else HexFrom(v * 16 + Unhex(s[0]), s[1..])
  }

  /** The largest chunk size: one that a last digit can still bring about. */
  const MAX_CHUNK: nat := ULLONG_MAX - 16

  lemma {:induction false} HexGrows(v: nat, s: string)
    requires HexDigits(s)
    ensures v <= HexFrom(v, s)
    ensures s != "" ==> v * 16 <= HexFrom(v, s)
    decreases |s|
  {
    if s != "" {
      HexGrows(v * 16 + Unhex(s[0]), s[1..]);
    }
  }

  lemma HexDigitStep(p: Parser, ch: char)
    requires p.state.ChunkSize? && Unhex(ch) >= 0
    ensures Step(p, ch) == if HEX_LIMIT < p.contentLength then Micro(p, Quiet, Fail(InvalidContentLength))
                           else Micro(p.(contentLength := p.contentLength * 16 + Unhex(ch)), Quiet, Consume)
  {
    hide Step;
    StepOfChunk(p, ch);
    assert Unhex(CR) < 0;
  }

  /** Reading on through the digits of a chunk size gives the exact number, or an error if and only
      if the number is above the limit; it never wraps. */
  lemma {:induction false} HexExact(noBody: NoBody, p: Parser, n: nat, log: Log, s: string)
    requires p.state.ChunkSize? && HexDigits(s) && n + |s| <= MAX_HEADER_SIZE && p.contentLength <= MAX_CHUNK
    ensures var v := HexFrom(p.contentLength, s);
            var r := RunBytes(noBody, p, n, log, s);
            if v <= MAX_CHUNK then r == Run(p.(contentLength := v), n + |s|, log, |s|, Ran)
            else r.stop == Failed(InvalidContentLength)
    decreases |s|
  {
    hide Step, Unhex;
    if s != "" {
      HexDigitStep(p, s[0]);
      UnhexRange(s[0]);
      ContStep(noBody, p, n + 1, log, s[0], s[1..]);
      HexGrows(p.contentLength * 16 + Unhex(s[0]), s[1..]);
      if p.contentLength <= HEX_LIMIT {
        HexExact(noBody, p.(contentLength := p.contentLength * 16 + Unhex(s[0])), n + 1, log, s[1..]);
      }
    }
  }

  lemma UnhexRange(ch: char)
    ensures -1 <= Unhex(ch) < 16
  {
  }

  /** The same for a whole chunk size, from its first digit on. */
  lemma ChunkSizeExact(noBody: NoBody, p: Parser, log: Log, s: string)
    requires p.state.ChunkSizeStart? && HexDigits(s) && 0 < |s| <= MAX_HEADER_SIZE
    ensures var v := HexFrom(0, s);
            var r := RunBytes(noBody, p, 0, log, s);
            if v <= MAX_CHUNK then r == Run(p.(state := ChunkSize, contentLength := v), |s|, log, |s|, Ran)
            else r.stop == Failed(InvalidContentLength)
  {
    hide Step, Unhex;
    StepOfChunk(p, s[0]);
    UnhexRange(s[0]);
    ContStep(noBody, p, 1, log, s[0], s[1..]);
    HexExact(noBody, p.(state := ChunkSize, contentLength := Unhex(s[0])), 1, log, s[1..]);
  }

  // ----- content lengths

  predicate LengthBytes(s: string) { forall i :: 0 <= i < |s| ==> IsNum(s[i]) || s[i] == ' ' }

  /** The number written as the decimal digits v followed by s, spaces left out. */
  function DecFrom(v: nat, s: string): nat
    requires LengthBytes(s)
    decreases |s|
  {
    if s == "" then v
    else if IsNum(s[0]) then DecFrom(v * 10 + Digit(s[0]), s[1..])
    else DecFrom(v, s[1..])
  }

  /** The largest content length: one that a last digit can still bring about. */
  const MAX_LENGTH: nat := DECIMAL_LIMIT * 10 + 9

  lemma {:induction false} DecGrows(v: nat, s: string)
    requires LengthBytes(s)
    ensures v <= DecFrom(v, s)
    decreases |s|
  {
    if s != "" {
      DecGrows(if IsNum(s[0]) then v * 10 + Digit(s[0]) else v, s[1..]);
    }
  }

  lemma DecDigitStep(p: Parser, ch: char)
    requires p.state.HeaderValue? && p.hstate.ContentLength? && (IsNum(ch) || ch == ' ')
    ensures Step(p, ch) == if ch == ' ' then Micro(p, Stay(ValueData), Consume)
                           else if DECIMAL_LIMIT < p.contentLength then Micro(p, Quiet, Fail(InvalidContentLength))
                           else Micro(p.(contentLength := p.contentLength * 10 + Digit(ch)), Stay(ValueData), Consume)
  {
    hide Step;
    StepOfValue(p, ch);
  }

  /** Reading on through a Content-Length value gives the exact number, or an error if and only if
      the number is above the limit, which is below the value that stands for "no length". */
  lemma {:induction false} DecExact(noBody: NoBody, p: Parser, n: nat, log: Log, s: string)
    requires p.state.HeaderValue? && p.hstate.ContentLength? && LengthBytes(s)
    requires n + |s| <= MAX_HEADER_SIZE && p.contentLength <= MAX_LENGTH
    ensures var v := DecFrom(p.contentLength, s);
            var r := RunBytes(noBody, p, n, log, s);
            && MAX_LENGTH < ULLONG_MAX
            && if v <= MAX_LENGTH then
                 r == Run(p.(contentLength := v), n + |s|, Grown(log, ValueData, s), |s|, Ran)
               else r.stop == Failed(InvalidContentLength)
    decreases |s|
  {
    hide Step, Push;
    if s != "" {
      DecDigitStep(p, s[0]);
      ContStep(noBody, p, n + 1, log, s[0], s[1..]);
      assert [s[0]] + s[1..] == s;
      GrownTwice(log, ValueData, [s[0]], s[1..]);
      var l := Grown(log, ValueData, [s[0]]);
      if s[0] == ' ' {
        DecExact(noBody, p, n + 1, l, s[1..]);
      } else {
        DecGrows(p.contentLength * 10 + Digit(s[0]), s[1..]);
        if p.contentLength <= DECIMAL_LIMIT {
          DecExact(noBody, p.(contentLength := p.contentLength * 10 + Digit(s[0])), n + 1, l, s[1..]);
        }
      }
    }
  }

  /** The end of a line. */
  predicate Eol(s: string) { s == [CR, LF] || s == [LF] }

  predicate OneLine(s: string) { forall i :: 0 <= i < |s| ==> s[i] != CR && s[i] != LF }

  /** A byte that is neither a digit nor a space is refused, wherever it is. */
  lemma {:induction false} DecRefused(noBody: NoBody, p: Parser, n: nat, log: Log, s: string)
    requires p.state.HeaderValue? && p.hstate.ContentLength? && OneLine(s) && !LengthBytes(s)
    requires n + |s| <= MAX_HEADER_SIZE
    ensures RunBytes(noBody, p, n, log, s).stop == Failed(InvalidContentLength)
    decreases |s|
  {
    hide Step, Push;
    ContStep(noBody, p, n + 1, log, s[0], s[1..]);
    if IsNum(s[0]) || s[0] == ' ' {
      DecDigitStep(p, s[0]);
      var m := Step(p, s[0]);
      assert !LengthBytes(s[1..]) by {
        var i :| 0 <= i < |s| && !IsNum(s[i]) && s[i] != ' ';
        assert s[1..][i - 1] == s[i];
      }
      if m.next.Consume? {
        DecRefused(noBody, m.p, n + 1, Push(log, Data(ValueData, [s[0]])), s[1..]);
      }
    } else {
      StepOfValue(p, s[0]);
    }
  }

  lemma LengthStart(noBody: NoBody, p: Parser, n: nat, log: Log, s: string)
    requires p.state.HeaderValueDiscardWs? && p.hstate.ContentLength? && n < MAX_HEADER_SIZE
    requires s != "" && s[0] != ' ' && s[0] != '\t' && OneLine(s)
    ensures var r := RunBytes(noBody, p, n, log, s);
            if IsNum(s[0]) then
              r == Later(RunBytes(noBody, p.(state := HeaderValue, index := 0, contentLength := Digit(s[0])), n + 1,
                                  Grown(log, ValueData, [s[0]]), s[1..]), 1)
            else r.stop == Failed(InvalidContentLength)
  {
    hide Step, Push, Cont;
    StepOfValue(p, s[0]);
    ContStep(noBody, p, n + 1, log, s[0], s[1..]);
  }

  /** The same for a whole value, from its first byte on: it is accepted if and only if it starts with a
      digit, consists of digits and spaces, and is not above the limit; and then it is the exact number. */
  lemma ContentLengthExact(noBody: NoBody, p: Parser, n: nat, log: Log, s: string)
    requires p.state.HeaderValueDiscardWs? && p.hstate.ContentLength? && n + |s| <= MAX_HEADER_SIZE
    requires s != "" && s[0] != ' ' && s[0] != '\t' && OneLine(s)
    ensures var r := RunBytes(noBody, p, n, log, s);
            if LengthBytes(s) && DecFrom(0, s) <= MAX_LENGTH then
              r == Run(p.(state := HeaderValue, index := 0, contentLength := DecFrom(0, s)), n + |s|,
                       Grown(log, ValueData, s), |s|, Ran)
            else r.stop == Failed(InvalidContentLength)
  {
    hide RunBytes, Push;
    LengthStart(noBody, p, n, log, s);
    if IsNum(s[0]) {
      var q, l := p.(state := HeaderValue, index := 0, contentLength := Digit(s[0])), Grown(log, ValueData, [s[0]]);
      assert [s[0]] + s[1..] == s;
      GrownTwice(log, ValueData, [s[0]], s[1..]);
      if LengthBytes(s[1..]) {
        DecExact(noBody, q, n + 1, l, s[1..]);
      } else {
        DecRefused(noBody, q, n + 1, l, s[1..]);
      }
    }
  }

  // ----- a body of known length

  /** All N bytes of a body and nothing else are reported, in either framing. */
  lemma BodyBytes(noBody: NoBody, p: Parser, n: nat, log: Log, data: string)
    requires p.state.BodyIdentity? || p.state.ChunkData?
    requires 0 < |data| == p.contentLength
    ensures var q := p.(contentLength := 0);
            var l := Grown(log, BodyData, data);
            if p.state.ChunkData? then Leads(noBody, p, n, log, data, q.(state := ChunkDataAlmostDone), n, l)
            else Leads(noBody, p, n, log, data, q.(state := NewMessage(q)), n, l + [Notify(MessageComplete)])
  {
    hide RunBytes, Cont, Step, Push, NewMessage;
    RunIsCont(noBody, p, n, log, data, 0);
    assert data[0..] == data && data[0..0 + |data|] == data;
    SkipLemma(noBody, p, n, log, data, 0, |data|);
    var last := |data| - 1;
    var l := Grown(log, BodyData, data);
    assert data[last + 1..] == [];
    if p.state.ChunkData? {
      RunEmpty(noBody, p.(contentLength := 0, state := ChunkDataAlmostDone), n, l, data, |data|);
    } else {
      var q := p.(contentLength := 0, state := MessageDone);
      StepOfBody(q, data[last]);
      ContStep(noBody, q, n, l, data[last], []);
      NewMessageOf(q, p.(contentLength := 0));
      RunEmpty(noBody, q.(state := NewMessage(q)), n, l + [Notify(MessageComplete)], data, |data|);
    }
  }

  /** NEW_MESSAGE() does not look at the state. */
  lemma NewMessageOf(p: Parser, q: Parser)
    requires p == q.(state := p.state)
    ensures NewMessage(p) == NewMessage(q)
    ensures var s := NewMessage(p); s.Dead? || s.StartReq? || s.StartRes?
  {
  }

  /** The end of the headers of a message with Content-Length N > 0 and no other framing, followed by N
      bytes: exactly those bytes are delivered, then the message is complete, and nothing more is
      consumed. */
  lemma IdentityBody(noBody: NoBody, p: Parser, n: nat, log: Log, data: string)
    requires p.state.HeadersAlmostDone? && n < MAX_HEADER_SIZE && !p.flags.trailing
    requires BodyFollows(Told(noBody, p, log)) && !p.flags.chunked
    requires 0 < |data| == p.contentLength < ULLONG_MAX
    ensures var q := p.(contentLength := 0, upgrade := false);
            Leads(noBody, p, n, log, [LF] + data,
                  q.(state := NewMessage(q)), 0,
                  log + [Notify(HeadersComplete), Data(BodyData, data), Notify(MessageComplete)])
  {
    hide RunBytes, Step, NewMessage;
    var l := log + [Notify(HeadersComplete)];
    var q := p.(upgrade := false, state := BodyIdentity);
    HeadersEndByte(noBody, p, n, log);
    BodyBytes(noBody, q, 0, l, data);
    NewMessageOf(q.(contentLength := 0), p.(contentLength := 0, upgrade := false));
    assert l + [Data(BodyData, data)] + [Notify(MessageComplete)]
        == log + [Notify(HeadersComplete), Data(BodyData, data), Notify(MessageComplete)];
    LeadsOn(noBody, p, n, log, [LF], q, 0, l, data,
            q.(contentLength := 0, state := NewMessage(q.(contentLength := 0))), 0,
            l + [Data(BodyData, data)] + [Notify(MessageComplete)]);
  }

  /** The parser once the application has been told of the end of the headers. */
  function Told(noBody: NoBody, p: Parser, log: Log): Parser {
    p.(upgrade := p.flags.upgrade || p.verb.CONNECT?,
       flags := if noBody(log + [Notify(HeadersComplete)]) then p.flags.(skipBody := true) else p.flags)
  }

  predicate BodyFollows(p: Parser) { !p.upgrade && !p.flags.skipBody }

  /** The line feed that ends the headers: which framing follows is decided by upgrade, the
      application's answer, chunking and length, in this order; otherwise the message is complete. */
  lemma HeadersEndByte(noBody: NoBody, p: Parser, n: nat, log: Log)
    requires p.state.HeadersAlmostDone? && n < MAX_HEADER_SIZE && !p.flags.trailing
    ensures var r := RunBytes(noBody, p, n, log, [LF]);
            var q := Told(noBody, p, log);
            var l := log + [Notify(HeadersComplete)];
            && (r.p.state.ChunkSizeStart? <==> BodyFollows(q) && p.flags.chunked)
            && (r.p.state.BodyIdentity? <==>
                  BodyFollows(q) && !p.flags.chunked && p.contentLength != 0 && p.contentLength != ULLONG_MAX)
            && (r.p.state.BodyIdentityEof? <==> BodyFollows(q) && p.contentLength == ULLONG_MAX && NeedsEof(q))
            && if r.p.state.ChunkSizeStart? || r.p.state.BodyIdentity? || r.p.state.BodyIdentityEof? then
                 r == Run(q.(state := r.p.state), 0, l, 1, Ran)
               else
                 r == Run(q.(state := NewMessage(q)), 0, l + [Notify(MessageComplete)], 1,
                          if q.upgrade then Upgraded else Ran)
  {
    hide Step, Cont, NewMessage, NeedsEof, RunBytes, Told;
    var q := Told(noBody, p, log);
    var d := q.(state := HeadersDone);
    HeadersTold(noBody, p, n, log);
    StepOfBody(d, LF);
    NewMessageOf(d, q);
    NeedsEofOf(d, q);
    TellingKeeps(noBody, p, log);
    var l := log + [Notify(HeadersComplete)];
    ContStep(noBody, d, n + 1, l, LF, []);
    RunEmpty(noBody, Step(d, LF).p, 0, Emit(l, Step(d, LF).act, LF), "", 0);
  }

  lemma TellingKeeps(noBody: NoBody, p: Parser, log: Log)
    ensures var q := Told(noBody, p, log);
            q.kind == p.kind && q.contentLength == p.contentLength && q.flags.chunked == p.flags.chunked
  {
  }

  lemma HeadersTold(noBody: NoBody, p: Parser, n: nat, log: Log)
    requires p.state.HeadersAlmostDone? && n < MAX_HEADER_SIZE && !p.flags.trailing
    ensures RunBytes(noBody, p, n, log, [LF])
         == Cont(noBody, Told(noBody, p, log).(state := HeadersDone), n + 1, log + [Notify(HeadersComplete)], LF, [])
  {
    hide Step, Cont;
    StepOfBody(p, LF);
    assert [LF][1..] == [];
    ContStep(noBody, p, n + 1, log, LF, []);
  }

  lemma NeedsEofOf(p: Parser, q: Parser)
    requires p == q.(state := p.state)
    ensures NeedsEof(p) <==> NeedsEof(q)
    ensures NeedsEof(q) ==> !q.kind.Request? && !q.flags.chunked
  {
  }

  // ----- a body in chunks

  /** A chunk as sent: the digits of its size, an extension that the parser skips, its data. */
  datatype Chunk = Chunk(size: string, ext: string, data: string)

  predicate IsExtension(e: string) { e != "" ==> (e[0] == ';' || e[0] == ' ') && CR !in e }

  predicate IsChunk(c: Chunk) {
    && c.size != "" && HexDigits(c.size) && HexFrom(0, c.size) == |c.data| <= MAX_CHUNK
    && IsExtension(c.ext) && |c.size| + |c.ext| + 2 <= MAX_HEADER_SIZE
  }

  function Head(c: Chunk): string { c.size + (c.ext + [CR, LF]) }

  function Encode(cs: seq<Chunk>): string {
    if cs == [] then "" else Head(cs[0]) + (cs[0].data + ([CR, LF] + Encode(cs[1..])))
  }

  function Joined(cs: seq<Chunk>): string { if cs == [] then "" else cs[0].data + Joined(cs[1..]) }

  lemma {:induction false} SkipParameters(noBody: NoBody, p: Parser, n: nat, log: Log, s: string)
    requires p.state.ChunkParameters? && CR !in s && n + |s| <= MAX_HEADER_SIZE
    ensures Leads(noBody, p, n, log, s, p, n + |s|, log)
    decreases |s|
  {
    hide Step;
    if s != "" {
      StepOfChunk(p, s[0]);
      ContStep(noBody, p, n + 1, log, s[0], s[1..]);
      SkipParameters(noBody, p, n + 1, log, s[1..]);
    }
  }

  /** The extension and the end of the chunk size line. */
  lemma SizeLineEnd(noBody: NoBody, p: Parser, n: nat, log: Log, ext: string)
    requires p.state.ChunkSize? && IsExtension(ext) && n + |ext| + 2 <= MAX_HEADER_SIZE
    ensures Leads(noBody, p, n, log, ext + [CR, LF],
                  if p.contentLength == 0 then p.(state := HeaderFieldStart, flags := p.flags.(trailing := true))
                  else p.(state := ChunkData), 0, log)
  {
    hide RunBytes, Step;
    var q := if ext == "" then p else p.(state := ChunkParameters);
    assert Leads(noBody, p, n, log, ext, q, n + |ext|, log) by {
      if ext == "" {
        RunEmpty(noBody, p, n, log, "", 0);
      } else {
        assert Unhex(';') < 0 && Unhex(' ') < 0;
        StepOfChunk(p, ext[0]);
        OneByte(noBody, p, n, log, ext[0]);
        SkipParameters(noBody, q, n + 1, log, ext[1..]);
        LeadsOn(noBody, p, n, log, [ext[0]], q, n + 1, log, ext[1..], q, n + |ext|, log);
        assert [ext[0]] + ext[1..] == ext;
      }
    }
    SizeLineCrLf(noBody, q, n + |ext|, log);
    var t := q.(state := if q.contentLength == 0 then HeaderFieldStart else ChunkData,
                flags := if q.contentLength == 0 then q.flags.(trailing := true) else q.flags);
    LeadsOn(noBody, p, n, log, ext, q, n + |ext|, log, [CR, LF], t, 0, log);
  }

  lemma SizeLineCrLf(noBody: NoBody, p: Parser, n: nat, log: Log)
    requires (p.state.ChunkSize? || p.state.ChunkParameters?) && n + 2 <= MAX_HEADER_SIZE
    ensures Leads(noBody, p, n, log, [CR, LF],
                  p.(state := if p.contentLength == 0 then HeaderFieldStart else ChunkData,
                     flags := if p.contentLength == 0 then p.flags.(trailing := true) else p.flags), 0, log)
  {
    hide RunBytes, Step;
    var q := p.(state := ChunkSizeAlmostDone);
    StepOfChunk(p, CR);
    OneByte(noBody, p, n, log, CR);
    StepOfChunk(q, LF);
    OneByte(noBody, q, n + 1, log, LF);
    var t := p.(state := if p.contentLength == 0 then HeaderFieldStart else ChunkData,
                flags := if p.contentLength == 0 then p.flags.(trailing := true) else p.flags);
    LeadsOn(noBody, p, n, log, [CR], q, n + 1, log, [LF], t, 0, log);
    assert [CR] + [LF] == [CR, LF];
  }

  /** The size line of a chunk. */
  lemma ChunkHead(noBody: NoBody, p: Parser, log: Log, c: Chunk)
    requires p.state.ChunkSizeStart? && IsChunk(c)
    ensures var q := p.(contentLength := |c.data|);
            Leads(noBody, p, 0, log, Head(c),
                  if c.data == "" then q.(state := HeaderFieldStart, flags := p.flags.(trailing := true))
                  else q.(state := ChunkData), 0, log)
  {
    hide RunBytes, Step;
    ChunkSizeExact(noBody, p, log, c.size);
    var q := p.(state := ChunkSize, contentLength := |c.data|);
    SizeLineEnd(noBody, q, |c.size|, log, c.ext);
    var t := if c.data == "" then q.(state := HeaderFieldStart, flags := p.flags.(trailing := true))
             else q.(state := ChunkData);
    LeadsOn(noBody, p, 0, log, c.size, q, |c.size|, log, c.ext + [CR, LF], t, 0, log);
  }

  lemma ChunkTail(noBody: NoBody, p: Parser, log: Log)
    requires p.state.ChunkDataAlmostDone?
    ensures Leads(noBody, p, 0, log, [CR, LF], p.(state := ChunkSizeStart), 0, log)
  {
    hide RunBytes, Step;
    var q := p.(state := ChunkDataDone);
    StepOfChunk(p, CR);
    OneByte(noBody, p, 0, log, CR);
    StepOfChunk(q, LF);
    OneByte(noBody, q, 0, log, LF);
    LeadsOn(noBody, p, 0, log, [CR], q, 0, log, [LF], p.(state := ChunkSizeStart), 0, log);
    assert [CR] + [LF] == [CR, LF];
  }

  /** The chunks of a body deliver the concatenation of their data. */
  lemma {:induction false} Chunks(noBody: NoBody, p: Parser, log: Log, cs: seq<Chunk>)
    requires p.state.ChunkSizeStart? && forall c <- cs :: IsChunk(c) && c.data != ""
    ensures Leads(noBody, p, 0, log, Encode(cs), if cs == [] then p else p.(contentLength := 0), 0,
                  Grown(log, BodyData, Joined(cs)))
    decreases |cs|
  {
    hide RunBytes, Step, Push;
    if cs == [] {
      RunEmpty(noBody, p, 0, log, "", 0);
    } else {
      var c, l := cs[0], Grown(log, BodyData, cs[0].data);
      var p1 := p.(contentLength := |c.data|, state := ChunkData);
      var p2 := p.(contentLength := 0, state := ChunkDataAlmostDone);
      var p3 := p.(contentLength := 0);
      var end := Grown(log, BodyData, Joined(cs));
      Chunks(noBody, p3, l, cs[1..]);
      GrownTwice(log, BodyData, c.data, Joined(cs[1..]));
      ChunkTail(noBody, p2, l);
      LeadsOn(noBody, p2, 0, l, [CR, LF], p3, 0, l, Encode(cs[1..]), p3, 0, end);
      BodyBytes(noBody, p1, 0, log, c.data);
      LeadsOn(noBody, p1, 0, log, c.data, p2, 0, l, [CR, LF] + Encode(cs[1..]), p3, 0, end);
      ChunkHead(noBody, p, log, c);
      LeadsOn(noBody, p, 0, log, Head(c), p1, 0, log, c.data + ([CR, LF] + Encode(cs[1..])), p3, 0, end);
    }
  }
}
