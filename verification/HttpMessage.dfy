/** Whole messages: from what its text says follow the callbacks, where its body ends, and whether another
    message may follow on the connection. */
module HttpMessage {
  import opened HttpTypes
  import opened HttpMachine
  import opened HttpRun
  import opened HttpParser
  import opened HttpBody
  import opened HttpRecognisers
  import opened HttpTrailer
  import opened HttpStartLine
  import opened HttpRefusals

  // ----- what the fields say

  ghost predicate IsClose(f: Field) { SaysConnection(f.name) && Says(f, "close") }

  ghost predicate IsKeepAlive(f: Field) { SaysConnection(f.name) && Says(f, "keep-alive") }

  ghost predicate IsChunked(f: Field) { SaysEncoding(f.name) && Says(f, "chunked") }

  predicate IsUpgrade(f: Field) { SaysUpgrade(f.name) && f.value != "" }

  predicate IsLength(f: Field) { SaysLength(f.name) && f.value != "" }

  ghost predicate SayClose(fs: seq<Field>) { exists f <- fs :: IsClose(f) }

  ghost predicate SayKeepAlive(fs: seq<Field>) { exists f <- fs :: IsKeepAlive(f) }

  ghost predicate SayChunked(fs: seq<Field>) { exists f <- fs :: IsChunked(f) }

  ghost predicate SayUpgrade(fs: seq<Field>) { exists f <- fs :: IsUpgrade(f) }

  ghost predicate SayLength(fs: seq<Field>) { exists f <- fs :: IsLength(f) }

  /** The length that the last of the fields gives, or v if none does. */
  ghost function LengthOr(fs: seq<Field>, v: nat): nat
    requires LengthsOk(fs)
    decreases |fs|
  {
    if fs == [] then v
    else
      assert LengthOk(fs[0]);
      LengthOr(fs[1..], if IsLength(fs[0]) then DecFrom(0, fs[0].value) else v)
  }

  lemma {:induction false} LengthSaid(fs: seq<Field>, v: nat)
    requires LengthsOk(fs)
    ensures if SayLength(fs) then LengthOr(fs, v) == LengthOr(fs, 0) <= MAX_LENGTH else LengthOr(fs, v) == v
    decreases |fs|
  {
    hide LengthOk;
    if fs != [] {
      var f := fs[0];
      assert LengthOk(f);
      assert IsLength(f) ==> LengthBytes(f.value) && DecFrom(0, f.value) <= MAX_LENGTH by { LengthOkSays(f); }
      LengthSaid(fs[1..], if IsLength(f) then DecFrom(0, f.value) else v);
      LengthSaid(fs[1..], if IsLength(f) then DecFrom(0, f.value) else 0);
      assert SayLength(fs) <==> IsLength(f) || SayLength(fs[1..]);
    }
  }

  lemma LengthOkSays(f: Field)
    requires LengthOk(f)
    ensures IsLength(f) ==> LengthBytes(f.value) && DecFrom(0, f.value) <= MAX_LENGTH
  {
  }

  /** The flags with what the fields add to them. */
  ghost function FlagsWith(g: Flags, fs: seq<Field>): Flags {
    g.(close := g.close || SayClose(fs), keepAlive := g.keepAlive || SayKeepAlive(fs),
       chunked := g.chunked || SayChunked(fs), upgrade := g.upgrade || SayUpgrade(fs))
  }

  ghost function FlagsWithOne(g: Flags, f: Field): Flags {
    g.(close := g.close || IsClose(f), keepAlive := g.keepAlive || IsKeepAlive(f),
       chunked := g.chunked || IsChunked(f), upgrade := g.upgrade || IsUpgrade(f))
  }

  lemma OneSays(p: Parser, f: Field)
    requires LengthOk(f)
    ensures Effect(p, f)
         == p.(flags := FlagsWithOne(p.flags, f),
               contentLength := if IsLength(f) then DecFrom(0, f.value) else p.contentLength)
  {
    NotBoth(f);
    hide Lowered, LengthBytes, DecFrom, Spells;
  }

  lemma NotBoth(f: Field)
    ensures !(Says(f, "close") && Says(f, "keep-alive"))
  {
    if Says(f, "close") {
      assert Lower(f.value[0]) == 'c' as int;
    }
  }

  lemma {:induction false} EffectsSay(p: Parser, fs: seq<Field>)
    requires LengthsOk(fs)
    ensures Effects(p, fs) == p.(flags := FlagsWith(p.flags, fs), contentLength := LengthOr(fs, p.contentLength))
    decreases |fs|
  {
    hide Effect, LengthOk, IsClose, IsKeepAlive, IsChunked, IsUpgrade, IsLength;
    if fs != [] {
      OneSays(p, fs[0]);
      EffectsSay(Effect(p, fs[0]), fs[1..]);
      FirstSays(fs);
    }
  }

  lemma FirstSays(fs: seq<Field>)
    requires fs != []
    ensures SayClose(fs) <==> IsClose(fs[0]) || SayClose(fs[1..])
    ensures SayKeepAlive(fs) <==> IsKeepAlive(fs[0]) || SayKeepAlive(fs[1..])
    ensures SayChunked(fs) <==> IsChunked(fs[0]) || SayChunked(fs[1..])
    ensures SayUpgrade(fs) <==> IsUpgrade(fs[0]) || SayUpgrade(fs[1..])
  {
    hide IsClose, IsKeepAlive, IsChunked, IsUpgrade;
    assert forall f :: f in fs <==> f == fs[0] || f in fs[1..];
  }

  // ----- the fields of the header

  /** A run over data goes on, when it has consumed k bytes of it, as one of q over what is left. */
  ghost predicate GoesOn(noBody: NoBody, p: Parser, n: nat, log: Log, data: string, q: Parser, m: nat, l: Log, k: nat,
                         left: string)
  {
    RunBytes(noBody, p, n, log, data) == Later(RunBytes(noBody, q, m, l, left), k)
  }

  lemma GoesOnLater(noBody: NoBody, p: Parser, n: nat, log: Log, line: string, rest: string, q: Parser, l: Log,
                    q': Parser, l': Log, m: nat, k: nat, left: string)
    requires RunBytes(noBody, p, n, log, line + rest) == Later(RunBytes(noBody, q, n + |line|, l, rest), |line|)
    requires GoesOn(noBody, q, n + |line|, l, rest, q', m, l', k, left)
    ensures GoesOn(noBody, p, n, log, line + rest, q', m, l', |line| + k, left)
  {
    hide RunBytes;
  }

  lemma Reported(log: Log, f: Field)
    ensures !EndsWith(log + Report(f), FieldData)
  {
  }

  /** The fields of the header are reported as they were sent and have their effect, up to the line feed
      of the empty line; but a content length that cannot be read is an error. */
  lemma {:induction false} HeaderFields(noBody: NoBody, p: Parser, n: nat, log: Log, fs: seq<Field>, end: string,
                                        rest: string)
    returns (h: HState, i: nat)
    requires p.state.HeaderFieldStart? && !EndsWith(log, FieldData) && Eol(end)
    requires (forall f <- fs :: IsField(f)) && n + |Lines(fs)| + |end| <= MAX_HEADER_SIZE
    ensures var data := Lines(fs) + (end + rest);
            var k := |Lines(fs)| + |end| - 1;
            if LengthsOk(fs) then
              GoesOn(noBody, p, n, log, data, Effects(p, fs).(state := HeadersAlmostDone, hstate := h, index := i),
                     n + k, log + Reports(fs), k, [LF] + rest)
            else RunBytes(noBody, p, n, log, data).stop == Failed(InvalidContentLength)
    decreases |fs|
  {
    hide RunBytes, IsField, Line, LengthOk, Effect, EndsWith;
    var data := Lines(fs) + (end + rest);
    if fs == [] {
      h, i := p.hstate, p.index;
      assert data == end + rest && log + Reports(fs) == log;
      HeaderEnd(noBody, p, n, log, end, rest);
    } else {
      hide GoesOn;
      var f, rest' := fs[0], Lines(fs[1..]) + (end + rest);
      RestStarts(fs[1..], end + rest);
      assert data == Line(f) + rest';
      h, i := OneField(noBody, p, n, log, f, rest');
      if LengthOk(f) {
        EffectOf(p, p, f);
        var q := Effect(p, f).(hstate := h, index := i);
        Reported(log, f);
        h, i := HeaderFields(noBody, q, n + |Line(f)|, log + Report(f), fs[1..], end, rest);
        assert LengthsOk(fs) <==> LengthsOk(fs[1..]);
        if LengthsOk(fs) {
          EffectsOf(q, Effect(p, f), fs[1..]);
          EffectsOf(Effect(p, f), Effect(p, f), fs[1..]);
          assert log + Report(f) + Reports(fs[1..]) == log + Reports(fs);
          GoesOnLater(noBody, p, n, log, Line(f), rest', q, log + Report(f),
                      Effects(p, fs).(state := HeadersAlmostDone, hstate := h, index := i), log + Reports(fs),
                      n + |Lines(fs)| + |end| - 1, |Lines(fs[1..])| + |end| - 1, [LF] + rest);
        }
      }
    }
  }

  // ----- where the message ends, and whether another may follow

  /** The body as sent. */
  datatype Body = Bytes(data: string) | InChunks(cs: seq<Chunk>, last: Chunk, trailer: seq<Field>, end: string)

  function BodyText(b: Body): string {
    if b.Bytes? then b.data else (Encode(b.cs) + Head(b.last)) + (Lines(b.trailer) + b.end)
  }

  function BodyCalls(b: Body): seq<Call> {
    if b.Bytes? then DataCall(b.data) else DataCall(Joined(b.cs)) + Reports(b.trailer)
  }

  function DataCall(data: string): seq<Call> { if data == "" then [] else [Data(BodyData, data)] }

  /** The fields behind the body. */
  function Trailing(b: Body): seq<Field> { if b.Bytes? then [] else b.trailer }

  ghost predicate IsBody(b: Body) {
    b.InChunks? ==>
      && (forall c <- b.cs :: IsChunk(c) && c.data != "") && IsChunk(b.last) && b.last.data == ""
      && (forall f <- b.trailer :: IsField(f)) && Eol(b.end) && |Lines(b.trailer)| + |b.end| <= MAX_HEADER_SIZE
  }

  /** The message is a response, of a status that can have a body, that does not say where its body
      ends. */
  ghost predicate Unlimited(p: Parser, fs: seq<Field>, skip: bool) {
    && !p.kind.Request? && !(p.status / 100 == 1 || p.status == 204 || p.status == 304) && !skip
    && !SayChunked(fs) && !SayLength(fs)
  }

  /** The connection changes its protocol behind the header. */
  ghost predicate Switches(p: Parser, fs: seq<Field>) { SayUpgrade(fs) || p.verb.CONNECT? }

  /** No message may follow: where both version numbers are above 0, as in 1.1, if a field says close; where one
      is 0, as in 1.0 and 0.9, if none says keep-alive; and in any case if only the end of the connection
      ends the body. */
  ghost predicate IsLast(p: Parser, fs: seq<Field>, trailer: seq<Field>, skip: bool) {
    || (if p.major > 0 && p.minor > 0 then SayClose(fs + trailer) else !SayKeepAlive(fs + trailer))
    || Unlimited(p, fs, skip)
  }

  /** The body is as the header says. */
  ghost predicate Fits(p: Parser, fs: seq<Field>, skip: bool, b: Body)
    requires LengthsOk(fs)
  {
    if Switches(p, fs) || skip then b == Bytes("")
    else if SayChunked(fs) then b.InChunks?
    else b.Bytes? && (if SayLength(fs) then |b.data| == LengthOr(fs, 0) else Unlimited(p, fs, skip) || b.data == "")
  }

  /** The state behind a message. */
  ghost function StateBehind(p: Parser, fs: seq<Field>, trailer: seq<Field>, skip: bool): State {
    if IsLast(p, fs, trailer, skip) then Dead else if p.kind.Request? then StartReq else StartRes
  }

  /** A message begins with no flags and no length. */
  predicate IsFresh(p: Parser) { p.flags == NO_FLAGS && p.contentLength == ULLONG_MAX }

  lemma SayOfBoth(fs: seq<Field>, ts: seq<Field>)
    ensures SayClose(fs + ts) <==> SayClose(fs) || SayClose(ts)
    ensures SayKeepAlive(fs + ts) <==> SayKeepAlive(fs) || SayKeepAlive(ts)
  {
    hide IsClose, IsKeepAlive;
    assert forall f :: f in fs + ts <==> f in fs || f in ts;
  }

  /** What NEW_MESSAGE() does, said of the text. */
  lemma NewMessageSays(p: Parser, q: Parser, fs: seq<Field>, ts: seq<Field>, skip: bool)
    requires LengthsOk(fs) && IsFresh(p)
    requires q.kind == p.kind && q.major == p.major && q.minor == p.minor && q.status == p.status
    requires q.flags.close == (SayClose(fs) || SayClose(ts))
    requires q.flags.keepAlive == (SayKeepAlive(fs) || SayKeepAlive(ts))
    requires if SayChunked(fs) then q.flags.chunked
             else !q.flags.chunked && q.flags.skipBody == skip
                  && (SayLength(fs) <==> q.contentLength != ULLONG_MAX)
    ensures NewMessage(q) == StateBehind(p, fs, ts, skip)
  {
    hide SayClose, SayKeepAlive, SayChunked, SayLength;
    SayOfBoth(fs, ts);
  }

  /** The bytes that the counter of header bytes starts with behind a message. */
  function Counted(b: Body): nat { if b.Bytes? then 0 else |Lines(b.trailer)| + |b.end| }

  /** What a run r over the rest of a message, from the end of its header on, has done. */
  ghost predicate Delivered(r: Run, p: Parser, log: Log, fs: seq<Field>, skip: bool, b: Body) {
    var calls := log + ([Notify(HeadersComplete)] + BodyCalls(b));
    && r.nread == Counted(b)
    && r.p == p.(state := r.p.state, flags := r.p.flags, contentLength := r.p.contentLength, hstate := r.p.hstate,
                 index := r.p.index, upgrade := r.p.upgrade)
    && if Unlimited(p, fs, skip) && !Switches(p, fs) then r.stop.Ran? && r.p.state.BodyIdentityEof? && r.log == calls
       else
         && r.stop == (if Switches(p, fs) then Upgraded else Ran) && r.p.state == StateBehind(p, fs, Trailing(b), skip)
         && r.log == calls + [Notify(MessageComplete)]
  }

  /** The parser e is p with what the header fields say, at the end of the header. */
  ghost predicate AtEnd(e: Parser, p: Parser, fs: seq<Field>)
    requires LengthsOk(fs)
  {
    && IsFresh(p) && e.state.HeadersAlmostDone?
    && e == p.(state := HeadersAlmostDone, flags := FlagsWith(NO_FLAGS, fs), contentLength := LengthOr(fs, ULLONG_MAX),
               hstate := e.hstate, index := e.index)
  }

  /** The message ends with its header, or its body is all that follows. */
  lemma EndsAtOnce(noBody: NoBody, p: Parser, e: Parser, n: nat, log: Log, fs: seq<Field>)
    requires LengthsOk(fs) && AtEnd(e, p, fs) && n < MAX_HEADER_SIZE
    requires var skip := noBody(log + [Notify(HeadersComplete)]);
             Fits(p, fs, skip, Bytes(""))
    ensures var r := RunBytes(noBody, e, n, log, [LF]);
            r.used == 1 && Delivered(r, p, log, fs, noBody(log + [Notify(HeadersComplete)]), Bytes(""))
  {
    hide RunBytes, NewMessage, LengthOr, IsLast, SayClose, SayKeepAlive, SayChunked, SayUpgrade, SayLength;
    var skip := noBody(log + [Notify(HeadersComplete)]);
    var q := Told(noBody, e, log);
    HeadersEndByte(noBody, e, n, log);
    LengthSaid(fs, ULLONG_MAX);
    NothingTrails();
    NewMessageSays(p, q, fs, [], skip);
    assert [Notify(HeadersComplete)] + BodyCalls(Bytes("")) == [Notify(HeadersComplete)];
    assert NeedsEof(q) <==> Unlimited(p, fs, skip);
  }

  lemma NothingTrails()
    ensures !SayClose([]) && !SayKeepAlive([])
  {
  }

  /** The message ends behind as many bytes as it says. */
  lemma EndsByLength(noBody: NoBody, p: Parser, e: Parser, n: nat, log: Log, fs: seq<Field>, data: string)
    requires LengthsOk(fs) && AtEnd(e, p, fs) && n < MAX_HEADER_SIZE && data != "" && SayLength(fs)
    requires var skip := noBody(log + [Notify(HeadersComplete)]);
             !skip && !Switches(p, fs) && Fits(p, fs, skip, Bytes(data))
    ensures var r := RunBytes(noBody, e, n, log, [LF] + data);
            r.used == 1 + |data| && Delivered(r, p, log, fs, false, Bytes(data))
  {
    hide RunBytes, NewMessage, LengthOr, IsLast, SayClose, SayKeepAlive, SayChunked, SayUpgrade, SayLength;
    LengthSaid(fs, ULLONG_MAX);
    IdentityBody(noBody, e, n, log, data);
    NothingTrails();
    NewMessageSays(p, e.(contentLength := 0, upgrade := false), fs, [], false);
    var calls := [Notify(HeadersComplete)] + BodyCalls(Bytes(data));
    assert log + calls + [Notify(MessageComplete)]
        == log + [Notify(HeadersComplete), Data(BodyData, data), Notify(MessageComplete)];
  }

  /** All that follows is the body of this message. */
  lemma NeverEnds(noBody: NoBody, p: Parser, e: Parser, n: nat, log: Log, fs: seq<Field>, data: string)
    requires LengthsOk(fs) && AtEnd(e, p, fs) && n < MAX_HEADER_SIZE && Unlimited(p, fs, false) && !Switches(p, fs)
    requires !noBody(log + [Notify(HeadersComplete)])
    ensures var r := RunBytes(noBody, e, n, log, [LF] + data);
            r.used == 1 + |data| && Delivered(r, p, log, fs, false, Bytes(data))
  {
    hide RunBytes, NewMessage, LengthOr, IsLast, SayClose, SayKeepAlive, SayChunked, SayUpgrade, SayLength, Push;
    var q, l := Told(noBody, e, log).(state := BodyIdentityEof), log + [Notify(HeadersComplete)];
    LengthSaid(fs, ULLONG_MAX);
    HeadersEndByte(noBody, e, n, log);
    assert NeedsEof(Told(noBody, e, log));
    RunSplit(noBody, e, n, log, [LF], data);
    BulkEof(noBody, q, 0, l, data);
    BodyPushed(log, data);
  }

  lemma BodyPushed(log: Log, data: string)
    ensures Grown(log + [Notify(HeadersComplete)], BodyData, data) == log + ([Notify(HeadersComplete)] + DataCall(data))
  {
  }

  /** The message ends behind its last chunk and the fields that follow. */
  lemma EndsInChunks(noBody: NoBody, p: Parser, e: Parser, n: nat, log: Log, fs: seq<Field>, b: Body)
    requires LengthsOk(fs) && AtEnd(e, p, fs) && n < MAX_HEADER_SIZE && b.InChunks? && IsBody(b)
    requires SayChunked(fs) && !Switches(p, fs) && !noBody(log + [Notify(HeadersComplete)])
    ensures var r := RunBytes(noBody, e, n, log, [LF] + BodyText(b));
            if LengthsOk(b.trailer) then r.used == 1 + |BodyText(b)| && Delivered(r, p, log, fs, false, b)
            else r.stop == Failed(InvalidContentLength)
  {
    hide RunBytes, NewMessage, LengthOr, IsLast, SayClose, SayKeepAlive, SayChunked, SayUpgrade, SayLength, Push,
         LengthsOk, Effects;
    assert [LF] + BodyText(b) == [LF] + (Encode(b.cs) + Head(b.last)) + (Lines(b.trailer) + b.end);
    ChunkedBody(noBody, e, n, log, b.cs, b.last, b.trailer, b.end);
    if LengthsOk(b.trailer) {
      var q := e.(contentLength := 0, upgrade := false, flags := e.flags.(trailing := true));
      TrailerSays(p, e, fs, b.trailer);
      var body := [Notify(HeadersComplete)] + DataCall(Joined(b.cs));
      assert Grown(log + [Notify(HeadersComplete)], BodyData, Joined(b.cs)) + Reports(b.trailer)
          == log + ([Notify(HeadersComplete)] + BodyCalls(b)) by {
        BodyPushed(log, Joined(b.cs));
        assert log + ([Notify(HeadersComplete)] + BodyCalls(b)) == log + body + Reports(b.trailer);
      }
      hide AtEnd, IsBody, Switches, Encode, Head, Lines;
    }
  }

  /** What the fields behind the body add. */
  lemma TrailerSays(p: Parser, e: Parser, fs: seq<Field>, ts: seq<Field>)
    requires LengthsOk(fs) && AtEnd(e, p, fs) && SayChunked(fs) && LengthsOk(ts)
    ensures var q := Effects(e.(contentLength := 0, upgrade := false, flags := e.flags.(trailing := true)), ts);
            && q == p.(state := q.state, flags := q.flags, contentLength := q.contentLength, hstate := q.hstate,
                       index := q.index, upgrade := false)
            && NewMessage(q) == StateBehind(p, fs, ts, false)
  {
    hide NewMessage, LengthOr, IsLast, SayClose, SayKeepAlive, SayChunked, SayUpgrade, SayLength, LengthsOk, Effects;
    var q := e.(contentLength := 0, upgrade := false, flags := e.flags.(trailing := true));
    EffectsSay(q, ts);
    NewMessageSays(p, Effects(q, ts), fs, ts, false);
  }

  /** The rest of a message, from the line feed that ends its header on. */
  lemma RestOfMessage(noBody: NoBody, p: Parser, e: Parser, n: nat, log: Log, fs: seq<Field>, b: Body)
    requires LengthsOk(fs) && AtEnd(e, p, fs) && n < MAX_HEADER_SIZE && IsBody(b)
    requires Fits(p, fs, noBody(log + [Notify(HeadersComplete)]), b)
    ensures var r := RunBytes(noBody, e, n, log, [LF] + BodyText(b));
            if LengthsOk(Trailing(b)) then
              r.used == 1 + |BodyText(b)| && Delivered(r, p, log, fs, noBody(log + [Notify(HeadersComplete)]), b)
            else r.stop == Failed(InvalidContentLength)
  {
    var skip := noBody(log + [Notify(HeadersComplete)]);
    hide RunBytes, LengthOr, AtEnd, Delivered, SayChunked, SayUpgrade, SayLength, LengthOk, IsChunk, IsField;
    if b == Bytes("") && !(Unlimited(p, fs, skip) && !Switches(p, fs)) {
      assert [LF] + BodyText(b) == [LF];
      EndsAtOnce(noBody, p, e, n, log, fs);
    } else if b.InChunks? {
      EndsInChunks(noBody, p, e, n, log, fs, b);
    } else if SayLength(fs) {
      EndsByLength(noBody, p, e, n, log, fs, b.data);
    } else {
      NeverEnds(noBody, p, e, n, log, fs, b.data);
    }
  }

  /** A message, from its first header field on.  Its fields and its body are reported as they were sent.
      It is complete behind the last byte of its body, unless it is a response that does not say where its
      body ends: then everything that follows is its body.  The connection can be used for another
      message exactly if the text says so. */
  lemma FromHeader(noBody: NoBody, p: Parser, n: nat, log: Log, fs: seq<Field>, end: string, b: Body)
    requires p.state.HeaderFieldStart? && IsFresh(p) && !EndsWith(log, FieldData) && Eol(end)
    requires (forall f <- fs :: IsField(f)) && n + |Lines(fs)| + |end| <= MAX_HEADER_SIZE && IsBody(b)
    requires LengthsOk(fs) ==> Fits(p, fs, noBody(log + Reports(fs) + [Notify(HeadersComplete)]), b)
    ensures var data := Lines(fs) + (end + BodyText(b));
            var r := RunBytes(noBody, p, n, log, data);
            if LengthsOk(fs) && LengthsOk(Trailing(b)) then
              && r.used == |data|
              && Delivered(r, p, log + Reports(fs), fs, noBody(log + Reports(fs) + [Notify(HeadersComplete)]), b)
            else r.stop == Failed(InvalidContentLength)
  {
    hide RunBytes, LengthOk, IsField, Fits, Delivered, BodyText, IsBody, EndsWith;
    var k := |Lines(fs)| + |end| - 1;
    var h, i := HeaderFields(noBody, p, n, log, fs, end, BodyText(b));
    if LengthsOk(fs) {
      EffectsSay(p, fs);
      var e := Effects(p, fs).(state := HeadersAlmostDone, hstate := h, index := i);
      RestOfMessage(noBody, p, e, n + k, log + Reports(fs), fs, b);
      DeliveredLater(RunBytes(noBody, e, n + k, log + Reports(fs), [LF] + BodyText(b)), k, p,
                     log + Reports(fs), fs, noBody(log + Reports(fs) + [Notify(HeadersComplete)]), b);
    }
  }

  lemma DeliveredLater(r: Run, k: nat, p: Parser, log: Log, fs: seq<Field>, skip: bool, b: Body)
    ensures Delivered(Later(r, k), p, log, fs, skip, b) == Delivered(r, p, log, fs, skip, b)
  {
  }

  // ----- whole messages

  datatype Start = Asks(request: RequestLine) | Answers(status: StatusLine)

  datatype Message = Message(start: Start, fields: seq<Field>, end: string, body: Body)

  function StartText(s: Start): string { if s.Asks? then RequestText(s.request) else StatusText(s.status) }

  function StartCalls(s: Start): seq<Call> {
    if s.Asks? then [Notify(MessageBegin), Data(UrlData, s.request.target)]
    else [Notify(MessageBegin)] + Reason(s.status)
  }

  /** The first line is one that the parser accepts. */
  predicate IsStart(p: Parser, s: Start) {
    if s.Asks? then
      && MayRequest(p) && IsRequestLine(s.request) && Readable(s.request.version)
      && MayEnd(UrlAfter(UrlStart(s.request.verb), s.request.target))
    else
      && MayRespond(p) && IsStatusLine(s.status)
      && Number(s.status.major) && Number(s.status.minor) && Number(s.status.code)
  }

  /** The parser behind the first line. */
  function Opened(p: Parser, s: Start): Parser
    requires IsStart(p, s)
  {
    if s.Asks? then
      Fresh(p).(kind := Request, state := HeaderFieldStart, verb := s.request.verb, major := Major(s.request.version),
                minor := Minor(s.request.version), index := |MethodString(s.request.verb)| + 1)
    else
      Fresh(p).(kind := Response, state := HeaderFieldStart, major := Value(s.status.major),
                minor := Value(s.status.minor), status := Value(s.status.code),
                index := if |s.status.phrase| <= 1 then p.index else 0)
  }

  lemma StartExact(noBody: NoBody, p: Parser, n: nat, log: Log, s: Start)
    requires IsStart(p, s) && n + |StartText(s)| <= MAX_HEADER_SIZE
    ensures Leads(noBody, p, n, log, StartText(s), Opened(p, s), n + |StartText(s)|, log + StartCalls(s))
  {
    hide RunBytes, StatusText, RequestText, IsStatusLine, IsRequestLine, UrlAfter, Number, DecFrom, Reason;
    if s.Asks? {
      RequestLineExact(noBody, p, n, log, s.request);
    } else {
      StatusLineExact(noBody, p, n, log, s.status);
      assert log + [Notify(MessageBegin)] + Reason(s.status) == log + StartCalls(s);
    }
  }

  /** The callbacks up to the end of the header, but for that one. */
  function HeadCalls(m: Message): seq<Call> { StartCalls(m.start) + Reports(m.fields) }

  /** The application says that the message has no body. */
  ghost predicate Skips(noBody: NoBody, log: Log, m: Message) { noBody(log + HeadCalls(m) + [Notify(HeadersComplete)]) }

  ghost predicate IsMessage(noBody: NoBody, p: Parser, log: Log, m: Message) {
    && IsStart(p, m.start)
    && (forall f <- m.fields :: IsField(f)) && LengthsOk(m.fields) && Eol(m.end)
    && IsBody(m.body) && LengthsOk(Trailing(m.body))
    && Fits(Opened(p, m.start), m.fields, Skips(noBody, log, m), m.body)
  }

  function HeadText(m: Message): string { StartText(m.start) + (Lines(m.fields) + m.end) }

  function MessageText(m: Message): string { StartText(m.start) + (Lines(m.fields) + (m.end + BodyText(m.body))) }

  /** A message is taken apart as it was put together: the target or the reason phrase, the fields, the
      data of the body and the fields behind it are what is reported, and nothing more is consumed. */
  lemma MessageExact(noBody: NoBody, p: Parser, n: nat, log: Log, m: Message)
    requires IsMessage(noBody, p, log, m) && n + |HeadText(m)| <= MAX_HEADER_SIZE
    ensures var r := RunBytes(noBody, p, n, log, MessageText(m));
            && r.used == |MessageText(m)|
            && Delivered(r, Opened(p, m.start), log + HeadCalls(m), m.fields, Skips(noBody, log, m), m.body)
  {
    hide RunBytes, IsStart, StartText, Opened, Fits, Delivered, IsField, LengthOk, IsBody, BodyText;
    var q, k, l := Opened(p, m.start), n + |StartText(m.start)|, log + StartCalls(m.start);
    var rest := Lines(m.fields) + (m.end + BodyText(m.body));
    StartExact(noBody, p, n, log, m.start);
    RunSplit(noBody, p, n, log, StartText(m.start), rest);
    OpenedFresh(p, m.start, log);
    assert l + Reports(m.fields) == log + HeadCalls(m);
    FromHeader(noBody, q, k, l, m.fields, m.end, m.body);
    DeliveredLater(RunBytes(noBody, q, k, l, rest), |StartText(m.start)|, q, log + HeadCalls(m), m.fields,
                   Skips(noBody, log, m), m.body);
  }

  lemma OpenedFresh(p: Parser, s: Start, log: Log)
    requires IsStart(p, s)
    ensures var q := Opened(p, s);
            q.state.HeaderFieldStart? && IsFresh(q) && !EndsWith(log + StartCalls(s), FieldData)
  {
    hide IsStart, DecFrom, MethodString;
  }

  // ----- one message after the other

  /** The message is complete with its last byte, and another may follow. */
  ghost predicate Lasts(noBody: NoBody, p: Parser, log: Log, m: Message) {
    && IsMessage(noBody, p, log, m) && !Switches(Opened(p, m.start), m.fields)
    && !IsLast(Opened(p, m.start), m.fields, Trailing(m.body), Skips(noBody, log, m))
  }

  function Calls(m: Message): seq<Call> {
    HeadCalls(m) + ([Notify(HeadersComplete)] + BodyCalls(m.body)) + [Notify(MessageComplete)]
  }

  /** The parser that the next message meets, as far as it matters. */
  function Ready(p: Parser, s: Start): Parser
    requires IsStart(p, s)
  {
    Opened(p, s).(state := if s.Asks? then StartReq else StartRes)
  }

  /** What of a parser does not matter to the next message. */
  predicate Alike(p: Parser, q: Parser) {
    p == q.(flags := p.flags, contentLength := p.contentLength, hstate := p.hstate, index := p.index,
            upgrade := p.upgrade)
  }

  /** Any number of messages, each of which may be followed by another. */
  ghost predicate Pipelined(noBody: NoBody, p: Parser, n: nat, log: Log, ms: seq<Message>)
    decreases |ms|
  {
    ms == [] ||
    (&& Lasts(noBody, p, log, ms[0]) && n + |HeadText(ms[0])| <= MAX_HEADER_SIZE
     && Pipelined(noBody, Ready(p, ms[0].start), Counted(ms[0].body), log + Calls(ms[0]), ms[1..]))
  }

  function Texts(ms: seq<Message>): string { if ms == [] then "" else MessageText(ms[0]) + Texts(ms[1..]) }

  function AllCalls(ms: seq<Message>): seq<Call> { if ms == [] then [] else Calls(ms[0]) + AllCalls(ms[1..]) }

  lemma AlikeStart(p: Parser, q: Parser, s: Start)
    requires Alike(p, q)
    ensures IsStart(p, s) == IsStart(q, s)
    ensures IsStart(p, s) ==> Alike(Opened(p, s), Opened(q, s)) && Ready(p, s).(index := 0) == Ready(q, s).(
      index := 0, hstate := p.hstate, upgrade := p.upgrade)
  {
    hide IsStatusLine, IsRequestLine, UrlAfter, Number, DecFrom, MethodString;
  }

  lemma AlikeLasts(noBody: NoBody, p: Parser, q: Parser, log: Log, m: Message)
    requires Alike(p, q) && Lasts(noBody, p, log, m)
    ensures IsStart(p, m.start) && IsStart(q, m.start)
    ensures Lasts(noBody, q, log, m) && Alike(Ready(p, m.start), Ready(q, m.start))
  {
    hide IsStart, Opened, LengthsOk, IsBody, SayChunked, SayClose, SayKeepAlive, SayUpgrade, SayLength;
    AlikeStart(p, q, m.start);
  }

  lemma {:induction false} AlikePipelined(noBody: NoBody, p: Parser, q: Parser, n: nat, log: Log, ms: seq<Message>)
    requires Alike(p, q) && Pipelined(noBody, p, n, log, ms)
    ensures Pipelined(noBody, q, n, log, ms)
    decreases |ms|
  {
    hide Lasts, Ready, HeadText, Alike;
    if ms != [] {
      AlikeLasts(noBody, p, q, log, ms[0]);
      AlikePipelined(noBody, Ready(p, ms[0].start), Ready(q, ms[0].start), Counted(ms[0].body), log + Calls(ms[0]),
                     ms[1..]);
    }
  }

  /** A message that is complete with its last byte. */
  lemma DeliveredAll(r: Run, log: Log, m: Message, q: Parser, skip: bool)
    requires Delivered(r, q, log + HeadCalls(m), m.fields, skip, m.body)
    requires !Switches(q, m.fields) && !Unlimited(q, m.fields, skip)
    ensures r == Run(r.p, Counted(m.body), log + Calls(m), r.used, Ran)
    ensures r.p.state == StateBehind(q, m.fields, Trailing(m.body), skip) && Alike(q.(state := r.p.state), r.p)
  {
    hide Unlimited, Switches, HeadCalls, StateBehind;
    assert log + Calls(m)
        == log + HeadCalls(m) + ([Notify(HeadersComplete)] + BodyCalls(m.body)) + [Notify(MessageComplete)];
  }

  /** A message that lasts leaves the parser ready for the next. */
  lemma MessageLasts(noBody: NoBody, p: Parser, n: nat, log: Log, m: Message)
    requires Lasts(noBody, p, log, m) && n + |HeadText(m)| <= MAX_HEADER_SIZE
    ensures IsStart(p, m.start)
    ensures var r := RunBytes(noBody, p, n, log, MessageText(m));
            && r == Run(r.p, Counted(m.body), log + Calls(m), |MessageText(m)|, Ran)
            && Alike(Ready(p, m.start), r.p)
  {
    hide RunBytes, IsStart, MessageText, HeadText, Skips, HeadCalls, Opened, Fits, IsBody, LengthsOk, Delivered, Alike,
         Calls, SayChunked, SayLength;
    MessageExact(noBody, p, n, log, m);
    OpenedKind(p, m.start);
    DeliveredAll(RunBytes(noBody, p, n, log, MessageText(m)), log, m, Opened(p, m.start), Skips(noBody, log, m));
  }

  lemma OpenedKind(p: Parser, s: Start)
    requires IsStart(p, s)
    ensures Opened(p, s).kind == if s.Asks? then Request else Response
  {
  }

  /** Messages sent one after the other are delivered one after the other, each as it was sent. */
  lemma {:induction false} PipelineExact(noBody: NoBody, p: Parser, n: nat, log: Log, ms: seq<Message>)
    requires Pipelined(noBody, p, n, log, ms)
    ensures var r := RunBytes(noBody, p, n, log, Texts(ms));
            && r.stop.Ran? && r.used == |Texts(ms)| && r.log == log + AllCalls(ms)
            && (ms != [] ==> r.p.state == if ms[|ms| - 1].start.Asks? then StartReq else StartRes)
    decreases |ms|
  {
    hide RunBytes, Lasts, Ready, HeadText, MessageText, Alike, Calls, Counted, IsStart, Delivered, IsMessage;
    if ms == [] {
      RunEmpty(noBody, p, n, log, "", 0);
      assert log + AllCalls(ms) == log;
    } else {
      var m, rest := ms[0], ms[1..];
      MessageLasts(noBody, p, n, log, m);
      var q := RunBytes(noBody, p, n, log, MessageText(m)).p;
      AlikePipelined(noBody, Ready(p, m.start), q, Counted(m.body), log + Calls(m), rest);
      PipelineExact(noBody, q, Counted(m.body), log + Calls(m), rest);
      RunsJoin(noBody, p, n, log, MessageText(m), q, Counted(m.body), log + Calls(m), Texts(rest));
      assert log + Calls(m) + AllCalls(rest) == log + AllCalls(ms);
      if rest == [] {
        LastState(noBody, p, m.start, q, Counted(m.body), log + Calls(m));
      } else {
        assert rest[|rest| - 1] == ms[|ms| - 1];
      }
    }
  }

  lemma RunsJoin(noBody: NoBody, p: Parser, n: nat, log: Log, a: string, q: Parser, k: nat, l: Log, b: string)
    requires Leads(noBody, p, n, log, a, q, k, l)
    ensures RunBytes(noBody, p, n, log, a + b) == Later(RunBytes(noBody, q, k, l, b), |a|)
  {
    hide RunBytes;
    RunSplit(noBody, p, n, log, a, b);
  }

  lemma LastState(noBody: NoBody, p: Parser, s: Start, q: Parser, n: nat, log: Log)
    requires IsStart(p, s) && Alike(Ready(p, s), q)
    ensures RunBytes(noBody, q, n, log, Texts([])).p.state == if s.Asks? then StartReq else StartRes
  {
    hide IsStart, Opened;
  }

  /** Behind a message that is the last, the parser takes line ends only. */
  lemma NothingFollows(noBody: NoBody, p: Parser, n: nat, log: Log, m: Message, s: string, ch: char, rest: string)
    requires IsMessage(noBody, p, log, m) && n + |HeadText(m)| <= MAX_HEADER_SIZE
    requires var q, skip := Opened(p, m.start), Skips(noBody, log, m);
             !Switches(q, m.fields) && IsLast(q, m.fields, Trailing(m.body), skip) && !Unlimited(q, m.fields, skip)
    requires LineEnds(s) && ch != CR && ch != LF && Counted(m.body) + |s| < MAX_HEADER_SIZE
    ensures var r := RunBytes(noBody, p, n, log, MessageText(m) + (s + ([ch] + rest)));
            r.used == |MessageText(m)| + |s| && r.stop == Failed(ClosedConnection) && r.log == log + Calls(m)
  {
    hide RunBytes, IsStart, MessageText, HeadText, Skips, HeadCalls, Opened, Fits, IsBody, LengthsOk, Delivered, Alike,
         Calls, IsLast, Unlimited, Switches;
    MessageExact(noBody, p, n, log, m);
    var r := RunBytes(noBody, p, n, log, MessageText(m));
    DeliveredAll(r, log, m, Opened(p, m.start), Skips(noBody, log, m));
    RunSplit(noBody, p, n, log, MessageText(m), s + ([ch] + rest));
    DeadRefuses(noBody, r.p, r.nread, r.log, s, ch, rest);
  }
}
