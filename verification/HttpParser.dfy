/** http_parser_execute itself: a loop over a buffer that marks where runs of data start, reports
    them when they end or when the buffer ends, skips body bytes in bulk, and leaves early when a
    callback pauses the parser.  Its contract relates it to the byte-at-a-time machine. */
module HttpParser {
  import opened HttpTypes
  import opened HttpMachine
  import opened HttpRun
  import opened HttpInvariant

  /** The application: whether it pauses the parser inside a callback, given all callbacks up to
      and including that one, and its answer to on_headers_complete. */
  datatype App = App(pauses: seq<Call> -> bool, noBody: NoBody)

  type Marks = map<Datum, nat>

  /** The history once the open run of data has been reported up to position i. */
  function Reported(log: Log, marks: Marks, data: string, i: nat): Log
    requires i <= |data| && forall d <- marks :: marks[d] <= i
  {
    if FieldData in marks then Grown(log, FieldData, data[marks[FieldData]..i])
    else if ValueData in marks then Grown(log, ValueData, data[marks[ValueData]..i])
    else if UrlData in marks then Grown(log, UrlData, data[marks[UrlData]..i])
    else if BodyData in marks then Grown(log, BodyData, data[marks[BodyData]..i])
    else if StatusData in marks then Grown(log, StatusData, data[marks[StatusData]..i])
    else log
  }

  /** Which marks are set follows from the state; at most one is. */
  ghost predicate MarksFit(s: State, marks: Marks, i: nat) {
    && (forall d <- marks :: marks[d] <= i)
    && (BodyData in marks ==> marks[BodyData] < i)
    && (Collects(s).Of? ==> marks.Keys == {Collects(s).datum})
    && (Collects(s).Nothing? ==> marks.Keys <= if BodyState(s) then {BodyData} else {})
  }

  lemma ReportedOne(log: Log, marks: Marks, data: string, i: nat, d: Datum)
    requires i <= |data| && marks.Keys == {d} && marks[d] <= i
    ensures Reported(log, marks, data, i) == Grown(log, d, data[marks[d]..i])
  {
    assert d in marks;
    assert forall e: Datum :: e in marks ==> e in marks.Keys;
  }

  lemma ReportedNone(log: Log, marks: Marks, data: string, i: nat)
    requires i <= |data| && marks.Keys == {}
    ensures Reported(log, marks, data, i) == log
  {
    assert forall e: Datum :: e in marks ==> e in marks.Keys;
  }

  /** Opening a run at i, or keeping it open, and moving on reports the byte at i. */
  lemma TrackByte(log: Log, marks: Marks, data: string, i: nat, d: Datum)
    requires i < |data| && marks.Keys <= {d} && forall e <- marks :: marks[e] <= i
    ensures var marks' := if d in marks then marks else marks[d := i];
            && marks'.Keys == {d} && marks'[d] <= i
            && Push(Reported(log, marks, data, i), Data(d, [data[i]])) == Reported(log, marks', data, i + 1)
  {
    TrackBytes(log, marks, data, i, 1, d);
    assert data[i..i + 1] == [data[i]];
  }

  /** The same for n > 0 bytes at once. */
  lemma TrackBytes(log: Log, marks: Marks, data: string, i: nat, n: nat, d: Datum)
    requires 0 < n && i + n <= |data| && marks.Keys <= {d} && forall e <- marks :: marks[e] <= i
    ensures var marks' := if d in marks then marks else marks[d := i];
            && marks'.Keys == {d} && marks'[d] <= i
            && Grown(Reported(log, marks, data, i), d, data[i..i + n]) == Reported(log, marks', data, i + n)
  {
    var marks' := if d in marks then marks else marks[d := i];
    assert marks'.Keys == {d};
    var open := if d in marks then data[marks[d]..i] else "";
    if d in marks {
      assert marks.Keys == {d};
      ReportedOne(log, marks, data, i, d);
    } else {
      assert marks.Keys == {};
      ReportedNone(log, marks, data, i);
    }
    ReportedOne(log, marks', data, i + n, d);
    assert open + data[i..i + n] == data[marks'[d]..i + n];
    GrownTwice(log, d, open, data[i..i + n]);
  }

  /** Reporting the open run leaves the history as it was seen before. */
  lemma TrackFlush(calls: seq<Call>, marks: Marks, data: string, i: nat, d: Datum)
    requires i <= |data| && marks.Keys == {d} && marks[d] <= i
    requires EndsWith(Reported(Canon(calls), marks, data, i), d) || marks[d] < i
    ensures Canon(calls + [Data(d, data[marks[d]..i])]) == Reported(Canon(calls), marks, data, i)
  {
    var log := Canon(calls);
    ReportedOne(log, marks, data, i, d);
    CanonAppend(calls, Data(d, data[marks[d]..i]));
    if data[marks[d]..i] == "" {
      PushNothing(log, d);
    }
  }

  lemma LogFitsOpen(s: State, log: Log, d: Datum)
    requires LogFits(s, log)
    ensures CollectsThe(s, d) ==> EndsWith(log, d)
  {
  }

  /** One switch execution, seen in the run it is part of. */
  lemma ContStep(noBody: NoBody, p: Parser, nread: nat, log: Log, ch: char, rest: string)
    ensures var m := Step(p, ch);
            var l := Emit(log, m.act, ch);
            var q := Answered(noBody, l, m);
            var n := Counter(p.state, nread, m.next);
            var r := Cont(noBody, p, nread, log, ch, rest);
            match m.next
            case Again => r == Cont(noBody, q, n, l, ch, rest)
            case Consume => r == Later(RunBytes(noBody, q, n, l, rest), 1)
            case Fail(e) => r == Run(q, n, l, 0, Failed(e))
            case Exit => r == Run(q, n, l, 1, Upgraded)
  {
    hide Step;
  }

  /** What is known about a switch execution from a sane parser. */
  lemma StepFacts(p: Parser, nread: nat, ch: char)
    requires MidInv(p, nread)
    ensures Fine(p.state, Step(p, ch))
  {
    StepAct(p, ch);
    hide Step, Fine;
  }

  /** toRead bytes of body at once: all of them but the last are single steps, and the last one is
      either just another byte or the one that ends the body. */
  lemma SkipLemma(noBody: NoBody, p: Parser, nread: nat, log: Log, data: string, i: nat, toRead: nat)
    requires p.state.BodyIdentity? || p.state.ChunkData?
    requires i + toRead <= |data| && 0 < toRead <= p.contentLength
    ensures var r := Cont(noBody, p, nread, log, data[i], data[i + 1..]);
            var q := p.(contentLength := p.contentLength - toRead);
            var l := Grown(log, BodyData, data[i..i + toRead]);
            var last := i + toRead - 1;
            if q.contentLength > 0 then r == Later(RunBytes(noBody, q, nread, l, data[last + 1..]), toRead)
            else if p.state.ChunkData? then
              r == Later(RunBytes(noBody, q.(state := ChunkDataAlmostDone), nread, l, data[last + 1..]), toRead)
            else r == Later(Cont(noBody, q.(state := MessageDone), nread, l, data[last], data[last + 1..]), toRead - 1)
  {
    hide Cont, RunBytes, Bite, Step, Push;
    var k := toRead - 1;
    var last := i + k;
    var p1 := p.(contentLength := p.contentLength - k);
    var l1 := Grown(log, BodyData, data[i..last]);
    RunIsCont(noBody, p, nread, log, data, i);
    BulkSkip(noBody, p, nread, log, data[i..], k);
    assert data[i..][k..] == data[last..] && data[i..][..k] == data[i..last];
    RunIsCont(noBody, p1, nread, l1, data, last);
    LastBodyByte(noBody, p1, nread, l1, data[last], data[last + 1..]);
    assert data[i..last] + [data[last]] == data[i..i + toRead];
    GrownTwice(log, BodyData, data[i..last], [data[last]]);
  }

  lemma SmallSet<T>(s: set<T>, x: T)
    requires s <= {x}
    ensures |s| <= 1
  {
    if s != {} {
      assert s == {x};
    }
  }

  /** Reporting what is left open at the end of the buffer completes the history. */
  lemma LeftoverLog(s: State, calls: seq<Call>, marks: Marks, data: string, d: Datum)
    requires MarksFit(s, marks, |data|) && marks.Keys <= {d}
    requires d == if Collects(s).Of? then Collects(s).datum else BodyData
    requires LogFits(s, Reported(Canon(calls), marks, data, |data|))
    ensures Canon(calls + if d in marks then [Data(d, data[marks[d]..|data|])] else [])
         == Reported(Canon(calls), marks, data, |data|)
  {
    hide Canon, Reported, LogFits, Collects, EndsWith;
    if d in marks {
      assert marks.Keys == {d};
      LogFitsOpen(s, Reported(Canon(calls), marks, data, |data|), d);
      TrackFlush(calls, marks, data, |data|, d);
    } else {
      assert marks.Keys == {};
      ReportedNone(Canon(calls), marks, data, |data|);
      assert calls + [] == calls;
    }
  }

  function StartMarks(s: State): Marks {
    if Collects(s).Of? then map[Collects(s).datum := 0] else map[]
  }

  /** The marks set on entry: the buffer continues the datum that is being collected, if any. */
  lemma StartFits(s: State, log: Log, data: string)
    requires LogFits(s, log)
    ensures MarksFit(s, StartMarks(s), 0) && Reported(log, StartMarks(s), data, 0) == log
  {
  }

  lemma BodyFacts(p: Parser, nread: nat)
    requires MidInv(p, nread) && (p.state.BodyIdentity? || p.state.ChunkData?)
    ensures p.contentLength > 0
    ensures Collects(BodyIdentity).Nothing? && Collects(ChunkData).Nothing? && Collects(MessageDone).Nothing?
         && Collects(ChunkDataAlmostDone).Nothing?
    ensures forall log :: LogFits(BodyIdentity, log) && LogFits(ChunkData, log) && LogFits(MessageDone, log)
                       && LogFits(ChunkDataAlmostDone, log)
  {
  }

  lemma SkipFacts(p: Parser, nread: nat, toRead: nat)
    requires MidInv(p, nread) && (p.state.BodyIdentity? || p.state.ChunkData?) && toRead <= p.contentLength
    ensures var q := p.(contentLength := p.contentLength - toRead);
            if q.contentLength > 0 then Inv(q, nread)
            else if p.state.ChunkData? then Inv(q.(state := ChunkDataAlmostDone), nread)
            else MidInv(q.(state := MessageDone), nread) && Inv(q.(state := MessageDone), nread)
  {
  }

  lemma EofFits(log: Log)
    ensures LogFits(BodyIdentityEof, log)
  {
  }

  lemma RunEmpty(noBody: NoBody, p: Parser, nread: nat, log: Log, data: string, i: nat)
    requires i == |data|
    ensures RunBytes(noBody, p, nread, log, data[i..]) == Run(p, nread, log, 0, Ran)
  {
  }

  lemma RunIsCont(noBody: NoBody, p: Parser, nread: nat, log: Log, data: string, i: nat)
    requires i < |data| && !ParsingHeader(p.state)
    ensures RunBytes(noBody, p, nread, log, data[i..]) == Cont(noBody, p, nread, log, data[i], data[i + 1..])
  {
    assert data[i..][0] == data[i] && data[i..][1..] == data[i + 1..];
    hide Cont;
  }

  lemma LastBodyByte(noBody: NoBody, p: Parser, nread: nat, log: Log, ch: char, rest: string)
    requires (p.state.BodyIdentity? || p.state.ChunkData?) && p.contentLength > 0
    ensures var q := p.(contentLength := p.contentLength - 1);
            var l := Push(log, Data(BodyData, [ch]));
            Cont(noBody, p, nread, log, ch, rest) ==
            if q.contentLength > 0 then Later(RunBytes(noBody, q, nread, l, rest), 1)
            else if p.state.ChunkData? then Later(RunBytes(noBody, q.(state := ChunkDataAlmostDone), nread, l, rest), 1)
            else Cont(noBody, q.(state := MessageDone), nread, l, ch, rest)
  {
    hide Cont, RunBytes, Step, Push;
    ContStep(noBody, p, nread, log, ch, rest);
    if p.state.BodyIdentity? {
      StepOfBody(p, ch);
    } else {
      StepOfChunk(p, ch);
    }
  }

  // ----- a round of the loop, in the run it is part of

  /** A run over data has counted byte i, and may have executed it some times, all to be repeated. */
  ghost predicate AtByte(noBody: NoBody, p: Parser, nread: nat, log: Log, data: string, i: nat, q: Parser, n: nat,
                         l: Log) {
    && i < |data|
    && var r := RunBytes(noBody, p, nread, log, data[..i]);
       && r.stop.Ran? && !Overflows(r.p.state, r.nread) && n == Fetch(r.p.state, r.nread)
       && ((q == r.p && l == r.log) || Within(noBody, r.p, r.log, data[i], q, l))
  }

  lemma HeldAtByte(noBody: NoBody, p: Parser, nread: nat, log: Log, data: string, i: nat, held: bool,
                   q: Parser, n: nat, l: Log)
    requires if held then ComesBy(noBody, p, nread, log, data, i, true, q, n, l)
             else AtByte(noBody, p, nread, log, data, i, q, n, l)
    ensures AtByte(noBody, p, nread, log, data, i, q, n, l)
  {
  }

  lemma AtByteCont(noBody: NoBody, p: Parser, nread: nat, log: Log, data: string, i: nat, q: Parser, n: nat, l: Log,
                   rest: string)
    requires AtByte(noBody, p, nread, log, data, i, q, n, l)
    ensures RunBytes(noBody, p, nread, log, data[..i] + ([data[i]] + rest))
            == Later(Cont(noBody, q, n, l, data[i], rest), i)
  {
    hide Within, Bite;
    var r := RunBytes(noBody, p, nread, log, data[..i]);
    RunSplit(noBody, p, nread, log, data[..i], [data[i]] + rest);
    assert ([data[i]] + rest)[1..] == rest;
    if !(q == r.p && l == r.log) {
      WithinBite(noBody, r.p, n, r.log, data[i], q, l);
    }
  }

  /** Where a round that started at byte i ends, and the byte at j is the last it looked at. */
  function End(next: Next, j: nat): nat { if next.Consume? || next.Exit? then j + 1 else j }

  /** A round of the loop, from the switch on: it takes (p, n, l) at byte i to (q, m, k) at byte j. */
  ghost predicate Advanced(noBody: NoBody, p: Parser, n: nat, l: Log, data: string, i: nat, j: nat, next: Next,
                           q: Parser, m: nat, k: Log)
    requires i <= j < |data|
  {
    match next
    case Consume => Cont(noBody, p, n, l, data[i], data[i + 1..j + 1]) == Run(q, m, k, j + 1 - i, Ran)
    case Again =>
      m == n &&
      if i == j then Within(noBody, p, l, data[j], q, k)
      else
        var a := Cont(noBody, p, n, l, data[i], data[i + 1..j]);
        a == Run(a.p, n, a.log, j - i, Ran) && !ParsingHeader(a.p.state) && Within(noBody, a.p, a.log, data[j], q, k)
    case Fail(e) => i == j && Cont(noBody, p, n, l, data[i], "") == Run(q, m, k, 0, Failed(e))
    case Exit => i == j && Cont(noBody, p, n, l, data[i], "") == Run(q, m, k, 1, Upgraded)
  }

  /** A switch execution is such a round. */
  lemma StepAdvances(noBody: NoBody, p: Parser, nread: nat, log: Log, data: string, i: nat)
    requires i < |data|
    ensures var m := Step(p, data[i]);
            var l := Emit(log, m.act, data[i]);
            Advanced(noBody, p, nread, log, data, i, i, m.next, Answered(noBody, l, m),
                     Counter(p.state, nread, m.next), l)
  {
    hide Step, Cont;
    AgainRank(p, data[i]);
    ContStep(noBody, p, nread, log, data[i], "");
    assert data[i + 1..i + 1] == "";
  }

  /** So is skipping toRead body bytes at once. */
  lemma SkipAdvances(noBody: NoBody, p: Parser, nread: nat, log: Log, data: string, i: nat, toRead: nat)
    requires p.state.BodyIdentity? || p.state.ChunkData?
    requires i + toRead <= |data| && 0 < toRead <= p.contentLength
    ensures var q := p.(contentLength := p.contentLength - toRead);
            var l := Grown(log, BodyData, data[i..i + toRead]);
            var last := i + toRead - 1;
            if q.contentLength > 0 then Advanced(noBody, p, nread, log, data, i, last, Consume, q, nread, l)
            else if p.state.ChunkData? then
              Advanced(noBody, p, nread, log, data, i, last, Consume, q.(state := ChunkDataAlmostDone), nread, l)
            else Advanced(noBody, p, nread, log, data, i, last, Again, q.(state := MessageDone), nread, l)
  {
    hide Cont, RunBytes, Bite, Step, Push, Within;
    var last, d := i + toRead - 1, data[..i + toRead];
    var l := Grown(log, BodyData, data[i..i + toRead]);
    if p.state.BodyIdentity? && p.contentLength == toRead {
      SkipToEnd(noBody, p, nread, log, data, i, last);
    } else {
      SkipLemma(noBody, p, nread, log, d, i, toRead);
      assert d[i + 1..] == data[i + 1..last + 1] && d[i..i + toRead] == data[i..i + toRead];
      var q := p.(contentLength := p.contentLength - toRead);
      RunEmpty(noBody, if q.contentLength > 0 then q else q.(state := ChunkDataAlmostDone), nread, l, d, last + 1);
    }
  }

  /** The last byte of a body of known length is executed again. */
  lemma SkipToEnd(noBody: NoBody, p: Parser, nread: nat, log: Log, data: string, i: nat, last: nat)
    requires p.state.BodyIdentity? && i <= last < |data| && p.contentLength == last + 1 - i
    ensures Advanced(noBody, p, nread, log, data, i, last, Again, p.(contentLength := 0, state := MessageDone), nread,
                     Grown(log, BodyData, data[i..last + 1]))
  {
    hide Cont, RunBytes, Bite, Step, Push;
    var k, d := last - i, data[..last];
    var p1, l1 := p.(contentLength := 1), Grown(log, BodyData, data[i..last]);
    assert data[i..last] + [data[last]] == data[i..last + 1];
    GrownTwice(log, BodyData, data[i..last], [data[last]]);
    StepOfBody(p1, data[last]);
    if i < last {
      BulkSkip(noBody, p, nread, log, d[i..], k);
      assert d[i..][k..] == "" && d[i..][..k] == data[i..last];
      RunEmpty(noBody, p1, nread, l1, d, last);
      RunIsCont(noBody, p, nread, log, d, i);
      assert d[i + 1..] == data[i + 1..last];
    }
  }

  /** What a round does, in the run from the start of the buffer. */
  lemma RoundInRun(noBody: NoBody, p: Parser, nread: nat, log: Log, data: string, i: nat, p1: Parser, n1: nat, l1: Log,
                   j: nat, next: Next, q: Parser, m: nat, k: Log)
    requires AtByte(noBody, p, nread, log, data, i, p1, n1, l1) && i <= j < |data|
    requires Advanced(noBody, p1, n1, l1, data, i, j, next, q, m, k)
    ensures match next
            case Consume => ComesBy(noBody, p, nread, log, data, j + 1, false, q, m, k)
            case Again => ComesBy(noBody, p, nread, log, data, j, true, q, m, k)
            case Fail(e) => RunBytes(noBody, p, nread, log, data) == Run(q, m, k, j, Failed(e))
            case Exit => RunBytes(noBody, p, nread, log, data) == Run(q, m, k, j + 1, Upgraded)
  {
    hide Cont, RunBytes, Within, AtByte;
    if next.Again? {
      RoundAgain(noBody, p, nread, log, data, i, p1, n1, l1, j, q, m, k);
    } else {
      var rest := data[i + 1..j + 1];
      AtByteCont(noBody, p, nread, log, data, i, p1, n1, l1, rest);
      assert data[..i] + ([data[i]] + rest) == data[..j + 1];
      assert i == j ==> rest == "";
      assert data[..j + 1] + data[j + 1..] == data;
      RunSplit(noBody, p, nread, log, data[..j + 1], data[j + 1..]);
    }
  }

  lemma RoundAgain(noBody: NoBody, p: Parser, nread: nat, log: Log, data: string, i: nat, p1: Parser, n1: nat, l1: Log,
                   j: nat, q: Parser, m: nat, k: Log)
    requires AtByte(noBody, p, nread, log, data, i, p1, n1, l1) && i <= j < |data|
    requires Advanced(noBody, p1, n1, l1, data, i, j, Again, q, m, k)
    ensures ComesBy(noBody, p, nread, log, data, j, true, q, m, k)
  {
    hide Cont, RunBytes, Within;
    if i == j {
      var r := RunBytes(noBody, p, nread, log, data[..i]);
      if !(p1 == r.p && l1 == r.log) {
        WithinTrans(noBody, r.p, r.log, data[i], p1, l1, q, k);
      }
    } else {
      var rest := data[i + 1..j];
      AtByteCont(noBody, p, nread, log, data, i, p1, n1, l1, rest);
      assert data[..i] + ([data[i]] + rest) == data[..j];
    }
  }

  /** The start of a round: the next byte is counted, unless that exceeds the limit. */
  lemma NextByte(noBody: NoBody, p: Parser, nread: nat, log: Log, data: string, i: nat, q: Parser, n: nat, l: Log)
    requires i < |data| && ComesBy(noBody, p, nread, log, data, i, false, q, n, l)
    ensures if Overflows(q.state, n) then
              RunBytes(noBody, p, nread, log, data) == Run(q, n + 1, l, i, Failed(HeaderOverflow))
            else AtByte(noBody, p, nread, log, data, i, q, Fetch(q.state, n), l)
  {
    hide Cont, Within;
    RunSplit(noBody, p, nread, log, data[..i], data[i..]);
    assert data[..i] + data[i..] == data;
  }

  predicate EndsMessage(calls: seq<Call>) { calls != [] && calls[|calls| - 1] == Notify(MessageComplete) }

  /** The callbacks added since `before` do not pause, except that the last one does iff the
      parser is paused now. */
  ghost predicate PauseFits(app: App, before: seq<Call>, after: seq<Call>, e: Errno) {
    && before <= after
    && (forall j :: |before| < j < |after| ==> !app.pauses(after[..j]))
    && (e.Paused? <==> |before| < |after| && app.pauses(after))
  }

  lemma PauseFitsNone(app: App, calls: seq<Call>)
    ensures PauseFits(app, calls, calls, OK)
  {
  }

  /** At most one callback was made. */
  lemma PauseFitsOne(app: App, before: seq<Call>, call: seq<Call>)
    requires |call| <= 1
    ensures PauseFits(app, before, before + call, if call != [] && app.pauses(before + call) then Paused else OK)
  {
  }

  lemma PauseTrans(app: App, a: seq<Call>, b: seq<Call>, c: seq<Call>, e: Errno)
    requires PauseFits(app, a, b, OK) && PauseFits(app, b, c, e)
    ensures PauseFits(app, a, c, e)
  {
    forall j | |a| < j < |c|
      ensures !app.pauses(c[..j])
    {
      if j <= |b| {
        assert c[..j] == b[..j];
        assert j == |b| ==> b[..j] == b;
      }
    }
    assert |c| == |b| ==> c == b;
  }

  /** The end of a message is reported only with a byte that is then consumed. */
  lemma EndConsumes(p: Parser, ch: char)
    ensures Step(p, ch).act == Note(MessageComplete) ==> !Step(p, ch).next.Again?
  {
  }

  /** What a call of http_parser_execute on a non-empty buffer does to a parser that is not in
      error, in terms of the byte-at-a-time machine: the new parser p', its error number e, the new
      history and the number of bytes consumed.  An OK call is a run of the machine over the whole
      buffer, or until the protocol changes.  A paused one leaves the parser where the run comes by,
      between two bytes or in the middle of one.  One that fails does so where the run fails, with
      all reported but at most the piece of the buffer that ends there. */
  ghost predicate Executed(noBody: NoBody, p: Parser, nread: nat, log: Log, data: string,
                           p': Parser, nread': nat, log': Log, e: Errno, used: nat)
  {
    var r := RunBytes(noBody, p, nread, log, data);
    if e.OK? then r == Run(p', nread', log', used, Ran) || r == Run(p', nread', log', used, Upgraded)
    else if e.Paused? then
      || Stands(noBody, p, nread, log, data, p', nread', log', used)
      || ComesBy(noBody, p, nread, log, data, used, true, p', nread', log')
    else r == Run(p', nread', r.log, used, Failed(e)) && ButForOne(log', r.log, data, used)
  }

  /** After consuming some bytes, the run stands between two of them or has left HTTP. */
  ghost predicate Stands(noBody: NoBody, p: Parser, nread: nat, log: Log, data: string,
                         p': Parser, nread': nat, log': Log, used: nat)
  {
    || RunBytes(noBody, p, nread, log, data) == Run(p', nread', log', used, Upgraded)
    || (used > 0 && ComesBy(noBody, p, nread, log, data, used, false, p', nread', log'))
  }

  /** log is full, but for a last report of bytes of data that end at position i. */
  ghost predicate ButForOne(log: Log, full: Log, data: string, i: nat) {
    i <= |data| && exists d, k: nat :: k <= i && full == Grown(log, d, data[k..i])
  }

  lemma ReportedButOne(log: Log, marks: Marks, data: string, i: nat)
    requires i <= |data| && forall d <- marks :: marks[d] <= i
    ensures ButForOne(log, Reported(log, marks, data, i), data, i)
  {
    assert Grown(log, BodyData, data[i..i]) == log;
  }

  /** What the end of the stream means: the end of a message without a length, nothing between
      messages, and an error inside one. */
  predicate AtEof(s: State, before: seq<Call>, after: seq<Call>, e: Errno, consumed: nat) {
    if s.BodyIdentityEof? then consumed == 0 && after == before + [Notify(MessageComplete)] && (e.OK? || e.Paused?)
    else if s.Dead? || s.StartReqOrRes? || s.StartRes? || s.StartReq? then consumed == 0 && after == before && e.OK?
    else consumed == 1 && after == before && e.InvalidEofState?
  }

  class HttpParser {
    var p: Parser
    var nread: nat
    var errno: Errno
    var calls: seq<Call>  // all callbacks so far
    const app: App

    /** Unless an error has put the parser out of use for good, the invariant holds. */
    ghost predicate Valid()
      reads this
    {
      errno.OK? || errno.Paused? ==> Inv(p, nread) && LogFits(p.state, Canon(calls))
    }

    /** http_parser_init */
    constructor (kind: Kind, app: App)
      ensures Valid() && p == Init(kind) && nread == 0 && errno == OK && calls == [] && this.app == app
    {
      this.p, nread, errno, calls, this.app := Init(kind), 0, OK, [], app;
      InitInv(kind);
    }

    /** http_parser_pause; not to be used on a parser in error. */
    method Pause(paused: bool)
      requires Valid() && (errno.OK? || errno.Paused?)
      modifies this`errno
      ensures Valid() && errno == if paused then Paused else OK
    {
      errno := if paused then Paused else OK;
    }

    /** A callback into the application, which may pause the parser. */
    method Callback(c: Call)
      requires errno.OK?
      modifies this`calls, this`errno
      ensures calls == old(calls) + [c]
      ensures errno == if app.pauses(calls) then Paused else OK
    {
      calls := calls + [c];
      if app.pauses(calls) {
        errno := Paused;
      }
    }

    /** The call with an empty buffer, which means end of file. */
    method ExecuteEof() returns (consumed: nat)
      requires Valid() && errno.OK?
      modifies this`errno, this`calls
      ensures Valid() && PauseFits(app, old(calls), calls, errno)
      ensures AtEof(p.state, old(calls), calls, errno, consumed)
    {
      consumed := 0;
      if p.state.BodyIdentityEof? {
        EofFits(Canon(calls + [Notify(MessageComplete)]));
        Callback(Notify(MessageComplete));
      } else if !(p.state.Dead? || p.state.StartReqOrRes? || p.state.StartRes? || p.state.StartReq?) {
        errno := InvalidEofState;
        consumed := 1;
      }
    }

    /** CALLBACK_DATA: report the run of d up to position i, if it is open. */
    method CallbackData(data: string, i: nat, marks: Marks, d: Datum) returns (marks': Marks)
      requires errno.OK? && i <= |data| && (d in marks ==> marks[d] <= i)
      modifies this`calls, this`errno
      ensures calls == if d in marks then old(calls) + [Data(d, data[marks[d]..i])] else old(calls)
      ensures errno == if d in marks && app.pauses(calls) then Paused else OK
      ensures marks' == marks - {d}
    {
      marks' := marks - {d};
      if d in marks {
        Callback(Data(d, data[marks[d]..i]));
      }
    }

    /** One execution of the switch for the byte at i, in a state that does not skip in bulk. */
    method Switch(data: string, i: nat, marks: Marks) returns (marks': Marks, next: Next)
      requires i < |data| && MarksFit(p.state, marks, i) && MidInv(p, nread) && errno.OK?
      requires LogFits(p.state, Reported(Canon(calls), marks, data, i))
      requires !p.state.BodyIdentity?
      modifies this`p, this`nread, this`errno, this`calls
      ensures PauseFits(app, old(calls), calls, errno)
      ensures errno.Paused? && next.Again? ==> !EndsMessage(calls)
      ensures var m := old(Step(p, data[i]));
              var l := Emit(old(Reported(Canon(calls), marks, data, i)), m.act, data[i]);
              && p == Answered(app.noBody, l, m)
              && next == m.next && nread == Counter(old(p.state), old(nread), next)
              && if next.Fail? then
                   && calls == old(calls) && marks' == marks && errno == next.errno && !errno.OK? && !errno.Paused?
                   && m.act.Quiet?
                 else
                   var e := if next.Again? then i else i + 1;
                   && (errno.OK? || errno.Paused?)
                   && MarksFit(p.state, marks', e)
                   && Reported(Canon(calls), marks', data, e) == l
                   && (errno.Paused? || next.Exit? ==> marks' == map[])
    {
      hide Step, MidInv, Sane, Asserts, LogFits, Reported, Canon, EndsWith;
      assert Asserts(p, nread, data[i]) by { SaneAsserts(p, nread, data[i]); }
      StepFacts(p, nread, data[i]);
      var m := Step(p, data[i]);
      if m.next.Fail? {
        p, nread, next, marks' := m.p, Counter(p.state, nread, m.next), m.next, marks;
        errno := next.errno;
      } else if m.act.Flush? {
        marks', next := SwitchFlush(data, i, marks);
      } else if m.act.Note? || m.act.EmptyValue? {
        marks', next := SwitchNote(data, i, marks);
      } else {
        marks', next := SwitchQuietly(data, i, marks);
      }
    }

    /** The switch, where no callback is made. */
    method SwitchQuietly(data: string, i: nat, marks: Marks) returns (marks': Marks, next: Next)
      requires i < |data| && MarksFit(p.state, marks, i) && MidInv(p, nread) && errno.OK?
      requires LogFits(p.state, Reported(Canon(calls), marks, data, i))
      requires !p.state.BodyIdentity?
      requires var m := Step(p, data[i]); !m.next.Fail? && !m.act.Flush? && !m.act.Note? && !m.act.EmptyValue?
      modifies this`p, this`nread, this`errno, this`calls
      ensures PauseFits(app, old(calls), calls, errno)
      ensures errno.Paused? && next.Again? ==> !EndsMessage(calls)
      ensures var m := old(Step(p, data[i]));
              var l := Emit(old(Reported(Canon(calls), marks, data, i)), m.act, data[i]);
              && p == Answered(app.noBody, l, m)
              && next == m.next && nread == Counter(old(p.state), old(nread), next)
              && var e := if next.Again? then i else i + 1;
              && (errno.OK? || errno.Paused?)
              && MarksFit(p.state, marks', e)
              && Reported(Canon(calls), marks', data, e) == l
              && (errno.Paused? || next.Exit? ==> marks' == map[])
    {
      hide Step, MidInv, Sane, Asserts, LogFits, Reported, Canon, EndsWith;
      StepFacts(p, nread, data[i]);
      var m := Step(p, data[i]);
      p, nread, next, marks' := m.p, Counter(p.state, nread, m.next), m.next, marks;
      if m.act.Quiet? {
        ReportedNone(Canon(calls), marks, data, i);
        ReportedNone(Canon(calls), marks, data, i + 1);
      } else {
        TrackByte(Canon(calls), marks, data, i, m.act.datum);
        if m.act.Mark? && m.act.datum !in marks {
          marks' := marks[m.act.datum := i];
        }
      }
    }

    /** The switch, where a run of data ends. */
    method SwitchFlush(data: string, i: nat, marks: Marks) returns (marks': Marks, next: Next)
      requires i < |data| && MarksFit(p.state, marks, i) && MidInv(p, nread) && errno.OK?
      requires LogFits(p.state, Reported(Canon(calls), marks, data, i))
      requires !p.state.BodyIdentity?
      requires var m := Step(p, data[i]); !m.next.Fail? && m.act.Flush?
      modifies this`p, this`nread, this`errno, this`calls
      ensures PauseFits(app, old(calls), calls, errno)
      ensures errno.Paused? && next.Again? ==> !EndsMessage(calls)
      ensures var m := old(Step(p, data[i]));
              var l := Emit(old(Reported(Canon(calls), marks, data, i)), m.act, data[i]);
              && p == Answered(app.noBody, l, m)
              && next == m.next && nread == Counter(old(p.state), old(nread), next)
              && var e := if next.Again? then i else i + 1;
              && (errno.OK? || errno.Paused?)
              && MarksFit(p.state, marks', e)
              && Reported(Canon(calls), marks', data, e) == l
              && (errno.Paused? || next.Exit? ==> marks' == map[])
    {
      hide Step, MidInv, Sane, Asserts, LogFits, Reported, Canon, EndsWith;
      StepFacts(p, nread, data[i]);
      var m := Step(p, data[i]);
      var s, d := p.state, m.act.datum;
      ghost var log := Reported(Canon(calls), marks, data, i);
      p, nread, next, marks' := m.p, Counter(s, nread, m.next), m.next, marks;
      if d in marks {
        assert marks.Keys == {d};
        assert !d.BodyData? ==> EndsWith(log, d) by { LogFitsOpen(s, log, d); }
        TrackFlush(calls, marks, data, i, d);
        marks' := CallbackData(data, i, marks, d);
        assert marks'.Keys == {};
      } else {
        assert marks.Keys == {};
        ReportedNone(Canon(calls), marks, data, i);
      }
      ReportedNone(Canon(calls), marks', data, i);
      ReportedNone(Canon(calls), marks', data, i + 1);
    }

    /** The switch, where something is notified. */
    method SwitchNote(data: string, i: nat, marks: Marks) returns (marks': Marks, next: Next)
      requires i < |data| && MarksFit(p.state, marks, i) && MidInv(p, nread) && errno.OK?
      requires LogFits(p.state, Reported(Canon(calls), marks, data, i))
      requires !p.state.BodyIdentity?
      requires var m := Step(p, data[i]); !m.next.Fail? && (m.act.Note? || m.act.EmptyValue?)
      modifies this`p, this`nread, this`errno, this`calls
      ensures PauseFits(app, old(calls), calls, errno)
      ensures errno.Paused? && next.Again? ==> !EndsMessage(calls)
      ensures var m := old(Step(p, data[i]));
              var l := Emit(old(Reported(Canon(calls), marks, data, i)), m.act, data[i]);
              && p == Answered(app.noBody, l, m)
              && next == m.next && nread == Counter(old(p.state), old(nread), next)
              && var e := if next.Again? then i else i + 1;
              && (errno.OK? || errno.Paused?)
              && MarksFit(p.state, marks', e)
              && Reported(Canon(calls), marks', data, e) == l
              && (errno.Paused? || next.Exit? ==> marks' == map[])
    {
      hide Step, MidInv, Sane, Asserts, LogFits, Reported, Canon, EndsWith;
      StepFacts(p, nread, data[i]);
      EndConsumes(p, data[i]);
      var m := Step(p, data[i]);
      p, nread, next, marks' := m.p, Counter(p.state, nread, m.next), m.next, marks;
      ReportedNone(Canon(calls), marks, data, i);
      if m.act.EmptyValue? {
        CanonAppend(calls, Data(ValueData, ""));
        Callback(Data(ValueData, ""));
      } else {
        var n := m.act.notice;
        CanonAppend(calls, Notify(n));
        Callback(Notify(n));
        if n.HeadersComplete? && app.noBody(Canon(calls)) {
          p := p.(flags := p.flags.(skipBody := true));
        }
      }
      ReportedNone(Canon(calls), marks, data, i);
      ReportedNone(Canon(calls), marks, data, i + 1);
    }

    /** CALLBACK_DATA for a body that is open. */
    method FlushBody(data: string, e: nat, marks: Marks) returns (marks': Marks)
      requires errno.OK? && marks.Keys == {BodyData} && marks[BodyData] <= e <= |data|
      modifies this`calls, this`errno
      ensures calls == old(calls) + [Data(BodyData, data[marks[BodyData]..e])] && marks' == map[]
      ensures (errno.OK? || errno.Paused?) && PauseFits(app, old(calls), calls, errno) && !EndsMessage(calls)
    {
      PauseFitsOne(app, calls, [Data(BodyData, data[marks[BodyData]..e])]);
      hide PauseFits;
      marks' := CallbackData(data, e, marks, BodyData);
      assert marks'.Keys == {};
    }

    /** The handling of BodyIdentity and ChunkData: skip as many bytes as the buffer and the content
        length allow.  Returns the position of the last byte skipped; Again says that the switch
        is to be executed again for it. */
    method SkipBody(data: string, i: nat, marks: Marks) returns (last: nat, marks': Marks, next: Next)
      requires i < |data| && MarksFit(p.state, marks, i) && MidInv(p, nread) && errno.OK?
      requires p.state.BodyIdentity? || p.state.ChunkData?
      modifies this`p, this`errno, this`calls
      ensures i <= last < |data| && (next.Again? || next.Consume?)
      ensures (errno.OK? || errno.Paused?) && PauseFits(app, old(calls), calls, errno) && Inv(p, nread)
      ensures errno.Paused? ==> !EndsMessage(calls)
      ensures var e := if next.Again? then last else last + 1;
              && MarksFit(p.state, marks', e)
              && (errno.Paused? ==> marks' == map[])
              && (next.Again? ==> p.state.MessageDone? && old(p.state).BodyIdentity? && MidInv(p, nread))
              && LogFits(p.state, Reported(Canon(calls), marks', data, e))
      ensures Advanced(app.noBody, old(p), nread, old(Reported(Canon(calls), marks, data, i)), data, i, last, next,
                       p, nread, Reported(Canon(calls), marks', data, End(next, last)))
    {
      hide Advanced, Reported, Canon, Grown, Asserts, MidInv, Inv, Collects, LogFits, PauseFits;
      PauseFitsNone(app, calls);
      BodyFacts(p, nread);
      assert Asserts(p, nread, data[i]) by { SaneAsserts(p, nread, data[i]); }
      ghost var log := Reported(Canon(calls), marks, data, i);
      var toRead := if p.contentLength < |data| - i then p.contentLength else |data| - i;
      SkipAdvances(app.noBody, p, nread, log, data, i, toRead);
      SkipFacts(p, nread, toRead);
      TrackBytes(Canon(calls), marks, data, i, toRead, BodyData);
      marks' := if BodyData in marks then marks else marks[BodyData := i];
      p := p.(contentLength := p.contentLength - toRead);
      last := i + toRead - 1;
      next := Consume;
      if p.contentLength == 0 {
        if p.state.BodyIdentity? {
          p := p.(state := MessageDone);
          TrackFlush(calls, marks', data, last + 1, BodyData);
          marks' := FlushBody(data, last + 1, marks');
          ReportedNone(Canon(calls), marks', data, last);
          next := Again;
        } else {
          p := p.(state := ChunkDataAlmostDone);
        }
      }
    }

    /** The handling of BodyIdentityEof: everything up to the end of the buffer is body. */
    method SkipEof(data: string, i: nat, marks: Marks) returns (marks': Marks)
      requires i < |data| && MarksFit(p.state, marks, i) && MidInv(p, nread) && p.state.BodyIdentityEof?
      ensures MarksFit(p.state, marks', |data|) && Inv(p, nread)
      ensures var log := Reported(Canon(calls), marks, data, i);
              Cont(app.noBody, p, nread, log, data[i], data[i + 1..])
              == Run(p, nread, Reported(Canon(calls), marks', data, |data|), |data| - i, Ran)
    {
      hide Cont, RunBytes, Reported, Canon, Grown, Keeps;
      RunIsCont(app.noBody, p, nread, Reported(Canon(calls), marks, data, i), data, i);
      BulkEof(app.noBody, p, nread, Reported(Canon(calls), marks, data, i), data[i..]);
      assert data[i..] == data[i..i + (|data| - i)];
      TrackBytes(Canon(calls), marks, data, i, |data| - i, BodyData);
      marks' := if BodyData in marks then marks else marks[BodyData := i];
    }

    /** One round of the loop, from the switch on: handles the byte at i, or bytes i to j. */
    method Round(data: string, i: nat, marks: Marks) returns (j: nat, marks': Marks, next: Next)
      requires i < |data| && MarksFit(p.state, marks, i) && MidInv(p, nread) && errno.OK?
      requires LogFits(p.state, Reported(Canon(calls), marks, data, i))
      modifies this`p, this`nread, this`errno, this`calls
      ensures i <= j < |data| && (forall d <- marks' :: marks'[d] <= End(next, j))
      ensures PauseFits(app, old(calls), calls, errno) && (errno.Paused? && next.Again? ==> !EndsMessage(calls))
      ensures if next.Fail? then errno == next.errno && !errno.OK? && !errno.Paused?
              else
                && (errno.OK? || errno.Paused?)
                && Inv(p, nread)
                && MarksFit(p.state, marks', End(next, j))
                && LogFits(p.state, Reported(Canon(calls), marks', data, End(next, j)))
                && (errno.Paused? || next.Exit? ==> marks' == map[])
      ensures next.Again? ==> MidInv(p, nread) && Rank(p.state) < Rank(old(p.state))
      ensures Advanced(app.noBody, old(p), old(nread), old(Reported(Canon(calls), marks, data, i)), data, i, j, next,
                       p, nread, Reported(Canon(calls), marks', data, End(next, j)))
    {
      hide Cont, RunBytes, Reported, Canon, Step, Inv, MidInv, LogFits, Collects, Within;
      if p.state.BodyIdentity? || p.state.ChunkData? {
        j, marks', next := SkipBody(data, i, marks);
      } else if p.state.BodyIdentityEof? {
        marks' := SkipEof(data, i, marks);
        j, next := |data| - 1, Consume;
        assert data[i + 1..j + 1] == data[i + 1..];
        EofFits(Reported(Canon(calls), marks', data, |data|));
      } else {
        StepAdvances(app.noBody, p, nread, Reported(Canon(calls), marks, data, i), data, i);
        StepInv(app.noBody, p, nread, Reported(Canon(calls), marks, data, i), data[i]);
        AgainRank(p, data[i]);
        hide Advanced;
        j := i;
        marks', next := Switch(data, i, marks);
      }
    }

    /** The callbacks for a run that is still open when the buffer ends. */
    method Leftover(data: string, marks: Marks)
      requires errno.OK? && MarksFit(p.state, marks, |data|)
      requires LogFits(p.state, Reported(Canon(calls), marks, data, |data|))
      modifies this`errno, this`calls
      ensures (errno.OK? || errno.Paused?) && PauseFits(app, old(calls), calls, errno)
      ensures Canon(calls) == old(Reported(Canon(calls), marks, data, |data|))
    {
      hide Canon, Reported, LogFits, Collects, PauseFits;
      ghost var d := if Collects(p.state).Of? then Collects(p.state).datum else BodyData;
      ghost var call := if d in marks then [Data(d, data[marks[d]..|data|])] else [];
      assert marks.Keys <= {d};
      assert |marks| <= 1 by { SmallSet(marks.Keys, d); }
      LeftoverLog(p.state, calls, marks, data, d);
      PauseFitsOne(app, calls, call);
      var left := marks;
      var order := [FieldData, ValueData, UrlData, BodyData, StatusData];
      for k := 0 to 5
        invariant errno.OK?
        invariant if d in left then left == marks && calls == old(calls) && d !in order[..k]
                  else left == map[] && calls == old(calls) + call && (call == [] || !app.pauses(calls))
      {
        assert order[..k + 1] == order[..k] + [order[k]];
        left := CallbackData(data, |data|, left, order[k]);
        if errno.Paused? {
          assert calls == old(calls) + call;
          return;
        }
      }
      assert d in order;
    }

    /** http_parser_execute */
    method Execute(data: string) returns (consumed: nat)
      requires Valid()
      modifies this`p, this`nread, this`errno, this`calls
      ensures Valid()
      ensures !old(errno).OK? ==>
                consumed == 0 && p == old(p) && nread == old(nread) && errno == old(errno) && calls == old(calls)
      ensures old(errno).OK? ==> PauseFits(app, old(calls), calls, errno)
      ensures old(errno).OK? && data == "" ==>
                p == old(p) && nread == old(nread) && AtEof(p.state, old(calls), calls, errno, consumed)
      ensures old(errno).OK? && data != "" ==>
                Executed(app.noBody, old(p), old(nread), old(Canon(calls)), data, p, nread, Canon(calls), errno,
                         consumed)
      ensures old(errno).OK? && data != "" ==>
                consumed <= |data| && (errno.OK? || (errno.Paused? && EndsMessage(calls)) ==> consumed > 0)
      ensures old(errno).OK? && data != "" && errno.Paused? && EndsMessage(calls) ==>
                Stands(app.noBody, old(p), old(nread), old(Canon(calls)), data, p, nread, Canon(calls), consumed)
    {
      if !errno.OK? {
        return 0;
      }
      if data == "" {
        consumed := ExecuteEof();
        return;
      }
      consumed := ExecuteLoop(data);
    }

    method ExecuteLoop(data: string) returns (consumed: nat)
      requires Valid() && errno.OK? && data != ""
      modifies this`p, this`nread, this`errno, this`calls
      ensures Valid() && PauseFits(app, old(calls), calls, errno)
      ensures Executed(app.noBody, old(p), old(nread), old(Canon(calls)), data, p, nread, Canon(calls), errno, consumed)
      ensures consumed <= |data| && (errno.OK? || (errno.Paused? && EndsMessage(calls)) ==> consumed > 0)
      ensures errno.Paused? && EndsMessage(calls) ==>
                Stands(app.noBody, old(p), old(nread), old(Canon(calls)), data, p, nread, Canon(calls), consumed)
    {
      hide RunBytes, Reported, Canon, Inv, MidInv, LogFits, Collects, Advanced, AtByte, ButForOne, Within;
      ghost var p0, n0, l0 := p, nread, Canon(calls);
      StartFits(p.state, l0, data);
      RunEmpty(app.noBody, p, nread, l0, data[..0], 0);
      var marks := StartMarks(p.state);
      var i, again := 0, false;
      while i < |data|
        invariant i <= |data| && errno.OK? && PauseFits(app, old(calls), calls, OK)
        invariant MarksFit(p.state, marks, i)
        invariant LogFits(p.state, Reported(Canon(calls), marks, data, i))
        invariant if again then i < |data| && MidInv(p, nread) else Inv(p, nread)
        invariant ComesBy(app.noBody, p0, n0, l0, data, i, again, p, nread, Reported(Canon(calls), marks, data, i))
        decreases |data| - i, if again then Rank(p.state) else 4
      {
        if !again {
          NextByte(app.noBody, p0, n0, l0, data, i, p, nread, Reported(Canon(calls), marks, data, i));
          if Overflows(p.state, nread) {
            ReportedButOne(Canon(calls), marks, data, i);
            errno, nread := HeaderOverflow, nread + 1;
            return i;
          }
          FetchInv(p, nread);
          nread := Fetch(p.state, nread);
        }
        HeldAtByte(app.noBody, p0, n0, l0, data, i, again, p, nread, Reported(Canon(calls), marks, data, i));
        ghost var before, from, p1, n1, l1 := calls, i, p, nread, Reported(Canon(calls), marks, data, i);
        var next: Next;
        i, marks, next := Round(data, i, marks);
        PauseTrans(app, old(calls), before, calls, errno);
        RoundInRun(app.noBody, p0, n0, l0, data, from, p1, n1, l1, i, next, p, nread,
                   Reported(Canon(calls), marks, data, End(next, i)));
        if next.Fail? {
          ReportedButOne(Canon(calls), marks, data, i);
          return i;
        }
        if errno.Paused? || next.Exit? {
          ReportedNone(Canon(calls), marks, data, End(next, i));
          return End(next, i);
        }
        again := next.Again?;
        i := End(next, i);
      }
      ghost var before := calls;
      assert data[..i] == data;
      Leftover(data, marks);
      PauseTrans(app, old(calls), before, calls, errno);
      return |data|;
    }
  }
}
