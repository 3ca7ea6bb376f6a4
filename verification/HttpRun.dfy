/** The parser as a machine that takes one byte at a time, and what its runs have in common:
    a run over a+b is the run over a followed by the run over b, and the header byte counter
    has no influence other than through the header size limit, where it is exactly known. */
module HttpRun {
  import opened HttpTypes
  import opened HttpMachine

  /** A callback history in which adjacent data callbacks of one kind are merged. */
  type Log = seq<Call>

  /** Append a callback to a merged history. */
  function Push(log: Log, c: Call): Log {
    if c.Data? && |log| > 0 && log[|log| - 1].Data? && log[|log| - 1].datum == c.datum
    then log[..|log| - 1] + [Data(c.datum, log[|log| - 1].bytes + c.bytes)]
    else log + [c]
  }

  /** The merged form of a callback trace. */
  function Canon(calls: seq<Call>): Log {
    if |calls| == 0 then [] else Push(Canon(calls[..|calls| - 1]), calls[|calls| - 1])
  }

  predicate EndsWith(log: Log, d: Datum) {
    |log| > 0 && log[|log| - 1].Data? && log[|log| - 1].datum == d
  }

  lemma CanonAppend(calls: seq<Call>, c: Call)
    ensures Canon(calls + [c]) == Push(Canon(calls), c)
  {
    assert (calls + [c])[..|calls + [c]| - 1] == calls;
  }

  /** Reporting s and then t is reporting s + t. */
  lemma PushTwice(log: Log, d: Datum, s: string, t: string)
    ensures Push(Push(log, Data(d, s)), Data(d, t)) == Push(log, Data(d, s + t))
  {
    if EndsWith(log, d) {
      assert (log[|log| - 1].bytes + s) + t == log[|log| - 1].bytes + (s + t);
    }
  }

  lemma PushNothing(log: Log, d: Datum)
    requires EndsWith(log, d)
    ensures Push(log, Data(d, "")) == log
  {
    assert log[|log| - 1].bytes + "" == log[|log| - 1].bytes;
    assert log[..|log| - 1] + [log[|log| - 1]] == log;
  }

  /** The application's answer to on_headers_complete, as a function of all callbacks so far:
      true means that the message has no body. */
  type NoBody = Log -> bool

  /** What a switch execution adds to the merged history when data is reported byte by byte. */
  function Emit(log: Log, act: Act, ch: char): Log {
    match act
    case Quiet => log
    case Mark(d) => Push(log, Data(d, [ch]))
    case Stay(d) => Push(log, Data(d, [ch]))
    case MarkFlush(d) => Push(log, Data(d, [ch]))
    case Flush(_) => log
    case EmptyValue => Push(log, Data(ValueData, ""))
    case Note(n) => log + [Notify(n)]
  }

  /** The parser after the callback of a switch execution has returned. */
  function Answered(noBody: NoBody, log: Log, m: Micro): Parser {
    if m.act.Note? && m.act.notice.HeadersComplete? && noBody(log)
    then m.p.(flags := m.p.flags.(skipBody := true))
    else m.p
  }

  /** How many more times a byte can be re-executed from a state, at most. */
  function Rank(s: State): nat {
    if s.StartReqOrRes? then 1
    else if s.HeadersAlmostDone? then 1
    else if s.HeaderFieldStart? then 2
    else if s.HeaderValueLws? then 3
    else if s.HeaderValueDiscardLws? then 3
    else if s.HeaderValue? then 1
    else if s.BodyIdentity? then 1
    else 0
  }

  /** A byte is executed again only in a state of lower rank, which is a header state if this one
      is; the header size limit is not the switch's business; and the parser is left only for an
      upgrade. */
  predicate RankFits(s: State, m: Micro) {
    && (m.next.Again? ==> Rank(m.p.state) < Rank(s) && (ParsingHeader(m.p.state) <==> ParsingHeader(s)))
    && (m.next.Fail? ==> !m.next.errno.HeaderOverflow?)
    && (m.next.Exit? ==> m.p.upgrade)
  }

  lemma AgainStart(p: Parser, ch: char)
    ensures SectionOf(p.state).InStart? ==> RankFits(p.state, StepStart(p, ch))
    ensures RankFits(p.state, StepStatusLine(p, ch))
  {
    hide IsAlpha, Version, FirstMethod, MethodInitial;
  }

  lemma AgainRequest(p: Parser, ch: char)
    ensures RankFits(p.state, StepMethod(p, ch))
    ensures RankFits(p.state, StepUrl(p, ch))
    ensures RankFits(p.state, StepRequestLine(p, ch))
  {
    hide MethodString, CanReroute, Reroute, ParseUrlChar, Version;
  }

  lemma AgainHeader(p: Parser, ch: char)
    ensures p.state.HeaderFieldStart? ==> RankFits(p.state, StepFieldStart(p, ch))
    ensures RankFits(p.state, StepField(p, ch))
    ensures RankFits(p.state, StepValue(p, ch))
  {
    hide IsToken, ToLower, FieldByte, HeaderFlags, Match, Lower;
  }

  lemma AgainBody(p: Parser, ch: char)
    ensures SectionOf(p.state).InHeadersEnd? ==> RankFits(p.state, StepHeadersEnd(p, ch))
    ensures RankFits(p.state, StepBody(p, ch))
    ensures RankFits(p.state, StepChunk(p, ch))
  {
    hide NeedsEof, ShouldKeepAlive, Unhex;
  }

  lemma AgainRank(p: Parser, ch: char)
    ensures RankFits(p.state, Step(p, ch))
  {
    AgainStart(p, ch);
    AgainRequest(p, ch);
    AgainHeader(p, ch);
    AgainBody(p, ch);
    hide RankFits, StepStart, StepStatusLine, StepMethod, StepUrl, StepRequestLine, StepFieldStart, StepField,
         StepValue, StepHeadersEnd, StepBody, StepChunk;
  }

  /** All that happens to one byte; `next` is never Again. */
  datatype Bitten = Bitten(p: Parser, nread: nat, log: Log, next: Next)

  function Bite(noBody: NoBody, p: Parser, nread: nat, log: Log, ch: char): (b: Bitten)
    ensures !b.next.Again?
    decreases Rank(p.state)
  {
    AgainRank(p, ch);
    var m := Step(p, ch);
    var l := Emit(log, m.act, ch);
    var q := Answered(noBody, l, m);
    var n := Counter(p.state, nread, m.next);
    if m.next.Again? then Bite(noBody, q, n, l, ch) else Bitten(q, n, l, m.next)
  }

  datatype Stop = Ran | Failed(errno: Errno) | Upgraded

  /** The outcome of running over a string: the parser, the header byte counter, the merged
      history, the number of bytes consumed and why the run stopped. */
  datatype Run = Run(p: Parser, nread: nat, log: Log, used: nat, stop: Stop)

  predicate Overflows(s: State, nread: nat) { ParsingHeader(s) && nread + 1 > MAX_HEADER_SIZE }

  function Fetch(s: State, nread: nat): nat { if ParsingHeader(s) then nread + 1 else nread }

  /** Run over data, one byte after the other. */
  function RunBytes(noBody: NoBody, p: Parser, nread: nat, log: Log, data: string): Run
    decreases |data|, 1
  {
    if data == "" then Run(p, nread, log, 0, Ran)
    else if Overflows(p.state, nread) then
      Run(p, Fetch(p.state, nread), log, 0, Failed(HeaderOverflow))
    else Cont(noBody, p, Fetch(p.state, nread), log, data[0], data[1..])
  }

  /** Run over ch + rest, when ch has already been counted. */
  function Cont(noBody: NoBody, p: Parser, nread: nat, log: Log, ch: char, rest: string): Run
    decreases |rest| + 1, 0
  {
    var b := Bite(noBody, p, nread, log, ch);
    if b.next.Fail? then Run(b.p, b.nread, b.log, 0, Failed(b.next.errno))
    else if b.next.Exit? then Run(b.p, b.nread, b.log, 1, Upgraded)
    else Later(RunBytes(noBody, b.p, b.nread, b.log, rest), 1)
  }

  /** The run r, seen from n bytes earlier. */
  function Later(r: Run, n: nat): Run { r.(used := r.used + n) }

  // ----- cutting a run in two

  /** A run that is not stopped consumes everything, and continues as a run over what follows;
      a stopped one ignores what follows. */
  lemma {:induction false} RunSplit(noBody: NoBody, p: Parser, nread: nat, log: Log, a: string, b: string)
    ensures var r := RunBytes(noBody, p, nread, log, a);
            && r.used <= |a|
            && (r.stop.Ran? ==>
                  r.used == |a| &&
                  RunBytes(noBody, p, nread, log, a + b) == Later(RunBytes(noBody, r.p, r.nread, r.log, b), |a|))
            && (!r.stop.Ran? ==> RunBytes(noBody, p, nread, log, a + b) == r)
    decreases |a|
  {
    hide Bite;
    if a == "" {
      assert a + b == b;
    } else {
      assert (a + b)[1..] == a[1..] + b;
      assert (a + b)[0] == a[0];
      if !Overflows(p.state, nread) {
        var n := Bite(noBody, p, Fetch(p.state, nread), log, a[0]);
        if n.next.Consume? {
          RunSplit(noBody, n.p, n.nread, n.log, a[1..], b);
        }
      }
    }
  }

  // ----- the middle of a byte

  /** Executing byte ch from (p, log) comes by (q, l), with the byte to be executed again. */
  ghost predicate Within(noBody: NoBody, p: Parser, log: Log, ch: char, q: Parser, l: Log)
    decreases Rank(p.state)
  {
    AgainRank(p, ch);
    var m := Step(p, ch);
    var l' := Emit(log, m.act, ch);
    var p' := Answered(noBody, l', m);
    m.next.Again? && ((q == p' && l == l') || Within(noBody, p', l', ch, q, l))
  }

  /** What is left of the byte is the same from there. */
  lemma {:induction false} WithinBite(noBody: NoBody, p: Parser, nread: nat, log: Log, ch: char, q: Parser, l: Log)
    requires Within(noBody, p, log, ch, q, l)
    ensures Bite(noBody, p, nread, log, ch) == Bite(noBody, q, nread, l, ch)
    ensures Rank(q.state) < Rank(p.state) && (ParsingHeader(q.state) <==> ParsingHeader(p.state))
    decreases Rank(p.state)
  {
    AgainRank(p, ch);
    var m := Step(p, ch);
    hide Step;
    var l' := Emit(log, m.act, ch);
    var p' := Answered(noBody, l', m);
    if !(q == p' && l == l') {
      WithinBite(noBody, p', nread, l', ch, q, l);
    }
  }

  lemma {:induction false} WithinTrans(noBody: NoBody, p: Parser, log: Log, ch: char, q: Parser, l: Log, q': Parser,
                                       l': Log)
    requires Within(noBody, p, log, ch, q, l) && Within(noBody, q, l, ch, q', l')
    ensures Within(noBody, p, log, ch, q', l')
    decreases Rank(p.state)
  {
    AgainRank(p, ch);
    var m := Step(p, ch);
    hide Step;
    var l1 := Emit(log, m.act, ch);
    var p1 := Answered(noBody, l1, m);
    if !(q == p1 && l == l1) {
      WithinTrans(noBody, p1, l1, ch, q, l, q', l');
    }
  }

  /** A run over data comes by (q, n, l) when i bytes are consumed: between two bytes or, if held, in
      the middle of the byte at i, which has been counted. */
  ghost predicate ComesBy(noBody: NoBody, p: Parser, nread: nat, log: Log, data: string, i: nat, held: bool,
                          q: Parser, n: nat, l: Log)
  {
    && i <= |data|
    && var r := RunBytes(noBody, p, nread, log, data[..i]);
       if held then
         && i < |data| && r.stop.Ran? && !Overflows(r.p.state, r.nread)
         && n == Fetch(r.p.state, r.nread) && Within(noBody, r.p, r.log, data[i], q, l)
       else r == Run(q, n, l, i, Ran)
  }

  // ----- the header byte counter

  /** Executing byte ch clears the counter. */
  predicate Clears(noBody: NoBody, p: Parser, log: Log, ch: char) { Bite(noBody, p, 1, log, ch).nread == 0 }

  /** Otherwise the counter is left alone, and it has no influence. */
  lemma {:induction false} BiteCount(noBody: NoBody, p: Parser, n: nat, log: Log, ch: char)
    ensures Bite(noBody, p, n, log, ch)
         == Bite(noBody, p, 1, log, ch).(nread := if Clears(noBody, p, log, ch) then 0 else n)
    ensures Clears(noBody, p, log, ch) || Bite(noBody, p, 1, log, ch).nread == 1
    decreases Rank(p.state)
  {
    AgainRank(p, ch);
    var s := Step(p, ch);
    hide Step;
    if s.next.Again? {
      var l := Emit(log, s.act, ch);
      BiteCount(noBody, Answered(noBody, l, s), n, l, ch);
    }
  }

  /** A run over data clears the counter somewhere, if there is no limit. */
  predicate Cleared(noBody: NoBody, p: Parser, log: Log, data: string)
    decreases |data|
  {
    data != "" &&
    (Clears(noBody, p, log, data[0]) ||
     var b := Bite(noBody, p, 1, log, data[0]);
     b.next.Consume? && Cleared(noBody, b.p, b.log, data[1..]))
  }

  function HeaderByte(s: State): nat { if ParsingHeader(s) then 1 else 0 }

  /** How many header bytes a run over data counts up to where it first clears the counter, if
      there is no limit. */
  function Climb(noBody: NoBody, p: Parser, log: Log, data: string): nat
    decreases |data|
  {
    if data == "" then 0
    else
      var b := Bite(noBody, p, 1, log, data[0]);
      HeaderByte(p.state) +
      if b.next.Consume? && !Clears(noBody, p, log, data[0]) then Climb(noBody, b.p, b.log, data[1..]) else 0
  }

  function Max(m: nat, n: nat): nat { if m < n then n else m }

  /** The highest count of header bytes in a run over data, if there is no limit. */
  function Highest(noBody: NoBody, p: Parser, nread: nat, log: Log, data: string): nat
    decreases |data|
  {
    if data == "" then 0
    else
      var b := Bite(noBody, p, Fetch(p.state, nread), log, data[0]);
      Max(if ParsingHeader(p.state) then nread + 1 else 0,
          if b.next.Consume? then Highest(noBody, b.p, b.nread, b.log, data[1..]) else 0)
  }

  /** Executing a byte does not fail by the header size limit, and leaves only for an upgrade. */
  lemma {:induction false} BiteNoOverflow(noBody: NoBody, p: Parser, nread: nat, log: Log, ch: char)
    ensures var b := Bite(noBody, p, nread, log, ch);
            (b.next.Fail? ==> !b.next.errno.HeaderOverflow?) && (b.next.Exit? ==> b.p.upgrade)
    decreases Rank(p.state)
  {
    AgainRank(p, ch);
    var m := Step(p, ch);
    hide Step;
    if m.next.Again? {
      var l := Emit(log, m.act, ch);
      BiteNoOverflow(noBody, Answered(noBody, l, m), Counter(p.state, nread, m.next), l, ch);
    }
  }

  /** A run meets the header size limit exactly if its highest count is above it. */
  lemma {:induction false} OverflowIsHigh(noBody: NoBody, p: Parser, nread: nat, log: Log, data: string)
    ensures RunBytes(noBody, p, nread, log, data).stop == Failed(HeaderOverflow)
        <==> Highest(noBody, p, nread, log, data) > MAX_HEADER_SIZE
    decreases |data|
  {
    hide Bite;
    if data != "" && !Overflows(p.state, nread) {
      var n := Fetch(p.state, nread);
      BiteNoOverflow(noBody, p, n, log, data[0]);
      var b := Bite(noBody, p, n, log, data[0]);
      if b.next.Consume? {
        OverflowIsHigh(noBody, b.p, b.nread, b.log, data[1..]);
      }
    }
  }

  /** A higher count at the start is felt up to where the counter is first cleared, and no further. */
  lemma {:induction false} HighestFrom(noBody: NoBody, p: Parser, m: nat, n: nat, log: Log, data: string)
    requires m <= n
    ensures var c := Climb(noBody, p, log, data);
            Highest(noBody, p, n, log, data) == Max(Highest(noBody, p, m, log, data), if c == 0 then 0 else n + c)
    decreases |data|
  {
    hide Bite, Clears, ParsingHeader;
    if data != "" {
      BiteCount(noBody, p, Fetch(p.state, m), log, data[0]);
      BiteCount(noBody, p, Fetch(p.state, n), log, data[0]);
      var b := Bite(noBody, p, 1, log, data[0]);
      if b.next.Consume? && !Clears(noBody, p, log, data[0]) {
        HighestFrom(noBody, b.p, Fetch(p.state, m), Fetch(p.state, n), b.log, data[1..]);
      }
    }
  }

  /** Two runs that start with different counts agree, but for the count, unless the one with the
      higher count meets the header size limit. */
  lemma {:induction false} RunCount(noBody: NoBody, p: Parser, m: nat, n: nat, log: Log, data: string)
    requires m <= n && RunBytes(noBody, p, n, log, data).stop != Failed(HeaderOverflow)
    ensures var s := RunBytes(noBody, p, n, log, data);
            var ahead := if Cleared(noBody, p, log, data) then 0 else n - m;
            ahead <= s.nread && RunBytes(noBody, p, m, log, data) == s.(nread := s.nread - ahead)
    decreases |data|
  {
    hide Bite, Clears, ParsingHeader;
    if data != "" {
      BiteCount(noBody, p, Fetch(p.state, m), log, data[0]);
      BiteCount(noBody, p, Fetch(p.state, n), log, data[0]);
      var b := Bite(noBody, p, 1, log, data[0]);
      if b.next.Consume? {
        var c := Clears(noBody, p, log, data[0]);
        RunCount(noBody, b.p, if c then 0 else Fetch(p.state, m), if c then 0 else Fetch(p.state, n), b.log, data[1..]);
      }
    }
  }

  /** Exactly then: the higher count makes a difference if and only if the other run stays within
      the limit, and the header bytes up to the first clearing carry the higher count above it. */
  lemma RunNread(noBody: NoBody, p: Parser, m: nat, n: nat, log: Log, data: string)
    requires m <= n
    ensures var a := RunBytes(noBody, p, m, log, data);
            var b := RunBytes(noBody, p, n, log, data);
            var c := Climb(noBody, p, log, data);
            && (b.stop == Failed(HeaderOverflow) && a.stop != Failed(HeaderOverflow)
                <==> Highest(noBody, p, m, log, data) <= MAX_HEADER_SIZE < n + c && c > 0)
            && (b.stop != Failed(HeaderOverflow) ==>
                  && a == b.(nread := a.nread)
                  && b.nread - a.nread == if Cleared(noBody, p, log, data) then 0 else n - m)
  {
    hide RunBytes, Highest, Climb, Cleared;
    OverflowIsHigh(noBody, p, m, log, data);
    OverflowIsHigh(noBody, p, n, log, data);
    HighestFrom(noBody, p, m, n, log, data);
    if RunBytes(noBody, p, n, log, data).stop != Failed(HeaderOverflow) {
      RunCount(noBody, p, m, n, log, data);
    }
  }

  // ----- skipping over body bytes

  /** log with s reported, if there is anything to report */
  function Grown(log: Log, d: Datum, s: string): Log {
    if s == "" then log else Push(log, Data(d, s))
  }

  lemma GrownTwice(log: Log, d: Datum, s: string, t: string)
    ensures Grown(Grown(log, d, s), d, t) == Grown(log, d, s + t)
  {
    if s == "" {
      assert s + t == t;
    } else if t == "" {
      assert s + t == s;
    } else {
      PushTwice(log, d, s, t);
    }
  }

  // One execution of the switch is that of the section the state belongs to.

  lemma StepOfLine(p: Parser, ch: char)
    ensures SectionOf(p.state).InStart? ==> Step(p, ch) == StepStart(p, ch)
    ensures SectionOf(p.state).InMethod? ==> Step(p, ch) == StepMethod(p, ch)
    ensures SectionOf(p.state).InUrl? ==> Step(p, ch) == StepUrl(p, ch)
  {
    hide StepStart, StepStatusLine, StepMethod, StepUrl, StepRequestLine, StepFieldStart, StepField, StepValue,
         StepHeadersEnd, StepBody, StepChunk;
  }

  lemma StepOfVersion(p: Parser, ch: char)
    ensures SectionOf(p.state).InStatusLine? ==> Step(p, ch) == StepStatusLine(p, ch)
    ensures SectionOf(p.state).InRequestLine? ==> Step(p, ch) == StepRequestLine(p, ch)
  {
    hide StepStart, StepStatusLine, StepMethod, StepUrl, StepRequestLine, StepFieldStart, StepField, StepValue,
         StepHeadersEnd, StepBody, StepChunk;
  }

  lemma StepOfField(p: Parser, ch: char)
    ensures SectionOf(p.state).InFieldStart? ==> Step(p, ch) == StepFieldStart(p, ch)
    ensures SectionOf(p.state).InField? ==> Step(p, ch) == StepField(p, ch)
  {
    hide StepStart, StepStatusLine, StepMethod, StepUrl, StepRequestLine, StepFieldStart, StepField, StepValue,
         StepHeadersEnd, StepBody, StepChunk;
  }

  lemma StepOfValue(p: Parser, ch: char)
    requires SectionOf(p.state).InValue?
    ensures Step(p, ch) == StepValue(p, ch)
  {
    hide StepStart, StepStatusLine, StepMethod, StepUrl, StepRequestLine, StepFieldStart, StepField, StepValue,
         StepHeadersEnd, StepBody, StepChunk;
  }

  lemma StepOfBody(p: Parser, ch: char)
    ensures SectionOf(p.state).InHeadersEnd? ==> Step(p, ch) == StepHeadersEnd(p, ch)
    ensures SectionOf(p.state).InBody? ==> Step(p, ch) == StepBody(p, ch)
  {
    hide StepStart, StepStatusLine, StepMethod, StepUrl, StepRequestLine, StepFieldStart, StepField, StepValue,
         StepHeadersEnd, StepBody, StepChunk;
  }

  lemma StepOfChunk(p: Parser, ch: char)
    requires SectionOf(p.state).InChunk?
    ensures Step(p, ch) == StepChunk(p, ch)
  {
    hide StepStart, StepStatusLine, StepMethod, StepUrl, StepRequestLine, StepFieldStart, StepField, StepValue,
         StepHeadersEnd, StepBody, StepChunk;
  }

  lemma BodyByte(noBody: NoBody, p: Parser, nread: nat, log: Log, ch: char)
    requires (p.state.BodyIdentity? || p.state.ChunkData?) && p.contentLength > 1
    ensures Bite(noBody, p, nread, log, ch)
         == Bitten(p.(contentLength := p.contentLength - 1), nread, Push(log, Data(BodyData, [ch])), Consume)
  {
    hide Step;
    if p.state.BodyIdentity? {
      StepOfBody(p, ch);
    } else {
      StepOfChunk(p, ch);
    }
  }

  /** Advancing content_length and the data pointer by k at once is what k single steps do. */
  lemma {:induction false} BulkSkip(noBody: NoBody, p: Parser, nread: nat, log: Log, data: string, k: nat)
    requires p.state.BodyIdentity? || p.state.ChunkData?
    requires k <= |data| && k < p.contentLength
    ensures RunBytes(noBody, p, nread, log, data)
         == Later(RunBytes(noBody, p.(contentLength := p.contentLength - k), nread,
                           Grown(log, BodyData, data[..k]), data[k..]), k)
    decreases k
  {
    hide Bite, Step, Push;
    if k == 0 {
      assert data[0..] == data;
    } else {
      var q := p.(contentLength := p.contentLength - 1);
      var l := Push(log, Data(BodyData, [data[0]]));
      BodyByte(noBody, p, nread, log, data[0]);
      BulkSkip(noBody, q, nread, l, data[1..], k - 1);
      assert data[1..][k - 1..] == data[k..];
      assert [data[0]] + data[1..][..k - 1] == data[..k];
      GrownTwice(log, BodyData, [data[0]], data[1..][..k - 1]);
    }
  }

  lemma EofByte(p: Parser, ch: char)
    requires p.state.BodyIdentityEof?
    ensures Step(p, ch) == Micro(p, Mark(BodyData), Consume)
  {
    hide Step;
    StepOfBody(p, ch);
  }

  /** Until end of file, the pointer may jump to the end of the buffer. */
  lemma {:induction false} BulkEof(noBody: NoBody, p: Parser, nread: nat, log: Log, data: string)
    requires p.state.BodyIdentityEof?
    ensures RunBytes(noBody, p, nread, log, data) == Run(p, nread, Grown(log, BodyData, data), |data|, Ran)
    decreases |data|
  {
    hide Step, StepBody, Push;
    if data != "" {
      var l := Push(log, Data(BodyData, [data[0]]));
      EofByte(p, data[0]);
      assert Bite(noBody, p, nread, log, data[0]) == Bitten(p, nread, l, Consume);
      hide Bite;
      BulkEof(noBody, p, nread, l, data[1..]);
      assert [data[0]] + data[1..] == data;
      GrownTwice(log, BodyData, [data[0]], data[1..]);
    }
  }
}
