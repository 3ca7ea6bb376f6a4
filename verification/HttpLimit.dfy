/** An input on which pausing makes the parser meet the header size limit: a request whose header is
    as long as allowed, with a line feed as its last byte, and an application that pauses the parser
    when it is given the header value. */
module HttpLimit {
  import opened HttpTypes
  import opened HttpMachine
  import opened HttpRun
  import opened HttpParser
  import opened HttpSession
  import opened HttpBody

  const OPENING := "GET /\nA:a"

  function Filler(n: nat): string { seq(n, _ => 'a') }

  function TheStream(): string { OPENING + Filler(MAX_HEADER_SIZE - 10) + [LF] }

  /** The parser inside the header value. */
  function InTheValue(): Parser {
    Parser(Request, NO_FLAGS, HeaderValue, General, 0, ULLONG_MAX, 0, 9, 0, GET, false)
  }

  /** The callbacks made so far when n + 1 bytes of the value have been reported. */
  function TheCalls(n: nat): seq<Call> {
    [Notify(MessageBegin), Data(UrlData, "/"), Data(FieldData, "A"), Data(ValueData, "a" + Filler(n))]
  }

  predicate GivesValue(calls: seq<Call>) {
    calls != [] && calls[|calls| - 1].Data? && calls[|calls| - 1].datum.ValueData?
  }

  /** The application that pauses in the header value callback, and only there. */
  function ValuePauser(noBody: NoBody): App { App(calls => GivesValue(calls), noBody) }

  lemma TheMethod(noBody: NoBody)
    ensures Leads(noBody, Init(Request), 0, [], "GET ",
                  InTheValue().(state := ReqSpacesBeforeUrl, index := 4, minor := 0), 4, [Notify(MessageBegin)])
  {
    hide RunBytes, Step;
    var p0 := Init(Request);
    var p1 := InTheValue().(state := ReqMethod, index := 1, minor := 0);
    var l := [Notify(MessageBegin)];
    StepOfLine(p0, 'G');
    OneByte(noBody, p0, 0, [], 'G');
    assert [] + l == l;
    StepOfLine(p1, 'E');
    OneByte(noBody, p1, 1, l, 'E');
    StepOfLine(p1.(index := 2), 'T');
    OneByte(noBody, p1.(index := 2), 2, l, 'T');
    StepOfLine(p1.(index := 3), ' ');
    OneByte(noBody, p1.(index := 3), 3, l, ' ');
    assert "G" + "E" == "GE" && "GE" + "T" == "GET" && "GET" + " " == "GET ";
    LeadsOn(noBody, p0, 0, [], "G", p1, 1, l, "E", p1.(index := 2), 2, l);
    LeadsOn(noBody, p0, 0, [], "GE", p1.(index := 2), 2, l, "T", p1.(index := 3), 3, l);
    LeadsOn(noBody, p0, 0, [], "GET", p1.(index := 3), 3, l, " ", p1.(index := 4, state := ReqSpacesBeforeUrl), 4, l);
  }

  lemma TheTarget(noBody: NoBody)
    ensures Leads(noBody, InTheValue().(state := ReqSpacesBeforeUrl, index := 4, minor := 0), 4, [Notify(MessageBegin)],
                  "/\n", InTheValue().(state := HeaderFieldStart, index := 4), 6,
                  [Notify(MessageBegin), Data(UrlData, "/")])
  {
    hide RunBytes, Step;
    var p0 := InTheValue().(state := ReqSpacesBeforeUrl, index := 4, minor := 0);
    var p1 := p0.(state := ReqPath);
    var l0, l1 := [Notify(MessageBegin)], [Notify(MessageBegin), Data(UrlData, "/")];
    StepOfLine(p0, '/');
    OneByte(noBody, p0, 4, l0, '/');
    assert l0 + [Data(UrlData, "/")] == l1;
    StepOfLine(p1, LF);
    OneByte(noBody, p1, 5, l1, LF);
    LeadsOn(noBody, p0, 4, l0, "/", p1, 5, l1, [LF], InTheValue().(state := HeaderFieldStart, index := 4), 6, l1);
    assert "/" + [LF] == "/\n";
  }

  lemma TheName(noBody: NoBody, log: Log)
    requires !EndsWith(log, FieldData)
    ensures Leads(noBody, InTheValue().(state := HeaderFieldStart, index := 4), 6, log, "A",
                  InTheValue().(state := HeaderField), 7, log + [Data(FieldData, "A")])
  {
    hide RunBytes, Step;
    var p := InTheValue().(state := HeaderFieldStart, index := 4);
    StepOfField(p, 'A');
    OneByte(noBody, p, 6, log, 'A');
  }

  lemma TheField(noBody: NoBody)
    ensures Leads(noBody, InTheValue().(state := HeaderFieldStart, index := 4), 6,
                  [Notify(MessageBegin), Data(UrlData, "/")],
                  "A:", InTheValue().(state := HeaderValueDiscardWs), 8, TheCalls(0)[..3])
  {
    hide RunBytes, Step, FieldByte;
    var p0 := InTheValue().(state := HeaderFieldStart, index := 4);
    var p1 := InTheValue().(state := HeaderField);
    var l0, l1 := [Notify(MessageBegin), Data(UrlData, "/")], TheCalls(0)[..3];
    assert l0 + [Data(FieldData, "A")] == l1;
    TheName(noBody, l0);
    StepOfField(p1, ':');
    OneByte(noBody, p1, 7, l1, ':');
    assert "A" + ":" == "A:";
    LeadsOn(noBody, p0, 6, l0, "A", p1, 7, l1, ":", InTheValue().(state := HeaderValueDiscardWs), 8, l1);
  }

  lemma TheValue(noBody: NoBody)
    ensures Leads(noBody, InTheValue().(state := HeaderValueDiscardWs), 8, TheCalls(0)[..3], "a", InTheValue(), 9,
                  TheCalls(0))
  {
    hide RunBytes, Step;
    var p := InTheValue().(state := HeaderValueDiscardWs);
    StepOfValue(p, 'a');
    OneByte(noBody, p, 8, TheCalls(0)[..3], 'a');
    assert "a" + Filler(0) == "a";
    assert TheCalls(0)[..3] + [Data(ValueData, "a")] == TheCalls(0);
  }

  lemma TheOpening(noBody: NoBody)
    ensures Leads(noBody, Init(Request), 0, [], OPENING, InTheValue(), 9, TheCalls(0))
  {
    hide Leads;
    TheMethod(noBody);
    TheTarget(noBody);
    TheField(noBody);
    TheValue(noBody);
    var p0 := InTheValue().(state := ReqSpacesBeforeUrl, index := 4, minor := 0);
    var p1 := InTheValue().(state := HeaderFieldStart, index := 4);
    var p2 := InTheValue().(state := HeaderValueDiscardWs);
    var l0, l1, l2 := [Notify(MessageBegin)], [Notify(MessageBegin), Data(UrlData, "/")], TheCalls(0)[..3];
    LeadsOn(noBody, Init(Request), 0, [], "GET ", p0, 4, l0, "/\n", p1, 6, l1);
    LeadsOn(noBody, Init(Request), 0, [], "GET " + "/\n", p1, 6, l1, "A:", p2, 8, l2);
    LeadsOn(noBody, Init(Request), 0, [], "GET " + "/\n" + "A:", p2, 8, l2, "a", InTheValue(), 9, TheCalls(0));
    assert "GET " + "/\n" + "A:" + "a" == OPENING;
  }

  /** The value goes on. */
  lemma {:induction false} Filling(noBody: NoBody, n: nat)
    requires 9 + n <= MAX_HEADER_SIZE
    ensures Leads(noBody, Init(Request), 0, [], OPENING + Filler(n), InTheValue(), 9 + n, TheCalls(n))
  {
    hide RunBytes, Step;
    if n == 0 {
      TheOpening(noBody);
      assert OPENING + Filler(0) == OPENING;
    } else {
      Filling(noBody, n - 1);
      StepOfValue(InTheValue(), 'a');
      OneByte(noBody, InTheValue(), 8 + n, TheCalls(n - 1), 'a');
      assert ("a" + Filler(n - 1)) + ['a'] == "a" + Filler(n);
      assert TheCalls(n - 1)[..3] + [Data(ValueData, "a" + Filler(n))] == TheCalls(n);
      LeadsOn(noBody, Init(Request), 0, [], OPENING + Filler(n - 1), InTheValue(), 8 + n, TheCalls(n - 1),
              "a", InTheValue(), 9 + n, TheCalls(n));
      assert OPENING + Filler(n - 1) + "a" == OPENING + Filler(n);
    }
  }

  /** The last byte of the header, a line feed: it is executed twice, and in between the value is
      reported. */
  lemma TheLineFeed(noBody: NoBody, log: Log)
    ensures var q := InTheValue().(state := HeaderAlmostDone);
            && Within(noBody, InTheValue(), log, LF, q, log)
            && Leads(noBody, InTheValue(), MAX_HEADER_SIZE - 1, log, [LF], q.(state := HeaderValueLws),
                     MAX_HEADER_SIZE, log)
  {
    hide Step, Cont;
    var p, q := InTheValue(), InTheValue().(state := HeaderAlmostDone);
    StepOfValue(p, LF);
    StepOfValue(q, LF);
    ContStep(noBody, p, MAX_HEADER_SIZE, log, LF, []);
    ContStep(noBody, q, MAX_HEADER_SIZE, log, LF, []);
    assert [LF][1..] == [];
  }

  /** The points of the session: the start, and the pause in front of the line feed. */
  function ThePoints(): seq<Point> {
    [Point(Init(Request), 0, [], 0),
     Point(InTheValue().(state := HeaderAlmostDone), MAX_HEADER_SIZE, TheCalls(MAX_HEADER_SIZE - 10),
           MAX_HEADER_SIZE - 1)]
  }

  lemma CanonTheCalls(n: nat)
    ensures Canon(TheCalls(n)) == TheCalls(n)
  {
    var c := TheCalls(n);
    assert c[..1] == [c[0]] && c[..2] == [c[0]] + [c[1]] && c[..3] == c[..2] + [c[2]] && c == c[..3] + [c[3]];
    assert Canon(c[..0]) == [];
    CanonAppend([], c[0]);
    assert [] + [c[0]] == c[..1];
    CanonAppend(c[..1], c[1]);
    CanonAppend(c[..2], c[2]);
    CanonAppend(c[..3], c[3]);
  }

  /** The header size limit has to be excepted from pause invariance: one call on the stream is fine,
      but if the application pauses when it is given the header value, the call that goes on with the
      last byte counts it again, and fails. */
  lemma PausingCountsTwice(noBody: NoBody)
    ensures var a, calls := ThePoints()[1], TheCalls(MAX_HEADER_SIZE - 10);
            && |TheStream()| == MAX_HEADER_SIZE
            && Session(noBody, TheStream(), ThePoints(), [MAX_HEADER_SIZE], [Paused])
            && PauseFits(ValuePauser(noBody), [], calls, Paused) && Canon(calls) == a.log
            && RunBytes(noBody, Init(Request), 0, [], TheStream()).stop == Ran
            && RunBytes(noBody, a.p, a.nread, a.log, TheStream()[a.pos..]).stop == Failed(HeaderOverflow)
  {
    hide RunBytes, Step, Within, Canon;
    var n, s := MAX_HEADER_SIZE - 10, TheStream();
    var a := ThePoints()[1];
    Filling(noBody, n);
    TheLineFeed(noBody, TheCalls(n));
    LeadsOn(noBody, Init(Request), 0, [], OPENING + Filler(n), InTheValue(), MAX_HEADER_SIZE - 1, TheCalls(n), [LF],
            InTheValue().(state := HeaderValueLws), MAX_HEADER_SIZE, TheCalls(n));
    CanonTheCalls(n);
    assert s[a.pos..] == [LF];
    NextByteOverflows(noBody, a.p, a.log);
    var first := ThePoints()[0];
    assert s[0..MAX_HEADER_SIZE] == s && s[..a.pos] == OPENING + Filler(n) && s[a.pos] == LF;
    assert ComesBy(noBody, first.p, 0, [], s, a.pos, true, a.p, a.nread, a.log);
    assert Continues(noBody, s, first, MAX_HEADER_SIZE, Paused, a);
  }

  lemma NextByteOverflows(noBody: NoBody, p: Parser, log: Log)
    requires ParsingHeader(p.state)
    ensures RunBytes(noBody, p, MAX_HEADER_SIZE, log, [LF]).stop == Failed(HeaderOverflow)
  {
  }
}
