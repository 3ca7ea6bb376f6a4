/** The first line of a message: the numbers in it are read exactly or refused, and what the line says is
    what the parser stores and reports. */
module HttpStartLine {
  import opened HttpTypes
  import opened HttpMachine
  import opened HttpRun
  import opened HttpParser
  import opened HttpBody
  import opened HttpRecognisers
  import U = HttpUrl
  import UX = HttpUrlExact

  // ----- numbers

  predicate Digits(s: string) { forall i :: 0 <= i < |s| ==> IsNum(s[i]) }

  /** A version number or a status code. */
  predicate Number(s: string) { s != "" && Digits(s) && DecFrom(0, s) <= 999 }

  function Value(s: string): nat
    requires Number(s)
  {
    DecFrom(0, s)
  }

  /** Where the first digit of a number is read, and where the others are. */
  predicate First(s: State) {
    s.ResFirstMajor? || s.ResFirstMinor? || s.ResFirstStatusCode? || s.ReqFirstMajor? || s.ReqFirstMinor?
  }

  predicate Counting(s: State) { s.ResMajor? || s.ResMinor? || s.ResStatusCode? || s.ReqMajor? || s.ReqMinor? }

  function Others(s: State): State
    requires First(s)
  {
    if s.ResFirstMajor? then ResMajor
    else if s.ResFirstMinor? then ResMinor
    else if s.ResFirstStatusCode? then ResStatusCode
    else if s.ReqFirstMajor? then ReqMajor
    else ReqMinor
  }

  /** The number so far. */
  function Count(p: Parser): nat
    requires Counting(p.state)
  {
    if p.state.ResMajor? || p.state.ReqMajor? then p.major
    else if p.state.ResMinor? || p.state.ReqMinor? then p.minor
    else p.status
  }

  function WithCount(p: Parser, v: nat): Parser
    requires Counting(p.state)
  {
    if p.state.ResMajor? || p.state.ReqMajor? then p.(major := v)
    else if p.state.ResMinor? || p.state.ReqMinor? then p.(minor := v)
    else p.(status := v)
  }

  function Complaint(s: State): Errno {
    if s.ResFirstStatusCode? || s.ResStatusCode? then InvalidStatus else InvalidVersion
  }

  /** The bytes that end a number, and where they lead. */
  predicate Terminates(s: State, ch: char) {
    if s.ResMajor? || s.ReqMajor? then ch == '.'
    else if s.ResMinor? then ch == ' '
    else if s.ReqMinor? then ch == CR || ch == LF
    else ch == ' ' || ch == CR || ch == LF
  }

  function Behind(s: State, ch: char): State {
    if s.ResMajor? then ResFirstMinor
    else if s.ReqMajor? then ReqFirstMinor
    else if s.ResMinor? then ResFirstStatusCode
    else if ch == LF then HeaderFieldStart
    else if s.ReqMinor? then ReqLineAlmostDone
    else if ch == CR then ResLineAlmostDone
    else ResStatusStart
  }

  lemma CountStep(p: Parser, ch: char)
    requires Counting(p.state)
    ensures Step(p, ch)
         == if IsNum(ch) then
              var v := Count(p) * 10 + Digit(ch);
              Micro(WithCount(p, v), Quiet, if v > 999 then Fail(Complaint(p.state)) else Consume)
            else if Terminates(p.state, ch) then Micro(p.(state := Behind(p.state, ch)), Quiet, Consume)
            else Micro(p, Quiet, Fail(Complaint(p.state)))
  {
    hide Step;
    StepOfVersion(p, ch);
  }

  lemma FirstStep(p: Parser, ch: char)
    requires First(p.state) && !(p.state.ResFirstStatusCode? && ch == ' ')
    ensures Step(p, ch)
         == if IsNum(ch) && !(p.state.ReqFirstMajor? && ch == '0') then
              Micro(WithCount(p.(state := Others(p.state)), Digit(ch)), Quiet, Consume)
            else Micro(p, Quiet, Fail(Complaint(p.state)))
  {
    hide Step;
    StepOfVersion(p, ch);
  }

  lemma CountIs(p: Parser, v: nat)
    requires Counting(p.state)
    ensures var q := WithCount(p, v);
            q.state == p.state && Count(q) == v && forall v' :: WithCount(q, v') == WithCount(p, v')
  {
  }

  predicate NoneEnds(s: State, w: string) { forall i :: 0 <= i < |w| ==> !Terminates(s, w[i]) }

  /** Reading on through a number, to the byte that ends it: exactly the digits are accepted, as long as
      the number is not above 999. */
  lemma {:induction false} CountExact(noBody: NoBody, p: Parser, n: nat, log: Log, w: string, d: char)
    requires Counting(p.state) && Count(p) <= 999 && NoneEnds(p.state, w) && Terminates(p.state, d)
    requires n + |w| + 1 <= MAX_HEADER_SIZE
    ensures var r := RunBytes(noBody, p, n, log, w + [d]);
            if Digits(w) && DecFrom(Count(p), w) <= 999 then
              r == Run(WithCount(p, DecFrom(Count(p), w)).(state := Behind(p.state, d)), n + |w| + 1, log, |w| + 1, Ran)
            else r.stop == Failed(Complaint(p.state))
    decreases |w|
  {
    hide Step, Cont, Behind, Complaint, Counting, Count, WithCount;
    var data := w + [d];
    CountStep(p, data[0]);
    CountCounted(p, n + 1);
    ContStep(noBody, p, n + 1, log, data[0], data[1..]);
    if w == "" {
      assert data[1..] == "";
      CountItself(p);
    } else if IsNum(w[0]) {
      assert data[1..] == w[1..] + [d];
      var v := Count(p) * 10 + Digit(w[0]);
      CountIs(p, v);
      if v <= 999 {
        CountExact(noBody, WithCount(p, v), n + 1, log, w[1..], d);
        assert Digits(w) <==> Digits(w[1..]);
      } else if Digits(w) {
        DecGrows(v, w[1..]);
      }
    }
  }

  lemma CountCounted(p: Parser, n: nat)
    requires Counting(p.state) || First(p.state)
    ensures ParsingHeader(p.state) && forall next: Next :: Counter(p.state, n, next) == n
  {
  }

  lemma CountItself(p: Parser)
    requires Counting(p.state)
    ensures WithCount(p, Count(p)) == p
  {
  }

  /** A whole number, from its first digit to the byte that ends it. */
  lemma NumberExact(noBody: NoBody, p: Parser, n: nat, log: Log, w: string, d: char)
    requires First(p.state) && NoneEnds(Others(p.state), w) && Terminates(Others(p.state), d)
    requires p.state.ResFirstStatusCode? && w == "" ==> d != ' '
    requires n + |w| + 1 <= MAX_HEADER_SIZE
    ensures var r := RunBytes(noBody, p, n, log, w + [d]);
            if Number(w) && !(p.state.ReqFirstMajor? && w[0] == '0') then
              r == Run(WithCount(p.(state := Others(p.state)), Value(w)).(state := Behind(Others(p.state), d)),
                       n + |w| + 1, log, |w| + 1, Ran)
            else r.stop == Failed(Complaint(p.state))
  {
    hide Step, Cont, Behind, Counting, Count, WithCount;
    var data := w + [d];
    FirstStep(p, data[0]);
    CountCounted(p, n + 1);
    ContStep(noBody, p, n + 1, log, data[0], data[1..]);
    if w != "" && IsNum(w[0]) && !(p.state.ReqFirstMajor? && w[0] == '0') {
      assert data[1..] == w[1..] + [d];
      FromFirst(p, Digit(w[0]));
      var q := WithCount(p.(state := Others(p.state)), Digit(w[0]));
      CountExact(noBody, q, n + 1, log, w[1..], d);
      assert Digits(w) <==> Digits(w[1..]);
    }
  }

  lemma FromFirst(p: Parser, v: nat)
    requires First(p.state)
    ensures var o := p.(state := Others(p.state));
            && Counting(o.state) && Complaint(o.state) == Complaint(p.state) && WithCount(o, v).state == o.state
            && Count(WithCount(o, v)) == v && forall v' :: WithCount(WithCount(o, v), v') == WithCount(o, v')
  {
  }

  // ----- the line's end

  /** Where the first byte of the line's end has led, the rest of it follows. */
  lemma LineEnd(noBody: NoBody, p: Parser, n: nat, log: Log, eol: string)
    requires Eol(eol) && n + |eol| <= MAX_HEADER_SIZE + 1
    requires if eol[0] == LF then p.state.HeaderFieldStart?
             else p.state.ResLineAlmostDone? || p.state.ReqLineAlmostDone?
    ensures Leads(noBody, p, n, log, eol[1..], p.(state := HeaderFieldStart), n + |eol| - 1, log)
  {
    hide RunBytes, Step;
    if eol[0] == LF {
      assert eol[1..] == "";
      RunEmpty(noBody, p, n, log, "", 0);
    } else {
      assert eol[1..] == [LF];
      StepOfVersion(p, LF);
      OneByte(noBody, p, n, log, LF);
    }
  }

  predicate Spaces(s: string) { forall i :: 0 <= i < |s| ==> s[i] == ' ' }

  /** Spaces in front of a status code, a URL or a version are skipped. */
  lemma {:induction false} SkipSpaces(noBody: NoBody, p: Parser, n: nat, log: Log, s: string)
    requires p.state.ResFirstStatusCode? || p.state.ReqHttpStart? || p.state.ReqSpacesBeforeUrl?
    requires Spaces(s) && n + |s| <= MAX_HEADER_SIZE
    ensures Leads(noBody, p, n, log, s, p, n + |s|, log)
    decreases |s|
  {
    hide Step, Cont;
    if s != "" {
      SpaceStep(p, n + 1);
      ContStep(noBody, p, n + 1, log, ' ', s[1..]);
      SkipSpaces(noBody, p, n + 1, log, s[1..]);
    }
  }

  lemma SpaceStep(p: Parser, n: nat)
    requires p.state.ResFirstStatusCode? || p.state.ReqHttpStart? || p.state.ReqSpacesBeforeUrl?
    ensures Step(p, ' ') == Micro(p, Quiet, Consume) && ParsingHeader(p.state) && Counter(p.state, n, Consume) == n
  {
    StepOfVersion(p, ' ');
    StepOfLine(p, ' ');
    hide Step;
  }

  // ----- status lines

  /** A status line as sent; phrase is what is between the code and the end of the line. */
  datatype StatusLine = StatusLine(major: string, minor: string, space: string, code: string, phrase: string,
                                   eol: string)

  /** The words are delimited as they should be; otherwise they are any bytes. */
  predicate IsStatusLine(l: StatusLine) {
    && NoneEnds(ResMajor, l.major) && NoneEnds(ResMinor, l.minor) && Spaces(l.space) && NoneEnds(ResStatusCode, l.code)
    && OneLine(l.phrase) && (l.phrase != "" ==> l.code != "" && l.phrase[0] == ' ') && Eol(l.eol)
  }

  function CodeText(l: StatusLine): string { l.space + (l.code + (l.phrase + l.eol)) }

  function MinorText(l: StatusLine): string { (l.minor + " ") + CodeText(l) }

  function MajorText(l: StatusLine): string { (l.major + ".") + MinorText(l) }

  function StatusText(l: StatusLine): string { "HTTP/" + MajorText(l) }

  /** What is reported of the reason phrase. */
  function Reason(l: StatusLine): seq<Call> { if |l.phrase| <= 1 then [] else [Data(StatusData, l.phrase[1..])] }

  lemma ReasonStep(p: Parser, ch: char)
    requires p.state.ResStatus? && ch != CR && ch != LF
    ensures Step(p, ch) == Micro(p, Stay(StatusData), Consume)
  {
    StepOfVersion(p, ch);
    hide Step;
  }

  lemma {:induction false} ReasonOn(noBody: NoBody, p: Parser, n: nat, log: Log, s: string)
    requires p.state.ResStatus? && OneLine(s) && n + |s| <= MAX_HEADER_SIZE
    ensures Leads(noBody, p, n, log, s, p, n + |s|, Grown(log, StatusData, s))
    decreases |s|
  {
    hide Step, Push, Cont, StepStatusLine;
    if s != "" {
      ReasonStep(p, s[0]);
      ContStep(noBody, p, n + 1, log, s[0], s[1..]);
      assert [s[0]] + s[1..] == s;
      GrownTwice(log, StatusData, [s[0]], s[1..]);
      ReasonOn(noBody, p, n + 1, Grown(log, StatusData, [s[0]]), s[1..]);
    }
  }

  /** The reason phrase, to the end of the line. */
  lemma ReasonLine(noBody: NoBody, p: Parser, n: nat, log: Log, s: string, eol: string)
    requires p.state.ResStatusStart? && OneLine(s) && Eol(eol) && n + |s| + |eol| <= MAX_HEADER_SIZE
    ensures Leads(noBody, p, n, log, s + eol,
                  p.(state := HeaderFieldStart, index := if s == "" then p.index else 0), n + |s| + |eol|,
                  Grown(log, StatusData, s))
  {
    hide RunBytes, Step, Push;
    var q := if s == "" then p else p.(state := ResStatus, index := 0);
    var l := Grown(log, StatusData, s);
    if s == "" {
      RunEmpty(noBody, p, n, log, "", 0);
    } else {
      StepOfVersion(p, s[0]);
      OneByte(noBody, p, n, log, s[0]);
      ReasonOn(noBody, q, n + 1, Grown(log, StatusData, [s[0]]), s[1..]);
      assert [s[0]] + s[1..] == s;
      GrownTwice(log, StatusData, [s[0]], s[1..]);
      LeadsOn(noBody, p, n, log, [s[0]], q, n + 1, Grown(log, StatusData, [s[0]]), s[1..], q, n + |s|, l);
    }
    ReasonEnd(noBody, q, n + |s|, l, eol);
    LeadsOn(noBody, p, n, log, s, q, n + |s|, l, eol, q.(state := HeaderFieldStart), n + |s| + |eol|, l);
  }

  lemma ReasonEnd(noBody: NoBody, p: Parser, n: nat, log: Log, eol: string)
    requires (p.state.ResStatusStart? || p.state.ResStatus?) && Eol(eol) && n + |eol| <= MAX_HEADER_SIZE
    ensures Leads(noBody, p, n, log, eol, p.(state := HeaderFieldStart), n + |eol|, log)
  {
    hide RunBytes, Step;
    var e := p.(state := if eol[0] == LF then HeaderFieldStart else ResLineAlmostDone);
    StepOfVersion(p, eol[0]);
    OneByte(noBody, p, n, log, eol[0]);
    LineEnd(noBody, e, n + 1, log, eol);
    LeadsOn(noBody, p, n, log, [eol[0]], e, n + 1, log, eol[1..], p.(state := HeaderFieldStart), n + |eol|, log);
    assert [eol[0]] + eol[1..] == eol;
  }

  /** What is behind the byte that ends the code. */
  lemma PhraseEnd(noBody: NoBody, p: Parser, n: nat, log: Log, l: StatusLine)
    requires IsStatusLine(l) && n + |l.phrase| + |l.eol| <= MAX_HEADER_SIZE + 1 && !EndsWith(log, StatusData)
    requires p.state == Behind(ResStatusCode, (l.phrase + l.eol)[0])
    ensures Leads(noBody, p, n, log, (l.phrase + l.eol)[1..],
                  p.(state := HeaderFieldStart, index := if |l.phrase| <= 1 then p.index else 0),
                  n + |l.phrase| + |l.eol| - 1, log + Reason(l))
  {
    hide RunBytes, Step;
    if l.phrase == "" {
      assert l.phrase + l.eol == l.eol && log + Reason(l) == log;
      LineEnd(noBody, p, n, log, l.eol);
    } else {
      assert (l.phrase + l.eol)[1..] == l.phrase[1..] + l.eol;
      ReasonLine(noBody, p, n, log, l.phrase[1..], l.eol);
      assert |l.phrase| <= 1 ==> log + Reason(l) == log;
    }
  }

  /** The line from the status code on. */
  lemma FromCode(noBody: NoBody, p: Parser, n: nat, log: Log, l: StatusLine)
    requires p.state.ResFirstStatusCode? && IsStatusLine(l) && n + |CodeText(l)| <= MAX_HEADER_SIZE
    requires !EndsWith(log, StatusData)
    ensures var r := RunBytes(noBody, p, n, log, CodeText(l));
            if Number(l.code) then
              r == Run(p.(state := HeaderFieldStart, status := Value(l.code),
                          index := if |l.phrase| <= 1 then p.index else 0),
                       n + |CodeText(l)|, log + Reason(l), |CodeText(l)|, Ran)
            else r.stop == Failed(InvalidStatus)
  {
    hide RunBytes, Step, Reason, Number, EndsWith, NoneEnds;
    SkipSpaces(noBody, p, n, log, l.space);
    RunSplit(noBody, p, n, log, l.space, l.code + (l.phrase + l.eol));
    FromDigit(noBody, p, n + |l.space|, log, l);
  }

  lemma FromDigit(noBody: NoBody, p: Parser, n: nat, log: Log, l: StatusLine)
    requires p.state.ResFirstStatusCode? && IsStatusLine(l) && n + |l.code| + |l.phrase| + |l.eol| <= MAX_HEADER_SIZE
    requires !EndsWith(log, StatusData)
    ensures var data := l.code + (l.phrase + l.eol);
            var r := RunBytes(noBody, p, n, log, data);
            if Number(l.code) then
              r == Run(p.(state := HeaderFieldStart, status := Value(l.code),
                          index := if |l.phrase| <= 1 then p.index else 0),
                       n + |data|, log + Reason(l), |data|, Ran)
            else r.stop == Failed(InvalidStatus)
  {
    hide RunBytes, Step, Reason, Number, EndsWith, NoneEnds, Spaces, OneLine, Behind;
    var tail := l.phrase + l.eol;
    assert tail[0] == if l.phrase == "" then l.eol[0] else l.phrase[0];
    NumberExact(noBody, p, n, log, l.code, tail[0]);
    assert (l.code + [tail[0]]) + tail[1..] == l.code + tail;
    RunSplit(noBody, p, n, log, l.code + [tail[0]], tail[1..]);
    if Number(l.code) {
      PhraseEnd(noBody, p.(status := Value(l.code), state := Behind(ResStatusCode, tail[0])), n + |l.code| + 1, log, l);
    }
  }

  lemma FromMinor(noBody: NoBody, p: Parser, n: nat, log: Log, l: StatusLine)
    requires p.state.ResFirstMinor? && IsStatusLine(l) && n + |MinorText(l)| <= MAX_HEADER_SIZE
    requires !EndsWith(log, StatusData)
    ensures var r := RunBytes(noBody, p, n, log, MinorText(l));
            if Number(l.minor) && Number(l.code) then
              r == Run(p.(state := HeaderFieldStart, minor := Value(l.minor), status := Value(l.code),
                          index := if |l.phrase| <= 1 then p.index else 0),
                       n + |MinorText(l)|, log + Reason(l), |MinorText(l)|, Ran)
            else r.stop == Failed(if Number(l.minor) then InvalidStatus else InvalidVersion)
  {
    hide RunBytes, Step, CodeText;
    NumberExact(noBody, p, n, log, l.minor, ' ');
    RunSplit(noBody, p, n, log, l.minor + " ", CodeText(l));
    if Number(l.minor) {
      FromCode(noBody, p.(minor := Value(l.minor), state := ResFirstStatusCode), n + |l.minor| + 1, log, l);
    }
  }

  lemma FromMajor(noBody: NoBody, p: Parser, n: nat, log: Log, l: StatusLine)
    requires p.state.ResFirstMajor? && IsStatusLine(l) && n + |MajorText(l)| <= MAX_HEADER_SIZE
    requires !EndsWith(log, StatusData)
    ensures var r := RunBytes(noBody, p, n, log, MajorText(l));
            if Number(l.major) && Number(l.minor) && Number(l.code) then
              r == Run(p.(state := HeaderFieldStart, major := Value(l.major), minor := Value(l.minor),
                          status := Value(l.code), index := if |l.phrase| <= 1 then p.index else 0),
                       n + |MajorText(l)|, log + Reason(l), |MajorText(l)|, Ran)
            else r.stop == Failed(if Number(l.major) && Number(l.minor) then InvalidStatus else InvalidVersion)
  {
    hide RunBytes, Step, MinorText;
    NumberExact(noBody, p, n, log, l.major, '.');
    RunSplit(noBody, p, n, log, l.major + ".", MinorText(l));
    if Number(l.major) {
      FromMinor(noBody, p.(major := Value(l.major), state := ResFirstMinor), n + |l.major| + 1, log, l);
    }
  }

  /** The letters of "HTTP/" that are expected one after the other. */
  function Letters(s: State): string {
    if s.ResH? then "TTP/"
    else if s.ResHT? then "TP/"
    else if s.ResHTT? then "P/"
    else if s.ResHTTP? then "/"
    else if s.ReqHttpStart? then "HTTP/"
    else if s.ReqHttpH? then "TTP/"
    else if s.ReqHttpHT? then "TP/"
    else if s.ReqHttpHTT? then "P/"
    else if s.ReqHttpHTTP? then "/"
    else ""
  }

  function BehindLetter(s: State): State {
    if s.ResH? then ResHT
    else if s.ResHT? then ResHTT
    else if s.ResHTT? then ResHTTP
    else if s.ResHTTP? then ResFirstMajor
    else if s.ReqHttpStart? then ReqHttpH
    else if s.ReqHttpH? then ReqHttpHT
    else if s.ReqHttpHT? then ReqHttpHTT
    else if s.ReqHttpHTT? then ReqHttpHTTP
    else ReqFirstMajor
  }

  lemma LetterByte(noBody: NoBody, p: Parser, n: nat, log: Log)
    requires Letters(p.state) != "" && n < MAX_HEADER_SIZE
    ensures Leads(noBody, p, n, log, [Letters(p.state)[0]], p.(state := BehindLetter(p.state)), n + 1, log)
  {
    hide RunBytes, Step;
    StepOfVersion(p, Letters(p.state)[0]);
    OneByte(noBody, p, n, log, Letters(p.state)[0]);
  }

  lemma LetterNext(s: State)
    requires Letters(s) != ""
    ensures [Letters(s)[0]] + Letters(BehindLetter(s)) == Letters(s)
    ensures Letters(BehindLetter(s)) == "" ==> BehindLetter(s) == FirstNumber(s)
    ensures FirstNumber(BehindLetter(s)) == FirstNumber(s)
  {
  }

  /** Where a version starts. */
  function FirstNumber(s: State): State {
    if s.ResH? || s.ResHT? || s.ResHTT? || s.ResHTTP? || s.ResFirstMajor? then ResFirstMajor else ReqFirstMajor
  }

  lemma {:induction false} LettersRun(noBody: NoBody, p: Parser, n: nat, log: Log)
    requires Letters(p.state) != "" && n + |Letters(p.state)| <= MAX_HEADER_SIZE
    ensures var w := Letters(p.state);
            Leads(noBody, p, n, log, w, p.(state := FirstNumber(p.state)), n + |w|, log)
    decreases |Letters(p.state)|
  {
    hide RunBytes, Leads, Letters, BehindLetter, FirstNumber;
    var w, q := Letters(p.state), p.(state := BehindLetter(p.state));
    LetterByte(noBody, p, n, log);
    LetterNext(p.state);
    if Letters(q.state) == "" {
      assert [w[0]] == w;
    } else {
      LettersRun(noBody, q, n + 1, log);
      LeadsOn(noBody, p, n, log, [w[0]], q, n + 1, log, Letters(q.state), p.(state := FirstNumber(p.state)), n + |w|,
              log);
    }
  }

  /** A parser that may see a response. */
  predicate MayRespond(p: Parser) { (p.state.StartRes? && p.kind.Response?) || p.state.StartReqOrRes? }

  /** The first two bytes of a response. */
  lemma ResponseStarts(noBody: NoBody, p: Parser, n: nat, log: Log)
    requires MayRespond(p) && n + 2 <= MAX_HEADER_SIZE
    ensures Leads(noBody, p, n, log, "HT", Fresh(p).(kind := Response, state := ResHT), n + 2,
                  log + [Notify(MessageBegin)])
  {
    hide RunBytes, Step;
    var q := Fresh(p).(state := if p.state.StartRes? then ResH else ResOrRespH);
    var l := log + [Notify(MessageBegin)];
    StepOfLine(p, 'H');
    OneByte(noBody, p, n, log, 'H');
    StepOfLine(q, 'T');
    StepOfVersion(q, 'T');
    OneByte(noBody, q, n + 1, l, 'T');
    LeadsOn(noBody, p, n, log, "H", q, n + 1, l, "T", Fresh(p).(kind := Response, state := ResHT), n + 2, l);
    assert "H" + "T" == "HT";
  }

  /** A status line is accepted if and only if its version and its code are numbers of digits that are not
      above 999; then these are what is stored, and the reason phrase is reported as it was sent. */
  lemma StatusLineExact(noBody: NoBody, p: Parser, n: nat, log: Log, l: StatusLine)
    requires MayRespond(p) && IsStatusLine(l) && n + |StatusText(l)| <= MAX_HEADER_SIZE
    ensures var r := RunBytes(noBody, p, n, log, StatusText(l));
            if Number(l.major) && Number(l.minor) && Number(l.code) then
              r == Run(Fresh(p).(kind := Response, state := HeaderFieldStart, major := Value(l.major),
                                 minor := Value(l.minor), status := Value(l.code),
                                 index := if |l.phrase| <= 1 then p.index else 0),
                       n + |StatusText(l)|, log + [Notify(MessageBegin)] + Reason(l), |StatusText(l)|, Ran)
            else r.stop == Failed(if Number(l.major) && Number(l.minor) then InvalidStatus else InvalidVersion)
  {
    hide RunBytes, Step, MajorText, Number;
    var q, l1 := Fresh(p).(kind := Response, state := ResHT), log + [Notify(MessageBegin)];
    ResponseStarts(noBody, p, n, log);
    LettersRun(noBody, q, n + 2, l1);
    LeadsOn(noBody, p, n, log, "HT", q, n + 2, l1, "TP/", q.(state := ResFirstMajor), n + 5, l1);
    assert "HT" + "TP/" == "HTTP/";
    RunSplit(noBody, p, n, log, "HTTP/", MajorText(l));
    FromMajor(noBody, q.(state := ResFirstMajor), n + 5, l1, l);
  }

  // ----- request lines

  /** The version of a request and the end of the line; without one, it is HTTP/0.9. */
  datatype Version = Simple | Full(space: string, major: string, minor: string)

  datatype RequestLine = RequestLine(verb: Method, space: string, target: string, version: Version, eol: string)

  predicate IsVersion(v: Version) {
    v.Full? ==> Spaces(v.space) && NoneEnds(ReqMajor, v.major) && NoneEnds(ReqMinor, v.minor)
  }

  /** The words are delimited as they should be; otherwise they are any bytes. */
  predicate IsRequestLine(l: RequestLine) {
    && Spaces(l.space) && l.target != "" && ' ' !in l.target && OneLine(l.target) && IsVersion(l.version) && Eol(l.eol)
  }

  /** A version that can be read: the first digit of a request's is not 0. */
  predicate Readable(v: Version) {
    v.Full? ==> Number(v.major) && v.major[0] != '0' && Number(v.minor)
  }

  function Major(v: Version): nat
    requires Readable(v)
  {
    if v.Full? then Value(v.major) else 0
  }

  function Minor(v: Version): nat
    requires Readable(v)
  {
    if v.Full? then Value(v.minor) else 9
  }

  function NumbersText(v: Version, eol: string): string
    requires v.Full?
  {
    (v.major + ".") + (v.minor + eol)
  }

  function VersionText(v: Version, eol: string): string {
    if v.Simple? then eol else " " + (v.space + ("HTTP/" + NumbersText(v, eol)))
  }

  function RequestText(l: RequestLine): string {
    (MethodString(l.verb) + " ") + (l.space + (l.target + VersionText(l.version, l.eol)))
  }

  lemma RequestNumbers(noBody: NoBody, p: Parser, n: nat, log: Log, v: Version, eol: string)
    requires p.state.ReqFirstMajor? && v.Full? && IsVersion(v) && Eol(eol)
    requires n + |NumbersText(v, eol)| <= MAX_HEADER_SIZE
    ensures var r := RunBytes(noBody, p, n, log, NumbersText(v, eol));
            if Readable(v) then
              r == Run(p.(state := HeaderFieldStart, major := Major(v), minor := Minor(v)),
                       n + |NumbersText(v, eol)|, log, |NumbersText(v, eol)|, Ran)
            else r.stop == Failed(InvalidVersion)
  {
    hide RunBytes, Step, Digits, DecFrom;
    NumberExact(noBody, p, n, log, v.major, '.');
    RunSplit(noBody, p, n, log, v.major + ".", v.minor + eol);
    if Number(v.major) && v.major[0] != '0' {
      RequestMinor(noBody, p.(major := Value(v.major), state := ReqFirstMinor), n + |v.major| + 1, log, v.minor, eol);
    }
  }

  lemma RequestMinor(noBody: NoBody, p: Parser, n: nat, log: Log, minor: string, eol: string)
    requires p.state.ReqFirstMinor? && NoneEnds(ReqMinor, minor) && Eol(eol) && n + |minor| + |eol| <= MAX_HEADER_SIZE
    ensures var r := RunBytes(noBody, p, n, log, minor + eol);
            if Number(minor) then
              r == Run(p.(state := HeaderFieldStart, minor := Value(minor)), n + |minor| + |eol|, log,
                       |minor| + |eol|, Ran)
            else r.stop == Failed(InvalidVersion)
  {
    hide RunBytes, Step, Number;
    NumberExact(noBody, p, n, log, minor, eol[0]);
    assert (minor + [eol[0]]) + eol[1..] == minor + eol;
    RunSplit(noBody, p, n, log, minor + [eol[0]], eol[1..]);
    if Number(minor) {
      LineEnd(noBody, p.(minor := Value(minor), state := Behind(ReqMinor, eol[0])), n + |minor| + 1, log, eol);
    }
  }

  /** The states behind a URL that may end there. */
  predicate MayEnd(s: State) { UrlState(s) && !TightUrl(s) }

  /** What follows a URL: a version is accepted if and only if it is written in digits, its numbers are not
      above 999, and its first digit is not 0; and if the line ends there, it is version 0.9. */
  lemma VersionExact(noBody: NoBody, p: Parser, n: nat, log: Log, v: Version, eol: string)
    requires MayEnd(p.state) && IsVersion(v) && Eol(eol) && n + |VersionText(v, eol)| <= MAX_HEADER_SIZE
    ensures var r := RunBytes(noBody, p, n, log, VersionText(v, eol));
            if Readable(v) then
              r == Run(p.(state := HeaderFieldStart, major := Major(v), minor := Minor(v)),
                       n + |VersionText(v, eol)|, log, |VersionText(v, eol)|, Ran)
            else r.stop == Failed(InvalidVersion)
  {
    hide RunBytes, Step, Number;
    var text := VersionText(v, eol);
    var q := if v.Full? then p.(state := ReqHttpStart)
             else p.(major := 0, minor := 9, state := if eol[0] == CR then ReqLineAlmostDone else HeaderFieldStart);
    StepOfLine(p, text[0]);
    OneByte(noBody, p, n, log, text[0]);
    assert [text[0]] + text[1..] == text;
    RunSplit(noBody, p, n, log, [text[0]], text[1..]);
    if v.Simple? {
      LineEnd(noBody, q, n + 1, log, eol);
    } else {
      assert text[1..] == v.space + ("HTTP/" + NumbersText(v, eol));
      VersionWord(noBody, q, n + 1, log, v, eol);
    }
  }

  lemma VersionWord(noBody: NoBody, p: Parser, n: nat, log: Log, v: Version, eol: string)
    requires p.state.ReqHttpStart? && v.Full? && IsVersion(v) && Eol(eol)
    requires n + |v.space| + 5 + |NumbersText(v, eol)| <= MAX_HEADER_SIZE
    ensures var data := v.space + ("HTTP/" + NumbersText(v, eol));
            var r := RunBytes(noBody, p, n, log, data);
            if Readable(v) then
              r == Run(p.(state := HeaderFieldStart, major := Major(v), minor := Minor(v)), n + |data|, log,
                       |data|, Ran)
            else r.stop == Failed(InvalidVersion)
  {
    hide RunBytes, Step, Number, NumbersText;
    var k := n + |v.space|;
    SkipSpaces(noBody, p, n, log, v.space);
    RunSplit(noBody, p, n, log, v.space, "HTTP/" + NumbersText(v, eol));
    LettersRun(noBody, p, k, log);
    RunSplit(noBody, p, k, log, "HTTP/", NumbersText(v, eol));
    RequestNumbers(noBody, p.(state := ReqFirstMajor), k + 5, log, v, eol);
  }

  // ----- the URL of a request

  /** Where the URL's bytes lead. */
  function UrlAfter(s: State, t: string): State
    decreases |t|
  {
    if t == "" || s.Dead? then s else UrlAfter(ParseUrlChar(s, t[0]), t[1..])
  }

  function UrlStart(m: Method): State { if m.CONNECT? then ReqServerStart else ReqSpacesBeforeUrl }

  lemma UrlNext(s: State, ch: char)
    requires UrlState(s) || s.ReqSpacesBeforeUrl?
    ensures ParseUrlChar(s, ch).Dead? || UrlState(ParseUrlChar(s, ch))
  {
    hide IsUrlChar, IsUserinfoChar, IsAlpha;
  }

  lemma UrlByte(p: Parser, ch: char)
    requires UrlState(p.state) && ch != ' ' && ch != CR && ch != LF
    ensures Step(p, ch) == UrlTo(p, ParseUrlChar(p.state, ch), Stay(UrlData))
  {
    hide Step, ParseUrlChar;
    StepOfLine(p, ch);
  }

  lemma {:induction false} UrlOn(noBody: NoBody, p: Parser, n: nat, log: Log, t: string)
    requires UrlState(p.state) && ' ' !in t && OneLine(t) && n + |t| <= MAX_HEADER_SIZE
    ensures var r := RunBytes(noBody, p, n, log, t);
            var s := UrlAfter(p.state, t);
            if s.Dead? then r.stop == Failed(InvalidUrl)
            else UrlState(s) && r == Run(p.(state := s), n + |t|, Grown(log, UrlData, t), |t|, Ran)
    decreases |t|
  {
    hide Step, Push, ParseUrlChar, Cont;
    if t != "" {
      UrlByte(p, t[0]);
      UrlNext(p.state, t[0]);
      UrlCounted(p.state, n + 1);
      ContStep(noBody, p, n + 1, log, t[0], t[1..]);
      assert [t[0]] + t[1..] == t;
      GrownTwice(log, UrlData, [t[0]], t[1..]);
      if !ParseUrlChar(p.state, t[0]).Dead? {
        UrlOn(noBody, p.(state := ParseUrlChar(p.state, t[0])), n + 1, Grown(log, UrlData, [t[0]]), t[1..]);
      }
    }
  }

  lemma UrlCounted(s: State, n: nat)
    requires UrlState(s) || s.ReqSpacesBeforeUrl?
    ensures ParsingHeader(s) && forall next: Next :: Counter(s, n, next) == n
  {
  }

  /** A whole URL is reported as it was sent, unless one of its bytes may not be where it is. */
  lemma TargetExact(noBody: NoBody, p: Parser, n: nat, log: Log, t: string)
    requires p.state.ReqSpacesBeforeUrl? && t != "" && ' ' !in t && OneLine(t) && n + |t| <= MAX_HEADER_SIZE
    ensures var r := RunBytes(noBody, p, n, log, t);
            var s := UrlAfter(UrlStart(p.verb), t);
            if s.Dead? then r.stop == Failed(InvalidUrl)
            else UrlState(s) && r == Run(p.(state := s), n + |t|, Grown(log, UrlData, t), |t|, Ran)
  {
    hide Step, Push, ParseUrlChar, Cont;
    var s := ParseUrlChar(UrlStart(p.verb), t[0]);
    StepOfLine(p, t[0]);
    UrlNext(UrlStart(p.verb), t[0]);
    UrlCounted(p.state, n + 1);
    ContStep(noBody, p, n + 1, log, t[0], t[1..]);
    assert [t[0]] + t[1..] == t;
    GrownTwice(log, UrlData, [t[0]], t[1..]);
    if !s.Dead? {
      UrlOn(noBody, p.(state := s), n + 1, Grown(log, UrlData, [t[0]]), t[1..]);
    }
  }

  /** The parser of requests and http_parser_parse_url go through the same states. */
  lemma {:induction false} UrlAfterPass(x: U.Pass, buf: string, i: nat)
    requires U.Total(x.u) && i <= |buf|
    ensures U.PassAll(x, buf, i).s == UrlAfter(x.s, buf[i..])
    decreases |buf| - i
  {
    hide ParseUrlChar, U.Passed;
    if i < |buf| && !x.s.Dead? {
      UX.StateNext(x, buf[i], i);
      UrlAfterPass(U.Passed(x, buf[i], i), buf, i + 1);
      assert buf[i..][0] == buf[i] && buf[i..][1..] == buf[i + 1..];
    }
  }

  /** So a request is not refused for a URL that http_parser_parse_url accepts. */
  lemma GoodUrlTaken(t: string, m: Method)
    requires t != "" && U.Parsed(t, m.CONNECT?).Some?
    ensures MayEnd(UrlAfter(UrlStart(m), t))
  {
    hide U.Parsed, U.PassAll, UrlAfter, U.ZERO_URL;
    UX.AcceptedEnd(t, m.CONNECT?);
    UrlAfterPass(U.PassFrom(m.CONNECT?), t, 0);
    assert t[0..] == t;
  }

  // ----- the whole line

  /** A parser that may see a request. */
  predicate MayRequest(p: Parser) { (p.state.StartReq? && p.kind.Request?) || p.state.StartReqOrRes? }

  /** The method and the space behind it. */
  lemma MethodStarts(noBody: NoBody, p: Parser, n: nat, log: Log, m: Method)
    requires MayRequest(p) && n + |MethodString(m)| + 1 <= MAX_HEADER_SIZE
    ensures var w := MethodString(m) + " ";
            Leads(noBody, p, n, log, w,
                  Fresh(p).(kind := Request, verb := m, index := |w|, state := ReqSpacesBeforeUrl),
                  n + |w|, log + [Notify(MessageBegin)])
  {
    hide RunBytes, Step, MethodString;
    var w := MethodString(m);
    var q := Fresh(p).(kind := Request, verb := m, index := |w|, state := ReqMethod);
    var l := log + [Notify(MessageBegin)];
    MethodWord(noBody, p, n, log, m);
    MethodSpace(noBody, q, n + |w|, l, w);
    LeadsOn(noBody, p, n, log, w, q, n + |w|, l, " ", q.(index := |w| + 1, state := ReqSpacesBeforeUrl), n + |w| + 1,
            l);
  }

  lemma MethodWord(noBody: NoBody, p: Parser, n: nat, log: Log, m: Method)
    requires MayRequest(p) && n + |MethodString(m)| <= MAX_HEADER_SIZE
    ensures var w := MethodString(m);
            && w != ""
            && Leads(noBody, p, n, log, w, Fresh(p).(kind := Request, verb := m, index := |w|, state := ReqMethod),
                     n + |w|, log + [Notify(MessageBegin)])
  {
    hide RunBytes, Step, MethodString, Route;
    var w := MethodString(m);
    RouteStart(m);
    NotHt(m);
    PlainName(m);
    if p.state.StartReqOrRes? {
      Undecided(noBody, p, n, log, w);
    }
    if p.state.StartReqOrRes? && w[0] == 'H' {
      HeadWord(noBody, p, n, log);
    } else {
      MethodFromStart(noBody, Fresh(p).(kind := Request, state := StartReq), n, log, m);
      if p.state.StartReq? {
        MethodFromStart(noBody, p, n, log, m);
      }
    }
  }

  lemma MethodFromStart(noBody: NoBody, p: Parser, n: nat, log: Log, m: Method)
    requires p.state.StartReq? && n + |MethodString(m)| <= MAX_HEADER_SIZE
    ensures var w := MethodString(m);
            Leads(noBody, p, n, log, w, Fresh(p).(verb := m, index := |w|, state := ReqMethod), n + |w|,
                  log + [Notify(MessageBegin)])
  {
    hide RunBytes, Step, MethodString, Route;
    var w, l := MethodString(m), log + [Notify(MessageBegin)];
    RouteStart(m);
    FirstByte(noBody, p, n, log, w[0]);
    var q := Fresh(p).(verb := Route(m, 1), index := 1, state := ReqMethod);
    MethodAccepted(noBody, q, n + 1, l, m, 1);
    LeadsOn(noBody, p, n, log, [w[0]], q, n + 1, l, w[1..], q.(verb := m, index := |w|), n + |w|, l);
    assert [w[0]] + w[1..] == w;
  }

  /** A parser that has seen an 'H' does not know yet that the method is HEAD. */
  lemma HeadWord(noBody: NoBody, p: Parser, n: nat, log: Log)
    requires p.state.StartReqOrRes? && n + 4 <= MAX_HEADER_SIZE
    ensures Leads(noBody, p, n, log, "HEAD", Fresh(p).(kind := Request, verb := HEAD, index := 4, state := ReqMethod),
                  n + 4, log + [Notify(MessageBegin)])
  {
    hide RunBytes, Step;
    var w, l := "HEAD", log + [Notify(MessageBegin)];
    Undecided(noBody, p, n, log, w);
    var h := Fresh(p).(state := ResOrRespH);
    BehindH(noBody, h, n + 1, l, w[1..]);
    var q := h.(kind := Request, verb := HEAD, index := 2, state := ReqMethod);
    MethodAccepted(noBody, q, n + 2, l, HEAD, 2);
    assert w[1..][1..] == w[2..];
  }

  /** A request line with a method from the table is accepted if and only if each byte of its URL may be
      where it is, the URL is not cut short, and its version can be read; then these are what is stored,
      and the URL is reported as it was sent. */
  lemma RequestLineExact(noBody: NoBody, p: Parser, n: nat, log: Log, l: RequestLine)
    requires MayRequest(p) && IsRequestLine(l) && n + |RequestText(l)| <= MAX_HEADER_SIZE
    ensures var r := RunBytes(noBody, p, n, log, RequestText(l));
            if !MayEnd(UrlAfter(UrlStart(l.verb), l.target)) then r.stop == Failed(InvalidUrl)
            else if !Readable(l.version) then r.stop == Failed(InvalidVersion)
            else
              r == Run(Fresh(p).(kind := Request, state := HeaderFieldStart, verb := l.verb, major := Major(l.version),
                                 minor := Minor(l.version), index := |MethodString(l.verb)| + 1),
                       n + |RequestText(l)|, log + [Notify(MessageBegin), Data(UrlData, l.target)],
                       |RequestText(l)|, Ran)
  {
    hide RunBytes, Step, MethodString, ParseUrlChar, Readable, VersionText, UrlAfter;
    var w, l1, version := MethodString(l.verb) + " ", log + [Notify(MessageBegin)], VersionText(l.version, l.eol);
    var q := Fresh(p).(kind := Request, verb := l.verb, index := |w|, state := ReqSpacesBeforeUrl);
    MethodStarts(noBody, p, n, log, l.verb);
    RunSplit(noBody, p, n, log, w, l.space + (l.target + version));
    SkipSpaces(noBody, q, n + |w|, l1, l.space);
    RunSplit(noBody, q, n + |w|, l1, l.space, l.target + version);
    FromTarget(noBody, q, n + |w| + |l.space|, l1, l);
    assert l1 + [Data(UrlData, l.target)] == log + [Notify(MessageBegin), Data(UrlData, l.target)];
  }

  lemma FromTarget(noBody: NoBody, p: Parser, n: nat, log: Log, l: RequestLine)
    requires p.state.ReqSpacesBeforeUrl? && p.verb == l.verb && IsRequestLine(l) && !EndsWith(log, UrlData)
    requires n + |l.target| + |VersionText(l.version, l.eol)| <= MAX_HEADER_SIZE
    ensures var data := l.target + VersionText(l.version, l.eol);
            var r := RunBytes(noBody, p, n, log, data);
            if !MayEnd(UrlAfter(UrlStart(l.verb), l.target)) then r.stop == Failed(InvalidUrl)
            else if !Readable(l.version) then r.stop == Failed(InvalidVersion)
            else
              r == Run(p.(state := HeaderFieldStart, major := Major(l.version), minor := Minor(l.version)),
                       n + |data|, log + [Data(UrlData, l.target)], |data|, Ran)
  {
    hide RunBytes, Step, ParseUrlChar, Readable, VersionText, UrlAfter;
    var s, version := UrlAfter(UrlStart(l.verb), l.target), VersionText(l.version, l.eol);
    TargetExact(noBody, p, n, log, l.target);
    RunSplit(noBody, p, n, log, l.target, version);
    var l1 := log + [Data(UrlData, l.target)];
    if MayEnd(s) {
      VersionExact(noBody, p.(state := s), n + |l.target|, l1, l.version, l.eol);
    } else if UrlState(s) {
      TightEnds(noBody, p.(state := s), n + |l.target|, l1, l.version, l.eol);
    }
  }

  /** A URL that is cut short is refused. */
  lemma TightEnds(noBody: NoBody, p: Parser, n: nat, log: Log, v: Version, eol: string)
    requires TightUrl(p.state) && Eol(eol) && n + |VersionText(v, eol)| <= MAX_HEADER_SIZE
    ensures RunBytes(noBody, p, n, log, VersionText(v, eol)).stop == Failed(InvalidUrl)
  {
    hide Step, NumbersText, Cont;
    var text := VersionText(v, eol);
    StepOfLine(p, text[0]);
    ContStep(noBody, p, n + 1, log, text[0], text[1..]);
  }
}
