/** Header fields, one after the other, and a whole message body in chunks, with the fields that may
    follow the last chunk. */
module HttpTrailer {
  import opened HttpTypes
  import opened HttpMachine
  import opened HttpRun
  import opened HttpParser
  import opened HttpBody
  import opened HttpRecognisers

  /** A further line of a value. */
  datatype Fold = Fold(text: string, eol: string)

  /** A header field as sent: a name, a colon, white space, a value, which may go on on further lines. */
  datatype Field = Field(name: string, space: string, value: string, eol: string, folds: seq<Fold>)

  predicate Blank(c: char) { c == ' ' || c == '\t' }

  /** White space, in which a line may end if the next begins with white space. */
  predicate White(s: string)
    decreases |s|
  {
    || s == ""
    || (Blank(s[0]) && White(s[1..]))
    || (|s| >= 2 && s[0] == LF && Blank(s[1]) && White(s[2..]))
    || (|s| >= 3 && s[0] == CR && s[1] == LF && Blank(s[2]) && White(s[3..]))
  }

  predicate IsFold(f: Fold) { f.text != "" && Blank(f.text[0]) && OneLine(f.text) && Eol(f.eol) }

  predicate IsField(f: Field) {
    && f.name != "" && Tokens(f.name) && White(f.space) && Eol(f.eol)
    && OneLine(f.value) && (f.value != "" ==> !Blank(f.value[0])) && (f.value == "" ==> f.folds == [])
    && (forall x <- f.folds :: IsFold(x))
  }

  /** The five names that mean something to the parser, also behind a body. */
  predicate SaysConnection(name: string) { Lowered(name) == "connection" || Lowered(name) == "proxy-connection" }

  predicate SaysLength(name: string) { Lowered(name) == "content-length" }

  predicate SaysEncoding(name: string) { Lowered(name) == "transfer-encoding" }

  predicate SaysUpgrade(name: string) { Lowered(name) == "upgrade" }

  /** If the field is a content length, it is one that can be read. */
  predicate LengthOk(f: Field) {
    SaysLength(f.name) && f.value != "" ==>
      f.folds == [] && LengthBytes(f.value) && DecFrom(0, f.value) <= MAX_LENGTH
  }

  ghost predicate LengthsOk(fs: seq<Field>) { forall f <- fs :: LengthOk(f) }

  /** The value is this word, on one line. */
  ghost predicate Says(f: Field, w: string) { f.value != "" && f.folds == [] && Spells(f.value, w) }

  /** What a field changes in the parser. */
  ghost function Effect(p: Parser, f: Field): Parser
    requires LengthOk(f)
  {
    if f.value == "" then p
    else if SaysConnection(f.name) then
      if Says(f, "keep-alive") then p.(flags := p.flags.(keepAlive := true))
      else if Says(f, "close") then p.(flags := p.flags.(close := true))
      else p
    else if SaysEncoding(f.name) then
      if Says(f, "chunked") then p.(flags := p.flags.(chunked := true)) else p
    else if SaysLength(f.name) then p.(contentLength := DecFrom(0, f.value))
    else if SaysUpgrade(f.name) then p.(flags := p.flags.(upgrade := true))
    else p
  }

  ghost function Effects(p: Parser, fs: seq<Field>): Parser
    requires LengthsOk(fs)
    decreases |fs|
  {
    if fs == [] then p else Effects(Effect(p, fs[0]), fs[1..])
  }

  function FoldText(xs: seq<Fold>): string {
    if xs == [] then "" else xs[0].text + xs[0].eol + FoldText(xs[1..])
  }

  /** The further lines without their ends. */
  function Unfolded(xs: seq<Fold>): string { if xs == [] then "" else xs[0].text + Unfolded(xs[1..]) }

  function ValueText(f: Field): string { f.value + f.eol + FoldText(f.folds) }

  function Line(f: Field): string { f.name + ":" + f.space + ValueText(f) }

  function Lines(fs: seq<Field>): string { if fs == [] then "" else Line(fs[0]) + Lines(fs[1..]) }

  function Report(f: Field): seq<Call> { [Data(FieldData, f.name), Data(ValueData, f.value + Unfolded(f.folds))] }

  function Reports(fs: seq<Field>): seq<Call> {
    if fs == [] then [] else Report(fs[0]) + Reports(fs[1..])
  }

  // ----- white space

  lemma {:induction false} SkipSpace(noBody: NoBody, p: Parser, n: nat, log: Log, s: string)
    requires p.state.HeaderValueDiscardWs? && White(s) && n + |s| <= MAX_HEADER_SIZE
    ensures Leads(noBody, p, n, log, s, p, n + |s|, log)
    decreases |s|
  {
    hide RunBytes, Leads;
    if s == "" {
      assert Leads(noBody, p, n, log, s, p, n + |s|, log) by { NoBytes(noBody, p, n, log); }
    } else {
      var k := if Blank(s[0]) then 1 else if s[0] == LF then 2 else 3;
      assert Leads(noBody, p, n, log, s[..k], p, n + k, log) by {
        if k == 1 {
          assert s[..k] == [s[0]];
          BlankByte(noBody, p, n, log, s[0]);
        } else {
          assert s[..k] == s[..k - 1] + [s[k - 1]];
          assert s[..k - 1] == if k == 2 then [LF] else [CR, LF];
          EmptyLine(noBody, p, n, log, s[..k - 1]);
          var q := p.(state := HeaderValueDiscardLws);
          BlankByte(noBody, q, n + k - 1, log, s[k - 1]);
          LeadsOn(noBody, p, n, log, s[..k - 1], q, n + k - 1, log, [s[k - 1]], p, n + k, log);
        }
      }
      SkipSpace(noBody, p, n + k, log, s[k..]);
      LeadsOn(noBody, p, n, log, s[..k], p, n + k, log, s[k..], p, n + |s|, log);
      assert s[..k] + s[k..] == s;
    }
  }

  lemma NoBytes(noBody: NoBody, p: Parser, n: nat, log: Log)
    ensures Leads(noBody, p, n, log, "", p, n, log)
  {
  }

  lemma BlankByte(noBody: NoBody, p: Parser, n: nat, log: Log, ch: char)
    requires (p.state.HeaderValueDiscardWs? || p.state.HeaderValueDiscardLws?) && Blank(ch) && n < MAX_HEADER_SIZE
    ensures Leads(noBody, p, n, log, [ch], p.(state := HeaderValueDiscardWs), n + 1, log)
  {
    hide RunBytes, Step;
    StepOfValue(p, ch);
    OneByte(noBody, p, n, log, ch);
  }

  /** The end of a line in front of a value. */
  lemma EmptyLine(noBody: NoBody, p: Parser, n: nat, log: Log, eol: string)
    requires p.state.HeaderValueDiscardWs? && Eol(eol) && n + |eol| <= MAX_HEADER_SIZE
    ensures Leads(noBody, p, n, log, eol, p.(state := HeaderValueDiscardLws), n + |eol|, log)
  {
    hide RunBytes, Step;
    var q := p.(state := HeaderValueDiscardWsAlmostDone);
    StepOfValue(p, eol[0]);
    OneByte(noBody, p, n, log, eol[0]);
    if eol == [CR, LF] {
      StepOfValue(q, LF);
      OneByte(noBody, q, n + 1, log, LF);
      LeadsOn(noBody, p, n, log, [CR], q, n + 1, log, [LF], p.(state := HeaderValueDiscardLws), n + 2, log);
      assert [CR] + [LF] == [CR, LF];
    }
  }

  // ----- one value

  lemma {:induction false} PlainValue(noBody: NoBody, p: Parser, n: nat, log: Log, s: string)
    requires p.state.HeaderValue? && p.hstate.General? && OneLine(s) && n + |s| <= MAX_HEADER_SIZE
    ensures Leads(noBody, p, n, log, s, p, n + |s|, Grown(log, ValueData, s))
    decreases |s|
  {
    hide Step, Push;
    if s != "" {
      StepOfValue(p, s[0]);
      ContStep(noBody, p, n + 1, log, s[0], s[1..]);
      assert [s[0]] + s[1..] == s;
      GrownTwice(log, ValueData, [s[0]], s[1..]);
      PlainValue(noBody, p, n + 1, Grown(log, ValueData, [s[0]]), s[1..]);
    }
  }

  /** The header state is that of the field's name. */
  predicate Knows(p: Parser, name: string) {
    && (p.hstate.Connection? <==> SaysConnection(name)) && (p.hstate.ContentLength? <==> SaysLength(name))
    && (p.hstate.TransferEncoding? <==> SaysEncoding(name)) && (p.hstate.UpgradeHeader? <==> SaysUpgrade(name))
  }

  /** At the end of the first line of a value, the parser p has become q. */
  ghost predicate ReadOn(p: Parser, q: Parser, f: Field)
    requires LengthOk(f.(folds := []))
  {
    && q == p.(state := HeaderValueLws, hstate := q.hstate, index := q.index,
               flags := if SaysUpgrade(f.name) then p.flags.(upgrade := true) else p.flags,
               contentLength := if SaysLength(f.name) && f.value != "" then DecFrom(0, f.value) else p.contentLength)
    && (if SaysLength(f.name) then q.hstate.ContentLength? else Settled(q.hstate))
    && q.(flags := HeaderFlags(q), state := p.state)
       == Effect(p, f.(folds := [])).(hstate := q.hstate, index := q.index)
  }

  /** A value that is not empty, to the end of its line: one that the parser does not look into, */
  lemma PlainLine(noBody: NoBody, p: Parser, n: nat, log: Log, v: string, eol: string)
    requires p.state.HeaderValueDiscardWs? && v != "" && OneLine(v) && !Blank(v[0]) && Eol(eol)
    requires !p.hstate.Connection? && !p.hstate.ContentLength? && !p.hstate.TransferEncoding?
    requires n + |v| + |eol| <= MAX_HEADER_SIZE
    ensures var flags := if p.hstate.UpgradeHeader? then p.flags.(upgrade := true) else p.flags;
            Leads(noBody, p, n, log, v + eol,
                  p.(state := HeaderValueLws, index := 0, hstate := General, flags := flags), n + |v| + |eol|,
                  Grown(log, ValueData, v))
  {
    hide RunBytes, Step, Push;
    var flags := if p.hstate.UpgradeHeader? then p.flags.(upgrade := true) else p.flags;
    var q := p.(state := HeaderValue, index := 0, hstate := General, flags := flags);
    var l0, l := Grown(log, ValueData, [v[0]]), Grown(log, ValueData, v);
    StepOfValue(p, v[0]);
    OneByte(noBody, p, n, log, v[0]);
    PlainValue(noBody, q, n + 1, l0, v[1..]);
    assert [v[0]] + v[1..] == v;
    GrownTwice(log, ValueData, [v[0]], v[1..]);
    LeadsOn(noBody, p, n, log, [v[0]], q, n + 1, l0, v[1..], q, n + |v|, l);
    ValueEnd(noBody, q, n + |v|, l, eol);
    LeadsOn(noBody, p, n, log, v, q, n + |v|, l, eol, q.(state := HeaderValueLws), n + |v| + |eol|, l);
  }

  /** a content length, */
  lemma LengthLine(noBody: NoBody, p: Parser, n: nat, log: Log, v: string, eol: string)
    requires p.state.HeaderValueDiscardWs? && v != "" && OneLine(v) && !Blank(v[0]) && Eol(eol)
    requires p.hstate.ContentLength? && n + |v| + |eol| <= MAX_HEADER_SIZE
    ensures if LengthBytes(v) && DecFrom(0, v) <= MAX_LENGTH then
              Leads(noBody, p, n, log, v + eol,
                    p.(state := HeaderValueLws, index := 0, contentLength := DecFrom(0, v)), n + |v| + |eol|,
                    Grown(log, ValueData, v))
            else RunBytes(noBody, p, n, log, v + eol).stop == Failed(InvalidContentLength)
  {
    hide RunBytes, Push;
    ContentLengthExact(noBody, p, n, log, v);
    RunSplit(noBody, p, n, log, v, eol);
    if LengthBytes(v) && DecFrom(0, v) <= MAX_LENGTH {
      var q, l := p.(state := HeaderValue, index := 0, contentLength := DecFrom(0, v)), Grown(log, ValueData, v);
      ValueEnd(noBody, q, n + |v|, l, eol);
    }
  }

  /** or one that is compared with a word. */
  lemma WordLine(noBody: NoBody, p: Parser, n: nat, log: Log, f: Field) returns (q: Parser)
    requires p.state.HeaderValueDiscardWs? && f.value != "" && IsField(f) && Knows(p, f.name)
    requires (p.hstate.Connection? || p.hstate.TransferEncoding?) && n + |f.value| + |f.eol| <= MAX_HEADER_SIZE
    ensures LengthOk(f.(folds := [])) && ReadOn(p, q, f)
    ensures Leads(noBody, p, n, log, f.value + f.eol, q, n + |f.value| + |f.eol|, Grown(log, ValueData, f.value))
  {
    hide RunBytes, Push, Spells, Tokens, Lowered, White;
    var v := f.value;
    assert CR !in v && LF !in v;
    q := RunBytes(noBody, p, n, log, v + f.eol).p;
    if p.hstate.Connection? {
      HeaderValueExact(noBody, p, n, log, v, f.eol, MatchingKeepAlive);
      HeaderValueExact(noBody, p, n, log, v, f.eol, MatchingClose);
    } else {
      HeaderValueExact(noBody, p, n, log, v, f.eol, MatchingChunked);
    }
  }

  /** The first line of any value that is not empty. */
  lemma ValueLine(noBody: NoBody, p: Parser, n: nat, log: Log, f: Field) returns (q: Parser)
    requires p.state.HeaderValueDiscardWs? && f.value != "" && IsField(f) && Knows(p, f.name)
    requires n + |f.value| + |f.eol| <= MAX_HEADER_SIZE
    ensures if LengthOk(f.(folds := [])) then
              && ReadOn(p, q, f)
              && Leads(noBody, p, n, log, f.value + f.eol, q, n + |f.value| + |f.eol|, Grown(log, ValueData, f.value))
            else RunBytes(noBody, p, n, log, f.value + f.eol).stop == Failed(InvalidContentLength)
  {
    hide RunBytes, Push, Spells, Tokens, Lowered, White;
    if p.hstate.Connection? || p.hstate.TransferEncoding? {
      q := WordLine(noBody, p, n, log, f);
    } else if p.hstate.ContentLength? {
      LengthLine(noBody, p, n, log, f.value, f.eol);
      q := p.(state := HeaderValueLws, index := 0,
              contentLength := if LengthOk(f.(folds := [])) then DecFrom(0, f.value) else 0);
    } else {
      PlainLine(noBody, p, n, log, f.value, f.eol);
      q := RunBytes(noBody, p, n, log, f.value + f.eol).p;
    }
  }

  // ----- further lines

  /** A further line of a value begins: what was recognised before is forgotten, and a content length is
      refused. */
  lemma FoldStarts(noBody: NoBody, p: Parser, n: nat, log: Log, ch: char, rest: string)
    requires p.state.HeaderValueLws? && (Settled(p.hstate) || p.hstate.ContentLength?) && Blank(ch)
    requires n < MAX_HEADER_SIZE
    ensures var r := RunBytes(noBody, p, n, log, [ch] + rest);
            if p.hstate.ContentLength? then r.stop == Failed(InvalidContentLength)
            else
              r == Later(RunBytes(noBody, p.(state := HeaderValue, hstate := General, index := 0), n + 1,
                                  Grown(log, ValueData, [ch]), rest), 1)
  {
    hide Step, Cont, Push;
    var q := p.(state := HeaderValueStart);
    StepOfValue(p, ch);
    StepOfValue(q, ch);
    ContStep(noBody, p, n + 1, log, ch, rest);
    ContStep(noBody, q, n + 1, log, ch, rest);
    assert ([ch] + rest)[1..] == rest;
  }

  /** One further line. */
  lemma FoldLine(noBody: NoBody, p: Parser, n: nat, log: Log, x: Fold)
    requires p.state.HeaderValueLws? && Settled(p.hstate) && IsFold(x) && n + |x.text| + |x.eol| <= MAX_HEADER_SIZE
    ensures Leads(noBody, p, n, log, x.text + x.eol, p.(hstate := General, index := 0), n + |x.text| + |x.eol|,
                  Grown(log, ValueData, x.text))
  {
    hide RunBytes, Push;
    var q := p.(state := HeaderValue, hstate := General, index := 0);
    var l0, l, rest := Grown(log, ValueData, [x.text[0]]), Grown(log, ValueData, x.text), x.text[1..];
    assert [x.text[0]] + rest == x.text;
    assert x.text + x.eol == [x.text[0]] + (rest + x.eol);
    FoldStarts(noBody, p, n, log, x.text[0], rest + x.eol);
    PlainValue(noBody, q, n + 1, l0, rest);
    GrownTwice(log, ValueData, [x.text[0]], rest);
    ValueEnd(noBody, q, n + |x.text|, l, x.eol);
    LeadsOn(noBody, q, n + 1, l0, rest, q, n + |x.text|, l, x.eol, q.(state := HeaderValueLws),
            n + |x.text| + |x.eol|, l);
  }

  /** All of them. */
  lemma {:induction false} FoldLines(noBody: NoBody, p: Parser, n: nat, log: Log, xs: seq<Fold>)
    requires p.state.HeaderValueLws? && Settled(p.hstate) && (forall x <- xs :: IsFold(x))
    requires n + |FoldText(xs)| <= MAX_HEADER_SIZE
    ensures Leads(noBody, p, n, log, FoldText(xs), if xs == [] then p else p.(hstate := General, index := 0),
                  n + |FoldText(xs)|, Grown(log, ValueData, Unfolded(xs)))
    decreases |xs|
  {
    hide RunBytes, Leads, Push, IsFold;
    if xs == [] {
      NoBytes(noBody, p, n, log);
    } else {
      var x, q := xs[0], p.(hstate := General, index := 0);
      var l, line := Grown(log, ValueData, x.text), x.text + x.eol;
      FoldLine(noBody, p, n, log, x);
      FoldLines(noBody, q, n + |line|, l, xs[1..]);
      GrownTwice(log, ValueData, x.text, Unfolded(xs[1..]));
      LeadsOn(noBody, p, n, log, line, q, n + |line|, l, FoldText(xs[1..]), q, n + |FoldText(xs)|,
              Grown(log, ValueData, Unfolded(xs)));
    }
  }

  /** Behind the end of a line that is not continued, the next line starts. */
  lemma NextLine(noBody: NoBody, p: Parser, n: nat, log: Log, data: string)
    requires p.state.HeaderValueLws? || p.state.HeaderValueDiscardLws?
    requires n < MAX_HEADER_SIZE && data != "" && !Blank(data[0])
    ensures RunBytes(noBody, p, n, log, data)
         == if p.state.HeaderValueLws? then
              RunBytes(noBody, p.(state := HeaderFieldStart, flags := HeaderFlags(p)), n, log, data)
            else RunBytes(noBody, p.(state := HeaderFieldStart), n, Push(log, Data(ValueData, "")), data)
  {
    hide Step, Cont, Push, HeaderFlags;
    StepOfValue(p, data[0]);
    ContStep(noBody, p, n + 1, log, data[0], data[1..]);
  }

  // ----- one field

  /** The name of a field and the space behind the colon. */
  lemma NamePart(noBody: NoBody, p: Parser, n: nat, log: Log, f: Field) returns (q: Parser)
    requires p.state.HeaderFieldStart? && IsField(f) && n + |f.name| + 1 + |f.space| <= MAX_HEADER_SIZE
    ensures Knows(q, f.name) && q == p.(state := HeaderValueDiscardWs, hstate := q.hstate, index := q.index)
    ensures Leads(noBody, p, n, log, f.name + ":" + f.space, q, n + |f.name| + 1 + |f.space|,
                  Grown(log, FieldData, f.name))
  {
    hide RunBytes, Lowered, Tokens, Push, White;
    HeaderNameExact(noBody, p, n, log, f.name);
    var l, k := Grown(log, FieldData, f.name), n + |f.name| + 1;
    q := RunBytes(noBody, p, n, log, f.name + ":").p;
    SkipSpace(noBody, q, k, l, f.space);
    LeadsOn(noBody, p, n, log, f.name + ":", q, k, l, f.space, q, k + |f.space|, l);
  }

  /** A field, seen from the start of its line to the start of the next. */
  lemma OneField(noBody: NoBody, p: Parser, n: nat, log: Log, f: Field, rest: string) returns (h: HState, i: nat)
    requires p.state.HeaderFieldStart? && IsField(f) && n + |Line(f)| < MAX_HEADER_SIZE && !EndsWith(log, FieldData)
    requires rest != "" && !Blank(rest[0])
    ensures var r := RunBytes(noBody, p, n, log, Line(f) + rest);
            if LengthOk(f) then
              r == Later(RunBytes(noBody, Effect(p, f).(hstate := h, index := i), n + |Line(f)|, log + Report(f), rest),
                         |Line(f)|)
            else r.stop == Failed(InvalidContentLength)
  {
    hide RunBytes, LengthOk, Knows, Effect, Push, EndsWith, ValueText;
    var p0 := NamePart(noBody, p, n, log, f);
    var k, l0 := n + |f.name| + 1 + |f.space|, Grown(log, FieldData, f.name);
    var name := f.name + ":" + f.space;
    assert Line(f) + rest == name + (ValueText(f) + rest);
    RunSplit(noBody, p, n, log, name, ValueText(f) + rest);
    h, i := FromValue(noBody, p0, k, l0, f, rest);
    Pushes(log, f);
    if LengthOk(f) {
      EffectOf(p0, p, f);
      EffectOf(p, p, f);
    }
  }

  lemma Pushes(log: Log, f: Field)
    requires !EndsWith(log, FieldData) && f.name != ""
    ensures Push(Grown(log, FieldData, f.name), Data(ValueData, f.value + Unfolded(f.folds))) == log + Report(f)
  {
    var v := Data(ValueData, f.value + Unfolded(f.folds));
    assert log + [Data(FieldData, f.name)] + [v] == log + Report(f);
  }

  /** A name without a colon: it is reported, and has no value and no effect. */
  lemma BareName(noBody: NoBody, p: Parser, n: nat, log: Log, name: string, eol: string, rest: string)
    returns (h: HState, i: nat)
    requires p.state.HeaderFieldStart? && name != "" && Tokens(name) && Eol(eol) && rest != "" && !Blank(rest[0])
    requires n + |name| + |eol| < MAX_HEADER_SIZE
    ensures RunBytes(noBody, p, n, log, name + eol + rest)
         == Later(RunBytes(noBody, p.(hstate := h, index := i), n + |name| + |eol|, Grown(log, FieldData, name), rest),
                  |name| + |eol|)
  {
    hide RunBytes, Push, Tokens, Names;
    var b := NameTaken(noBody, p, n, log, name);
    h, i := b.hstate, b.index;
    var l, k := Grown(log, FieldData, name), n + |name|;
    var q := b.(state := if eol == [LF] then HeaderFieldStart else HeaderValueLws);
    NameEnd(noBody, b, k, l, eol);
    LeadsOn(noBody, p, n, log, name, b, k, l, eol, q, k + |eol|, l);
    RunSplit(noBody, p, n, log, name + eol, rest);
    if eol != [LF] {
      NextLine(noBody, q, k + |eol|, l, rest);
      assert HeaderFlags(q) == q.flags by { NamesNoFlag(q, Lowered(name)); }
    }
  }

  lemma NamesNoFlag(p: Parser, u: string)
    requires Names(p.hstate, p.index, u)
    ensures HeaderFlags(p) == p.flags
  {
  }

  lemma NameEnd(noBody: NoBody, p: Parser, n: nat, log: Log, eol: string)
    requires p.state.HeaderField? && Eol(eol) && n + |eol| <= MAX_HEADER_SIZE
    ensures Leads(noBody, p, n, log, eol, p.(state := if eol == [LF] then HeaderFieldStart else HeaderValueLws),
                  n + |eol|, log)
  {
    hide RunBytes, Step, IsToken;
    TokenBytes(eol[0]);
    StepOfField(p, eol[0]);
    OneByte(noBody, p, n, log, eol[0]);
    if eol != [LF] {
      var q := p.(state := HeaderAlmostDone);
      StepOfValue(q, LF);
      OneByte(noBody, q, n + 1, log, LF);
      LeadsOn(noBody, p, n, log, [CR], q, n + 1, log, [LF], p.(state := HeaderValueLws), n + 2, log);
      assert [CR] + [LF] == [CR, LF];
    }
  }

  /** A field's effect is on the flags and the content length, and depends on nothing else. */
  lemma EffectOf(p: Parser, q: Parser, f: Field)
    requires LengthOk(f) && p.flags == q.flags && p.contentLength == q.contentLength
    ensures var e := Effect(q, f);
            && Effect(p, f) == p.(flags := e.flags, contentLength := e.contentLength)
            && e.flags.trailing == q.flags.trailing
  {
    hide LengthOk, Says, Lowered;
  }

  /** The value of a field, to the start of the next line. */
  lemma FromValue(noBody: NoBody, p: Parser, n: nat, log: Log, f: Field, rest: string) returns (h: HState, i: nat)
    requires p.state.HeaderValueDiscardWs? && IsField(f) && Knows(p, f.name) && n + |ValueText(f)| < MAX_HEADER_SIZE
    requires rest != "" && !Blank(rest[0])
    ensures var r := RunBytes(noBody, p, n, log, ValueText(f) + rest);
            if LengthOk(f) then
              r == Later(RunBytes(noBody, Effect(p, f).(state := HeaderFieldStart, hstate := h, index := i),
                                  n + |ValueText(f)|, Push(log, Data(ValueData, f.value + Unfolded(f.folds))), rest),
                         |ValueText(f)|)
            else r.stop == Failed(InvalidContentLength)
  {
    hide RunBytes, Push, Says, Tokens, Lowered, HeaderFlags, White;
    h, i := p.hstate, p.index;
    if f.value == "" {
      assert ValueText(f) == f.eol && f.value + Unfolded(f.folds) == "";
      RunSplit(noBody, p, n, log, f.eol, rest);
      EmptyLine(noBody, p, n, log, f.eol);
      NextLine(noBody, p.(state := HeaderValueDiscardLws), n + |f.eol|, log, rest);
    } else if f.folds == [] {
      hide Effect;
      assert ValueText(f) == f.value + f.eol && f.value + Unfolded(f.folds) == f.value && f.(folds := []) == f;
      RunSplit(noBody, p, n, log, f.value + f.eol, rest);
      var q := ValueLine(noBody, p, n, log, f);
      if LengthOk(f) {
        NextLine(noBody, q, n + |f.value| + |f.eol|, Grown(log, ValueData, f.value), rest);
        h, i := q.hstate, q.index;
      }
    } else {
      FromFolds(noBody, p, n, log, f, rest);
      h, i := General, 0;
    }
  }

  /** A value with further lines. */
  lemma FromFolds(noBody: NoBody, p: Parser, n: nat, log: Log, f: Field, rest: string)
    requires p.state.HeaderValueDiscardWs? && IsField(f) && Knows(p, f.name) && n + |ValueText(f)| < MAX_HEADER_SIZE
    requires rest != "" && !Blank(rest[0]) && f.value != "" && f.folds != []
    ensures var r := RunBytes(noBody, p, n, log, ValueText(f) + rest);
            if LengthOk(f) then
              r == Later(RunBytes(noBody, Effect(p, f).(state := HeaderFieldStart, hstate := General, index := 0),
                                  n + |ValueText(f)|, Push(log, Data(ValueData, f.value + Unfolded(f.folds))), rest),
                         |ValueText(f)|)
            else r.stop == Failed(InvalidContentLength)
  {
    hide RunBytes, Push, Spells, Tokens, Lowered, White, FoldText, Unfolded, IsFold;
    var line, folds, k := f.value + f.eol, FoldText(f.folds), n + |f.value| + |f.eol|;
    var l := Grown(log, ValueData, f.value);
    var q := ValueLine(noBody, p, n, log, f);
    RunSplit(noBody, p, n, log, line, folds + rest);
    assert ValueText(f) + rest == line + (folds + rest);
    if LengthOk(f) {
      FoldLines(noBody, q, k, l, f.folds);
      var q', l' := q.(hstate := General, index := 0), Grown(l, ValueData, Unfolded(f.folds));
      RunSplit(noBody, q, k, l, folds, rest);
      NextLine(noBody, q', k + |folds|, l', rest);
      GrownTwice(log, ValueData, f.value, Unfolded(f.folds));
    } else if LengthOk(f.(folds := [])) {
      FoldsStart(f.folds);
      FoldStarts(noBody, q, k, l, folds[0], (folds + rest)[1..]);
      assert [folds[0]] + (folds + rest)[1..] == folds + rest;
    }
  }

  lemma FoldsStart(xs: seq<Fold>)
    requires xs != [] && forall x <- xs :: IsFold(x)
    ensures FoldText(xs) != "" && Blank(FoldText(xs)[0])
  {
    assert IsFold(xs[0]);
  }

  // ----- the whole trailer

  /** A run over data makes these callbacks and then completes the message, consuming all of it, and
      leaves the parser as p', but for its state. */
  ghost predicate Completes(noBody: NoBody, p: Parser, n: nat, log: Log, data: string, calls: seq<Call>, p': Parser) {
    var r := RunBytes(noBody, p, n, log, data);
    r == Run(p'.(state := NewMessage(p'), hstate := r.p.hstate, index := r.p.index), n + |data|,
             log + calls + [Notify(MessageComplete)], |data|, Ran)
  }

  lemma CompletesLater(noBody: NoBody, p: Parser, n: nat, log: Log, line: string, rest: string,
                       q: Parser, first: seq<Call>, calls: seq<Call>, p': Parser, p'': Parser)
    requires RunBytes(noBody, p, n, log, line + rest)
          == Later(RunBytes(noBody, q, n + |line|, log + first, rest), |line|)
    requires Completes(noBody, q, n + |line|, log + first, rest, calls, p')
    requires p' == p''.(hstate := p'.hstate, index := p'.index)
    ensures Completes(noBody, p, n, log, line + rest, first + calls, p'')
  {
    hide RunBytes, NewMessage;
    NewMessageIgnores(p'', p'.hstate, p'.index);
    assert log + first + calls == log + (first + calls);
  }

  lemma {:induction false} EffectsOf(p: Parser, q: Parser, fs: seq<Field>)
    requires LengthsOk(fs) && p.flags == q.flags && p.contentLength == q.contentLength
    ensures var e := Effects(q, fs); Effects(p, fs) == p.(flags := e.flags, contentLength := e.contentLength)
    decreases |fs|
  {
    hide LengthOk, Effect;
    if fs != [] {
      EffectOf(p, q, fs[0]);
      EffectOf(q, q, fs[0]);
      EffectsOf(Effect(p, fs[0]), Effect(q, fs[0]), fs[1..]);
      EffectsOf(Effect(q, fs[0]), Effect(q, fs[0]), fs[1..]);
    }
  }

  /** The fields behind the last chunk are reported as they were sent and have their effect, and the empty
      line completes the message; but a content length that cannot be read is an error.  nread is not
      cleared. */
  lemma {:induction false} Trailer(noBody: NoBody, p: Parser, n: nat, log: Log, fs: seq<Field>, end: string)
    requires p.state.HeaderFieldStart? && p.flags.trailing && !EndsWith(log, FieldData) && Eol(end)
    requires (forall f <- fs :: IsField(f)) && n + |Lines(fs)| + |end| <= MAX_HEADER_SIZE
    ensures if LengthsOk(fs) then Completes(noBody, p, n, log, Lines(fs) + end, Reports(fs), Effects(p, fs))
            else RunBytes(noBody, p, n, log, Lines(fs) + end).stop == Failed(InvalidContentLength)
    decreases |fs|
  {
    hide RunBytes, IsField, Line, LengthOk, Effect;
    if fs == [] {
      assert Lines(fs) + end == end && log + Reports(fs) == log;
      EmptyTrailer(noBody, p, n, log, end);
    } else {
      hide Completes;
      var f, rest := fs[0], Lines(fs[1..]) + end;
      RestStarts(fs[1..], end);
      assert Lines(fs) + end == Line(f) + rest;
      var h, i := OneField(noBody, p, n, log, f, rest);
      if LengthOk(f) {
        EffectOf(p, p, f);
        var q := Effect(p, f).(hstate := h, index := i);
        Trailer(noBody, q, n + |Line(f)|, log + Report(f), fs[1..], end);
        assert LengthsOk(fs) <==> LengthsOk(fs[1..]);
        if LengthsOk(fs) {
          EffectsOf(q, Effect(p, f), fs[1..]);
          EffectsOf(Effect(p, f), Effect(p, f), fs[1..]);
          CompletesLater(noBody, p, n, log, Line(f), rest, q, Report(f), Reports(fs[1..]),
                         Effects(q, fs[1..]), Effects(p, fs));
        }
      }
    }
  }

  lemma RestStarts(fs: seq<Field>, rest: string)
    requires (forall f <- fs :: IsField(f)) && rest != "" && !Blank(rest[0])
    ensures !Blank((Lines(fs) + rest)[0])
  {
    if fs != [] {
      assert IsField(fs[0]);
      assert Lines(fs)[0] == fs[0].name[0];
    }
  }

  lemma NewMessageIgnores(p: Parser, h: HState, i: nat)
    ensures NewMessage(p.(hstate := h, index := i)) == NewMessage(p)
  {
  }

  lemma EmptyTrailer(noBody: NoBody, p: Parser, n: nat, log: Log, end: string)
    requires p.state.HeaderFieldStart? && p.flags.trailing && Eol(end) && n + |end| <= MAX_HEADER_SIZE
    ensures Leads(noBody, p, n, log, end, p.(state := NewMessage(p)), n + |end|, log + [Notify(MessageComplete)])
  {
    hide RunBytes, Step, NewMessage;
    var q := p.(state := HeadersAlmostDone);
    HeaderEnd(noBody, p, n, log, end, "");
    StepOfBody(q, LF);
    OneByte(noBody, q, n + |end| - 1, log, LF);
    NewMessageOf(q, p);
    assert end + "" == end && [LF] + "" == [LF];
  }

  /** The empty line behind the fields, up to its line feed. */
  lemma HeaderEnd(noBody: NoBody, p: Parser, n: nat, log: Log, end: string, rest: string)
    requires p.state.HeaderFieldStart? && Eol(end) && n + |end| <= MAX_HEADER_SIZE
    ensures RunBytes(noBody, p, n, log, end + rest)
         == Later(RunBytes(noBody, p.(state := HeadersAlmostDone), n + |end| - 1, log, [LF] + rest), |end| - 1)
  {
    hide Step, Cont;
    var data := end + rest;
    StepOfField(p, data[0]);
    ContStep(noBody, p, n + 1, log, data[0], data[1..]);
    assert end == [CR, LF] ==> data[1..] == [LF] + rest;
    assert end == [LF] ==> data == [LF] + rest;
  }

  /** The end of the headers of a chunked message, any chunks, the last chunk and a trailer: exactly
      the concatenation of the chunks' data is delivered, then the fields of the trailer, then the
      message is complete, and nothing more is consumed; but a trailer with a content length that cannot
      be read is an error. */
  lemma ChunkedBody(noBody: NoBody, p: Parser, n: nat, log: Log, cs: seq<Chunk>, last: Chunk, fs: seq<Field>,
                    end: string)
    requires p.state.HeadersAlmostDone? && n < MAX_HEADER_SIZE && !p.flags.trailing
    requires BodyFollows(Told(noBody, p, log)) && p.flags.chunked
    requires (forall c <- cs :: IsChunk(c) && c.data != "") && IsChunk(last) && last.data == ""
    requires (forall f <- fs :: IsField(f)) && Eol(end) && |Lines(fs)| + |end| <= MAX_HEADER_SIZE
    ensures var data := [LF] + (Encode(cs) + Head(last)) + (Lines(fs) + end);
            var r := RunBytes(noBody, p, n, log, data);
            var q := p.(contentLength := 0, upgrade := false, flags := p.flags.(trailing := true));
            if LengthsOk(fs) then
              var q' := Effects(q, fs);
              r == Run(q'.(state := NewMessage(q'), hstate := r.p.hstate, index := r.p.index), |Lines(fs)| + |end|,
                       Grown(log + [Notify(HeadersComplete)], BodyData, Joined(cs)) + Reports(fs)
                       + [Notify(MessageComplete)],
                       |data|, Ran)
            else r.stop == Failed(InvalidContentLength)
  {
    hide RunBytes, NewMessage, Push, IsChunk, IsField, Effects, LengthsOk;
    var l1 := log + [Notify(HeadersComplete)];
    var l2 := Grown(l1, BodyData, Joined(cs));
    var q := p.(contentLength := 0, upgrade := false, flags := p.flags.(trailing := true));
    var p3 := q.(state := HeaderFieldStart);
    var body := [LF] + (Encode(cs) + Head(last));
    ToTrailer(noBody, p, n, log, cs, last);
    RunSplit(noBody, p, n, log, body, Lines(fs) + end);
    AfterBody(l1, Joined(cs));
    Trailer(noBody, p3, 0, l2, fs, end);
    if LengthsOk(fs) {
      EffectsOf(p3, q, fs);
      EffectsOf(q, q, fs);
      NewMessageOf(Effects(p3, fs), Effects(q, fs));
    }
  }

  /** Up to the trailer. */
  lemma ToTrailer(noBody: NoBody, p: Parser, n: nat, log: Log, cs: seq<Chunk>, last: Chunk)
    requires p.state.HeadersAlmostDone? && n < MAX_HEADER_SIZE && !p.flags.trailing
    requires BodyFollows(Told(noBody, p, log)) && p.flags.chunked
    requires (forall c <- cs :: IsChunk(c) && c.data != "") && IsChunk(last) && last.data == ""
    ensures Leads(noBody, p, n, log, [LF] + (Encode(cs) + Head(last)),
                  p.(state := HeaderFieldStart, contentLength := 0, upgrade := false,
                     flags := p.flags.(trailing := true)), 0,
                  Grown(log + [Notify(HeadersComplete)], BodyData, Joined(cs)))
  {
    hide RunBytes, NewMessage, Push, IsChunk;
    var p1 := p.(upgrade := false, state := ChunkSizeStart);
    var l1 := log + [Notify(HeadersComplete)];
    var p2 := if cs == [] then p1 else p1.(contentLength := 0);
    var l2 := Grown(l1, BodyData, Joined(cs));
    var p3 := p1.(contentLength := 0, state := HeaderFieldStart, flags := p.flags.(trailing := true));
    ChunkHead(noBody, p2, l2, last);
    Chunks(noBody, p1, l1, cs);
    LeadsOn(noBody, p1, 0, l1, Encode(cs), p2, 0, l2, Head(last), p3, 0, l2);
    HeadersEndByte(noBody, p, n, log);
    LeadsOn(noBody, p, n, log, [LF], p1, 0, l1, Encode(cs) + Head(last), p3, 0, l2);
  }

  lemma AfterBody(log: Log, body: string)
    requires !EndsWith(log, FieldData)
    ensures !EndsWith(Grown(log, BodyData, body), FieldData)
  {
  }
}
