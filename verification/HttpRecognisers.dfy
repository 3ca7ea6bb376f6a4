/** The words the parser recognises: a request method is accepted exactly if it is in the table,
    the header names and values that influence parsing are recognised exactly. */
module HttpRecognisers {
  import opened HttpTypes
  import opened HttpMachine
  import opened HttpRun
  import opened HttpParser
  import opened HttpBody

  // ----- request methods

  /** The bytes u read so far are a prefix of the name of the stored method. */
  ghost predicate OnTrack(p: Parser, u: string) {
    p.state.ReqMethod? && u != "" && p.index == |u| && u <= MethodString(p.verb)
  }

  /** Changing over to another method keeps the bytes read so far a prefix. */
  lemma RerouteOnTrack(m: Method, u: string, ch: char)
    requires u <= MethodString(m) && CanReroute(m, |u|, ch)
    ensures u + [ch] <= MethodString(Reroute(m, |u|, ch))
  {
    assert |u| == 1 || |u| == 2 || |u| == 4;
  }

  lemma MethodStep(p: Parser, u: string, ch: char)
    requires OnTrack(p, u) && ch != ' '
    ensures var m := Step(p, ch);
            m.act.Quiet? && (m.next.Fail? || (m.next.Consume? && OnTrack(m.p, u + [ch]) && m.p.kind == p.kind))
  {
    hide Step, MethodString, CanReroute, Reroute;
    StepOfLine(p, ch);
    if CanReroute(p.verb, p.index, ch) {
      RerouteOnTrack(p.verb, u, ch);
    }
  }

  /** Whatever is read before a space, the parser either fails or is still on track. */
  lemma {:induction false} MethodRun(noBody: NoBody, p: Parser, n: nat, log: Log, u: string, w: string)
    requires OnTrack(p, u) && ' ' !in w
    ensures var r := RunBytes(noBody, p, n, log, w);
            r.stop.Failed? || (r.stop.Ran? && r.log == log && OnTrack(r.p, u + w) && r.p.kind == p.kind)
    decreases |w|
  {
    hide Step, OnTrack;
    if w == "" {
      assert u + w == u;
    } else if !Overflows(p.state, n) {
      MethodStep(p, u, w[0]);
      ContStep(noBody, p, Fetch(p.state, n), log, w[0], w[1..]);
      var m := Step(p, w[0]);
      if m.next.Consume? {
        assert u + [w[0]] + w[1..] == u + w;
        MethodRun(noBody, m.p, Counter(p.state, Fetch(p.state, n), m.next), log, u + [w[0]], w[1..]);
      }
    }
  }

  /** The method that is stored after the first i bytes of the name of m. */
  function Route(m: Method, i: nat): Method {
    if m.CHECKOUT? then if i < 2 then CONNECT else m
    else if m.COPY? then if i < 3 then CONNECT else m
    else if m.MOVE? || m.MERGE? || m.MSEARCH? then if i < 2 then MKCOL else m
    else if m.MKACTIVITY? then if i < 3 then MKCOL else m
    else if m.SEARCH? then if i < 2 then SUBSCRIBE else m
    else if m.PROPFIND? || m.PATCH? || m.PUT? then if i < 2 then POST else m
    else if m.PROPPATCH? then if i < 2 then POST else if i < 5 then PROPFIND else m
    else if m.PURGE? then if i < 2 then POST else if i < 3 then PUT else m
    else if m.UNSUBSCRIBE? then if i < 3 then UNLOCK else m
    else m
  }

  lemma RouteStart(m: Method)
    ensures var w := MethodString(m);
            1 < |w| <= 11 && MethodInitial(w[0]) && IsAlpha(w[0]) && Route(m, 1) == FirstMethod(w[0])
  {
  }

  lemma RouteEnd(m: Method)
    ensures Route(m, |MethodString(m)|) == m
  {
  }

  /** The byte at i of the name of m continues the stored method or changes over to the next one. */
  lemma RouteStep(m: Method, i: nat)
    requires 1 <= i < |MethodString(m)|
    ensures var ch, at := MethodString(m)[i], Route(m, i);
            && ch != ' ' && ch as int != 0
            && if i < |MethodString(at)| && MethodString(at)[i] == ch then Route(m, i + 1) == at
               else CanReroute(at, i, ch) && Reroute(at, i, ch) == Route(m, i + 1)
  {
    PlainName(m);
    if i >= 5 {
      hide MethodString;
    } else {
      RouteStepEarly(m, i);
    }
  }

  lemma PlainName(m: Method)
    ensures forall ch <- MethodString(m) :: ch != ' ' && ch as int != 0
  {
  }

  lemma RouteStepEarly(m: Method, i: nat)
    requires 1 <= i < |MethodString(m)| && i < 5
    ensures var ch, at := MethodString(m)[i], Route(m, i);
            if i < |MethodString(at)| && MethodString(at)[i] == ch then Route(m, i + 1) == at
            else CanReroute(at, i, ch) && Reroute(at, i, ch) == Route(m, i + 1)
  {
    if i == 1 {
    } else if i == 2 {
    } else if i == 3 {
    }
  }

  /** Reading on through the name of m leads to m. */
  lemma {:induction false} MethodAccepted(noBody: NoBody, p: Parser, n: nat, log: Log, m: Method, i: nat)
    requires p.state.ReqMethod? && 1 <= i <= |MethodString(m)| && p.index == i && p.verb == Route(m, i)
    requires n + |MethodString(m)| - i <= MAX_HEADER_SIZE
    ensures var w := MethodString(m);
            Leads(noBody, p, n, log, w[i..], p.(verb := m, index := |w|), n + |w| - i, log)
    decreases |MethodString(m)| - i
  {
    hide Step, MethodString, CanReroute, Reroute, Route;
    var w := MethodString(m);
    if i == |w| {
      RouteEnd(m);
    } else {
      RouteStep(m, i);
      StepOfLine(p, w[i]);
      var q := p.(verb := Route(m, i + 1), index := i + 1);
      ContStep(noBody, p, n + 1, log, w[i], w[i..][1..]);
      assert w[i..][1..] == w[i + 1..];
      MethodAccepted(noBody, q, n + 1, log, m, i + 1);
    }
  }

  /** The space behind the name. */
  lemma MethodSpace(noBody: NoBody, p: Parser, n: nat, log: Log, u: string)
    requires OnTrack(p, u) && n < MAX_HEADER_SIZE
    ensures var r := RunBytes(noBody, p, n, log, " ");
            if u == MethodString(p.verb) then
              r == Run(p.(index := |u| + 1, state := ReqSpacesBeforeUrl), n + 1, log, 1, Ran)
            else r.stop == Failed(InvalidMethod)
  {
    hide Step, MethodString;
    StepOfLine(p, ' ');
    ContStep(noBody, p, n + 1, log, ' ', " "[1..]);
    NoSpaces(p.verb);
  }

  lemma NoSpaces(m: Method)
    ensures ' ' !in MethodString(m)
    ensures forall i, ch :: CanReroute(m, i, ch) ==> ch != ' '
  {
  }

  /** The outcome r of a run over the word w and a space: m is stored if and only if w is its name, and
      any other outcome is an error. */
  ghost predicate Recognised(r: Run, w: string, m: Method, kind: Kind) {
    && (r.stop.Ran? && r.p.verb == m <==> w == MethodString(m))
    && (r.stop.Ran? ==> r.p.state.ReqSpacesBeforeUrl? && r.p.kind == kind && w == MethodString(r.p.verb))
    && (!r.stop.Ran? ==> r.stop.Failed?)
  }

  /** The rest of a word, behind the bytes u read so far, and the space. */
  lemma RestOfWord(noBody: NoBody, p: Parser, n: nat, log: Log, u: string, w: string, m: Method)
    requires OnTrack(p, u) && ' ' !in w && n + |w| + 1 <= MAX_HEADER_SIZE
    requires u + w == MethodString(m) ==> p.verb == Route(m, |u|)
    ensures Recognised(RunBytes(noBody, p, n, log, w + " "), u + w, m, p.kind)
  {
    hide RunBytes, Step, MethodString, OnTrack, Route;
    RunSplit(noBody, p, n, log, w, " ");
    MethodRun(noBody, p, n, log, u, w);
    var b := RunBytes(noBody, p, n, log, w);
    TrackIndex(p, u);
    if u + w == MethodString(m) {
      assert MethodString(m)[|u|..] == w;
      MethodAccepted(noBody, p, n, log, m, |u|);
    }
    if b.stop.Ran? {
      NreadBound(noBody, p, n, log, w);
      MethodSpace(noBody, b.p, b.nread, b.log, u + w);
    }
  }

  lemma TrackIndex(p: Parser, u: string)
    requires OnTrack(p, u)
    ensures p.state.ReqMethod? && 1 <= |u| == p.index
  {
  }

  /** The first byte of a request. */
  lemma FirstByte(noBody: NoBody, p: Parser, n: nat, log: Log, ch: char)
    requires p.state.StartReq? && ch != CR && ch != LF && n < MAX_HEADER_SIZE
    ensures var r := RunBytes(noBody, p, n, log, [ch]);
            if MethodInitial(ch) then
              && r == Run(Fresh(p).(verb := FirstMethod(ch), index := 1, state := ReqMethod), n + 1,
                          log + [Notify(MessageBegin)], 1, Ran)
              && OnTrack(r.p, [ch])
            else r.stop == Failed(InvalidMethod)
  {
    hide Step;
    StepOfLine(p, ch);
    ContStep(noBody, p, n + 1, log, ch, [ch][1..]);
  }

  /** A word at the start of a request. */
  lemma WordOfRequest(noBody: NoBody, p: Parser, n: nat, log: Log, w: string, m: Method)
    requires p.state.StartReq? && ' ' !in w && (w != "" ==> w[0] != CR && w[0] != LF)
    requires n + |w| + 1 <= MAX_HEADER_SIZE
    ensures Recognised(RunBytes(noBody, p, n, log, w + " "), w, m, p.kind)
  {
    hide RunBytes, Step, MethodString, OnTrack;
    RouteStart(m);
    if w == "" {
      FirstByte(noBody, p, n, log, ' ');
      assert w + " " == [' '];
    } else {
      assert w + " " == [w[0]] + (w[1..] + " ");
      RunSplit(noBody, p, n, log, [w[0]], w[1..] + " ");
      FirstByte(noBody, p, n, log, w[0]);
      var a := RunBytes(noBody, p, n, log, [w[0]]);
      assert [w[0]] + w[1..] == w;
      if a.stop.Ran? {
        RestOfWord(noBody, a.p, a.nread, a.log, [w[0]], w[1..], m);
      }
    }
  }

  // ----- a parser that does not know yet what it parses

  lemma Undecided(noBody: NoBody, p: Parser, n: nat, log: Log, data: string)
    requires p.state.StartReqOrRes? && data != "" && data[0] != CR && data[0] != LF && n < MAX_HEADER_SIZE
    ensures if data[0] != 'H' then
              RunBytes(noBody, p, n, log, data)
              == RunBytes(noBody, Fresh(p).(kind := Request, state := StartReq), n, log, data)
            else
              RunBytes(noBody, p, n, log, data)
              == Later(RunBytes(noBody, Fresh(p).(state := ResOrRespH), n + 1, log + [Notify(MessageBegin)],
                                data[1..]), 1)
  {
    hide Step, Cont;
    StepOfLine(p, data[0]);
    ContStep(noBody, p, n + 1, log, data[0], data[1..]);
  }

  /** Behind an 'H', a 'T' makes it a response and an 'E' the method HEAD. */
  lemma BehindH(noBody: NoBody, p: Parser, n: nat, log: Log, data: string)
    requires p.state.ResOrRespH? && data != "" && n < MAX_HEADER_SIZE
    ensures var r := RunBytes(noBody, p, n, log, data);
            if data[0] == 'T' then
              r == Later(RunBytes(noBody, p.(kind := Response, state := ResHT), n + 1, log, data[1..]), 1)
            else if data[0] == 'E' then
              var q := p.(kind := Request, verb := HEAD, index := 2, state := ReqMethod);
              OnTrack(q, "HE") && r == Later(RunBytes(noBody, q, n + 1, log, data[1..]), 1)
            else r.stop == Failed(InvalidConstant)
  {
    hide Step, Cont;
    StepOfLine(p, data[0]);
    ContStep(noBody, p, n + 1, log, data[0], data[1..]);
  }

  /** The states of a status line up to the space behind the version. */
  predicate BeforeStatus(s: State) {
    s.ResHT? || s.ResHTT? || s.ResHTTP? || s.ResFirstMajor? || s.ResMajor? || s.ResFirstMinor? || s.ResMinor?
  }

  lemma BeforeStatusStep(p: Parser, ch: char)
    requires BeforeStatus(p.state)
    ensures var m := Step(p, ch);
            || m.next.Fail?
            || (m.next.Consume? && m.p.kind == p.kind
                && if ch == ' ' then m.p.state.ResFirstStatusCode? else BeforeStatus(m.p.state))
  {
    hide Version;
  }

  lemma {:induction false} StatusLineWord(noBody: NoBody, p: Parser, n: nat, log: Log, w: string)
    requires BeforeStatus(p.state) && ' ' !in w && n + |w| + 1 <= MAX_HEADER_SIZE
    ensures var r := RunBytes(noBody, p, n, log, w + " ");
            r.stop.Failed? || (r.stop.Ran? && r.p.kind == p.kind && r.p.state.ResFirstStatusCode?)
    decreases |w|
  {
    hide Step, BeforeStatus, Cont;
    var data := w + " ";
    BeforeStatusStep(p, data[0]);
    ContStep(noBody, p, Fetch(p.state, n), log, data[0], data[1..]);
    var m := Step(p, data[0]);
    if w == "" {
      assert data[1..] == "";
    } else if m.next.Consume? {
      assert data[1..] == w[1..] + " ";
      var l := Emit(log, m.act, data[0]);
      StatusLineNext(p, n, data[0], m.next);
      AnsweredSame(noBody, l, m);
      StatusLineWord(noBody, Answered(noBody, l, m), Counter(p.state, Fetch(p.state, n), m.next), l, w[1..]);
    }
  }

  lemma StatusLineNext(p: Parser, n: nat, ch: char, next: Next)
    requires BeforeStatus(p.state)
    ensures Fetch(p.state, n) == n + 1 && Counter(p.state, n + 1, next) == n + 1
  {
  }

  lemma AnsweredSame(noBody: NoBody, log: Log, m: Micro)
    ensures var q := Answered(noBody, log, m); q.state == m.p.state && q.kind == m.p.kind
  {
  }

  lemma NotHt(m: Method)
    ensures var w := MethodString(m);
            && 2 < |w| && (w[0] == 'H' <==> m.HEAD?) && (m.HEAD? ==> w == "HEAD" && Route(m, 2) == HEAD)
  {
  }

  /** The outcome r of a run of a parser that may see a response over the word w and a space: as above,
      unless w is the beginning of a status line. */
  ghost predicate RecognisedOr(r: Run, w: string, m: Method) {
    if "HT" <= w then
      w != MethodString(m) && (r.stop.Failed? || (r.stop.Ran? && r.p.kind.Response? && r.p.state.ResFirstStatusCode?))
    else Recognised(r, w, m, Request)
  }

  lemma WordBehindH(noBody: NoBody, p: Parser, n: nat, log: Log, w: string, m: Method)
    requires p.state.ResOrRespH? && ' ' !in w && n + |w| + 1 <= MAX_HEADER_SIZE
    ensures RecognisedOr(RunBytes(noBody, p, n, log, w + " "), "H" + w, m)
  {
    hide RunBytes, Step, MethodString, OnTrack, Route;
    var data, v := w + " ", "H" + w;
    BehindH(noBody, p, n, log, data);
    NotHt(m);
    assert v[0] == 'H' && (w != "" ==> v[1] == w[0]) && ("HT" <= v ==> v[1] == 'T');
    if w != "" && w[0] == 'T' {
      assert data[1..] == w[1..] + " " && v[..2] == "HT";
      StatusLineWord(noBody, p.(kind := Response, state := ResHT), n + 1, log, w[1..]);
    } else if w != "" && w[0] == 'E' {
      assert data[1..] == w[1..] + " " && "HE" + w[1..] == v;
      var q := p.(kind := Request, verb := HEAD, index := 2, state := ReqMethod);
      RestOfWord(noBody, q, n + 1, log, "HE", w[1..], m);
    }
  }

  /** A word at the start of a request or a response. */
  lemma WordOfEither(noBody: NoBody, p: Parser, n: nat, log: Log, w: string, m: Method)
    requires p.state.StartReqOrRes? && ' ' !in w && (w != "" ==> w[0] != CR && w[0] != LF)
    requires n + |w| + 1 <= MAX_HEADER_SIZE
    ensures RecognisedOr(RunBytes(noBody, p, n, log, w + " "), w, m)
  {
    hide RunBytes, Step, MethodString, Recognised;
    var data := w + " ";
    Undecided(noBody, p, n, log, data);
    if w != "" && w[0] == 'H' {
      hide RecognisedOr;
      assert data[1..] == w[1..] + " " && "H" + w[1..] == w;
      var q, l := Fresh(p).(state := ResOrRespH), log + [Notify(MessageBegin)];
      WordBehindH(noBody, q, n + 1, l, w[1..], m);
      RecognisedLater(RunBytes(noBody, q, n + 1, l, data[1..]), 1, w, m, Request);
    } else {
      WordOfRequest(noBody, Fresh(p).(kind := Request, state := StartReq), n, log, w, m);
    }
  }

  /** A request method is accepted if and only if the bytes in front of the first space, apart from
      leading line ends, are in the method table, and then that method is stored; anything else is an
      error.  So it is also where the parser has yet to find out whether it sees a request or a response,
      except that what starts with "HT" is a status line, and no method. */
  lemma MethodExact(noBody: NoBody, p: Parser, n: nat, log: Log, blank: string, w: string, m: Method)
    requires p.state.StartReq? || p.state.StartReqOrRes?
    requires LineEnds(blank) && ' ' !in w && (w != "" ==> w[0] != CR && w[0] != LF)
    requires n + |blank| + |w| + 1 <= MAX_HEADER_SIZE
    ensures var r := RunBytes(noBody, p, n, log, blank + (w + " "));
            if p.state.StartReq? then Recognised(r, w, m, p.kind) else RecognisedOr(r, w, m)
  {
    hide RunBytes, Step, MethodString, Recognised, RecognisedOr;
    SkipBlank(noBody, p, n, log, blank);
    RunSplit(noBody, p, n, log, blank, w + " ");
    var k, data := n + |blank|, w + " ";
    if p.state.StartReq? {
      WordOfRequest(noBody, p, k, log, w, m);
      RecognisedLater(RunBytes(noBody, p, k, log, data), |blank|, w, m, p.kind);
    } else {
      WordOfEither(noBody, p, k, log, w, m);
      RecognisedLater(RunBytes(noBody, p, k, log, data), |blank|, w, m, Request);
    }
  }

  /** Line ends in front of a message are skipped. */
  lemma {:induction false} SkipBlank(noBody: NoBody, p: Parser, n: nat, log: Log, s: string)
    requires p.state.StartReq? || p.state.StartReqOrRes?
    requires LineEnds(s) && n + |s| <= MAX_HEADER_SIZE
    ensures Leads(noBody, p, n, log, s, p, n + |s|, log)
    decreases |s|
  {
    hide Step;
    if s != "" {
      StepOfLine(p, s[0]);
      ContStep(noBody, p, n + 1, log, s[0], s[1..]);
      SkipBlank(noBody, p, n + 1, log, s[1..]);
    }
  }

  lemma RecognisedLater(r: Run, n: nat, w: string, m: Method, kind: Kind)
    ensures Recognised(r, w, m, kind) ==> Recognised(Later(r, n), w, m, kind)
    ensures RecognisedOr(r, w, m) ==> RecognisedOr(Later(r, n), w, m)
  {
    hide MethodString;
  }

  /** A run that consumes everything has counted at most all of it. */
  lemma {:induction false} NreadBound(noBody: NoBody, p: Parser, n: nat, log: Log, data: string)
    ensures var r := RunBytes(noBody, p, n, log, data); r.stop.Ran? ==> r.nread <= n + |data|
    decreases |data|
  {
    hide Bite;
    if data != "" && !Overflows(p.state, n) {
      BiteBound(noBody, p, Fetch(p.state, n), log, data[0]);
      var b := Bite(noBody, p, Fetch(p.state, n), log, data[0]);
      if b.next.Consume? {
        NreadBound(noBody, b.p, b.nread, b.log, data[1..]);
      }
    }
  }

  lemma {:induction false} BiteBound(noBody: NoBody, p: Parser, n: nat, log: Log, ch: char)
    ensures Bite(noBody, p, n, log, ch).nread <= n
    decreases Rank(p.state)
  {
    AgainRank(p, ch);
    var m := Step(p, ch);
    hide Step;
    if m.next.Again? {
      var l := Emit(log, m.act, ch);
      BiteBound(noBody, Answered(noBody, l, m), Counter(p.state, n, m.next), l, ch);
    }
  }

  // ----- header names

  function Lowered(s: string): string { if s == "" then "" else [ToLower(s[0])] + Lowered(s[1..]) }

  predicate Tokens(s: string) { forall i :: 0 <= i < |s| ==> IsToken(s[i]) }

  /** The header state h describes the lower-cased name u read so far; General says that u is not
      the beginning of any of the five names. */
  ghost predicate Names(h: HState, index: nat, u: string) {
    if h.HC? then u == "c" && index == 0
    else if h.HCO? then u == "co" && index == 1
    else if h.HCON? then u == "con" && index == 2
    else if MatchingField(h) then
      Distinct(h) <= |u| < |WordOf(h)| && index == |u| - 1 && u <= WordOf(h)
    else if h.Connection? then u == WordOf(MatchingConnection) || u == WordOf(MatchingProxyConnection)
    else if h.ContentLength? then u == WordOf(MatchingContentLength)
    else if h.TransferEncoding? then u == WordOf(MatchingTransferEncoding)
    else if h.UpgradeHeader? then u == WordOf(MatchingUpgrade)
    else h.General? && forall k :: MatchingField(k) ==> !(u <= WordOf(k))
  }

  /** How many letters tell the name of h from the other four. */
  function Distinct(h: HState): nat { if h.MatchingConnection? || h.MatchingContentLength? then 4 else 1 }

  /** Names are told apart by their first Distinct(h) letters. */
  lemma NamesApart(h: HState, k: HState, u: string)
    requires MatchingField(h) && MatchingField(k) && h != k && u <= WordOf(h) && Distinct(h) <= |u|
    ensures !(u <= WordOf(k))
  {
    assert u[0] == WordOf(h)[0];
    if Distinct(h) == 4 && Distinct(k) == 4 {
      assert u[3] == WordOf(h)[3];
    }
  }

  /** The letters that the first three states compare. */
  lemma Letters(k: HState)
    requires MatchingField(k)
    ensures var w := WordOf(k);
            && |w| > 4
            && (k.MatchingConnection? ==> w[..4] == "conn")
            && (k.MatchingContentLength? ==> w[..4] == "cont")
            && (k.MatchingProxyConnection? ==> w[0] == 'p')
            && (k.MatchingTransferEncoding? ==> w[0] == 't')
            && (k.MatchingUpgrade? ==> w[0] == 'u')
  {
  }

  /** u + [c] begins the word w exactly if u does and c is the next letter. */
  lemma PrefixStep(u: string, c: char, w: string)
    ensures u + [c] <= w <==> u <= w && |u| < |w| && w[|u|] == c
  {
  }

  lemma FirstLetter(c: char)
    ensures var h := if c == 'c' then HC else if c == 'p' then MatchingProxyConnection
                     else if c == 't' then MatchingTransferEncoding else if c == 'u' then MatchingUpgrade else General;
            Names(h, 0, [c])
  {
    hide WordOf;
    forall k | MatchingField(k)
      ensures [c] <= WordOf(k) <==> WordOf(k) != "" && WordOf(k)[0] == c
    {
      Letters(k);
    }
    Letters(MatchingConnection);
    Letters(MatchingContentLength);
    Letters(MatchingProxyConnection);
    Letters(MatchingTransferEncoding);
    Letters(MatchingUpgrade);
  }

  /** The first three letters, common to two names. */
  lemma CommonLetters(h: HState, index: nat, u: string, c: char)
    requires Names(h, index, u) && (h.HC? || h.HCO? || h.HCON?)
    ensures var g := if h.HC? then if c == 'o' then HCO else General
                     else if h.HCO? then if c == 'n' then HCON else General
                     else if c == 'n' then MatchingConnection
                     else if c == 't' then MatchingContentLength
                     else General;
            Names(g, index + 1, u + [c])
  {
    hide WordOf;
    forall k | MatchingField(k)
      ensures u + [c] <= WordOf(k) <==> u <= WordOf(k) && |u| < |WordOf(k)| && WordOf(k)[|u|] == c
      ensures |WordOf(k)| > 4
      ensures k.MatchingConnection? ==> WordOf(k)[..4] == "conn"
      ensures k.MatchingContentLength? ==> WordOf(k)[..4] == "cont"
      ensures !k.MatchingConnection? && !k.MatchingContentLength? ==> !(u <= WordOf(k))
    {
      Letters(k);
      PrefixStep(u, c, WordOf(k));
    }
    assert MatchingField(MatchingConnection) && MatchingField(MatchingContentLength);
    var a, b := WordOf(MatchingConnection), WordOf(MatchingContentLength);
    assert a[0] == a[..4][0] && a[1] == a[..4][1] && a[2] == a[..4][2] && a[3] == a[..4][3];
    assert b[0] == b[..4][0] && b[1] == b[..4][1] && b[2] == b[..4][2] && b[3] == b[..4][3];
  }

  /** Inside one name. */
  lemma InsideName(p: Parser, u: string, c: char)
    requires Names(p.hstate, p.index, u) && MatchingField(p.hstate)
    ensures var q := Match(p, c as int); Names(q.hstate, q.index, u + [c])
  {
    hide WordOf;
    var h := p.hstate;
    var w := WordOf(h);
    PrefixStep(u, c, w);
    forall k | MatchingField(k) && k != h
      ensures !(u + [c] <= WordOf(k))
    {
      NamesApart(h, k, u);
      PrefixStep(u, c, WordOf(k));
    }
    if u + [c] <= w {
      assert w[..|u| + 1] == u + [c];
      assert |u| + 1 == |w| ==> w == u + [c];
    }
  }

  /** Behind a name, or off all names. */
  lemma OffName(h: HState, index: nat, u: string, c: char)
    requires Names(h, index, u) && !MatchingField(h) && !h.HC? && !h.HCO? && !h.HCON?
    ensures Names(General, index, u + [c])
  {
    hide WordOf;
    forall k | MatchingField(k)
      ensures !(u + [c] <= WordOf(k))
    {
      PrefixStep(u, c, WordOf(k));
      if u <= WordOf(k) {
        var j := if h.ContentLength? then MatchingContentLength
                 else if h.TransferEncoding? then MatchingTransferEncoding
                 else if h.UpgradeHeader? then MatchingUpgrade
                 else if u == WordOf(MatchingConnection) then MatchingConnection
                 else MatchingProxyConnection;
        Letters(j);
        if k != j {
          NamesApart(j, k, u);
        }
      }
    }
  }

  lemma NameStep(p: Parser, u: string, c: char)
    requires Names(p.hstate, p.index, u)
    ensures var q := FieldByte(p, c); q.state == p.state && Names(q.hstate, q.index, u + [c])
  {
    if p.hstate.HC? || p.hstate.HCO? || p.hstate.HCON? {
      CommonLetters(p.hstate, p.index, u, c);
    } else if MatchingField(p.hstate) {
      InsideName(p, u, c);
    } else {
      OffName(p.hstate, p.index, u, c);
    }
    hide WordOf, Names;
  }

  /** Reading on through token bytes keeps the header state true to the name. */
  lemma {:induction false} NameRun(noBody: NoBody, p: Parser, n: nat, log: Log, u: string, s: string)
    requires p.state.HeaderField? && Names(p.hstate, p.index, u) && Tokens(s) && n + |s| <= MAX_HEADER_SIZE
    ensures var r := RunBytes(noBody, p, n, log, s);
            && r == Run(p.(hstate := r.p.hstate, index := r.p.index), n + |s|, Grown(log, FieldData, s), |s|, Ran)
            && Names(r.p.hstate, r.p.index, u + Lowered(s))
    decreases |s|
  {
    hide Step, Names, ToLower, IsToken, Push, Cont;
    if s == "" {
      assert u + Lowered(s) == u;
    } else {
      StepOfField(p, s[0]);
      NameStep(p, u, ToLower(s[0]));
      FieldByteOnly(p, ToLower(s[0]));
      hide FieldByte;
      ContStep(noBody, p, n + 1, log, s[0], s[1..]);
      assert u + [ToLower(s[0])] + Lowered(s[1..]) == u + Lowered(s);
      assert [s[0]] + s[1..] == s;
      GrownTwice(log, FieldData, [s[0]], s[1..]);
      NameRun(noBody, FieldByte(p, ToLower(s[0])), n + 1, Grown(log, FieldData, [s[0]]), u + [ToLower(s[0])], s[1..]);
    }
  }

  lemma FieldByteOnly(p: Parser, c: char)
    ensures var q := FieldByte(p, c); q == p.(hstate := q.hstate, index := q.index)
  {
    hide WordOf, HitOf;
  }

  /** The first byte of a header name. */
  lemma FirstNameByte(noBody: NoBody, p: Parser, n: nat, log: Log, ch: char)
    requires p.state.HeaderFieldStart? && IsToken(ch) && n < MAX_HEADER_SIZE
    ensures var a := Step(p, ch).p;
            && a == p.(index := 0, state := HeaderField, hstate := a.hstate) && Names(a.hstate, 0, [ToLower(ch)])
            && Leads(noBody, p, n, log, [ch], a, n + 1, Grown(log, FieldData, [ch]))
  {
    hide RunBytes, Step, Names, ToLower, IsToken, Push;
    FirstLetter(ToLower(ch));
    StepOfField(p, ch);
    TokenBytes(ch);
    OneByte(noBody, p, n, log, ch);
  }

  /** A whole header name. */
  lemma NameTaken(noBody: NoBody, p: Parser, n: nat, log: Log, name: string) returns (b: Parser)
    requires p.state.HeaderFieldStart? && name != "" && Tokens(name) && n + |name| <= MAX_HEADER_SIZE
    ensures b == p.(state := HeaderField, hstate := b.hstate, index := b.index)
    ensures Names(b.hstate, b.index, Lowered(name))
    ensures Leads(noBody, p, n, log, name, b, n + |name|, Grown(log, FieldData, name))
  {
    hide RunBytes, Step, Names, ToLower, IsToken, Push;
    var c, a := ToLower(name[0]), Step(p, name[0]).p;
    var la := Grown(log, FieldData, [name[0]]);
    FirstNameByte(noBody, p, n, log, name[0]);
    NameRun(noBody, a, n + 1, la, [c], name[1..]);
    assert [c] + Lowered(name[1..]) == Lowered(name);
    assert [name[0]] + name[1..] == name;
    GrownTwice(log, FieldData, [name[0]], name[1..]);
    b := RunBytes(noBody, a, n + 1, la, name[1..]).p;
    LeadsOn(noBody, p, n, log, [name[0]], a, n + 1, la, name[1..], b, n + |name|, Grown(log, FieldData, name));
  }

  /** At the colon behind a header name, the header state says Connection, Content-Length,
      Transfer-Encoding or Upgrade if and only if the name, lower-cased, is that name. */
  lemma HeaderNameExact(noBody: NoBody, p: Parser, n: nat, log: Log, name: string)
    requires p.state.HeaderFieldStart? && name != "" && Tokens(name) && n + |name| + 1 <= MAX_HEADER_SIZE
    ensures var r := RunBytes(noBody, p, n, log, name + ":");
            var l := Lowered(name);
            && r == Run(p.(hstate := r.p.hstate, index := r.p.index, state := HeaderValueDiscardWs), n + |name| + 1,
                        Grown(log, FieldData, name), |name| + 1, Ran)
            && (r.p.hstate.Connection? <==> l == "connection" || l == "proxy-connection")
            && (r.p.hstate.ContentLength? <==> l == "content-length")
            && (r.p.hstate.TransferEncoding? <==> l == "transfer-encoding")
            && (r.p.hstate.UpgradeHeader? <==> l == "upgrade")
  {
    hide RunBytes, Step, Names, ToLower, IsToken, Push;
    var b := NameTaken(noBody, p, n, log, name);
    var lb := Grown(log, FieldData, name);
    StepOfField(b, ':');
    TokenBytes(':');
    OneByte(noBody, b, n + |name|, lb, ':');
    LeadsOn(noBody, p, n, log, name, b, n + |name|, lb, ":", b.(state := HeaderValueDiscardWs), n + |name| + 1, lb);
    NamesDecide(b.hstate, b.index, Lowered(name));
  }

  lemma TokenBytes(ch: char)
    ensures IsToken(ch) ==> ch != CR && ch != LF
    ensures !IsToken(':')
  {
  }

  lemma NamesDecide(h: HState, index: nat, l: string)
    requires Names(h, index, l)
    ensures h.Connection? <==> l == "connection" || l == "proxy-connection"
    ensures h.ContentLength? <==> l == "content-length"
    ensures h.TransferEncoding? <==> l == "transfer-encoding"
    ensures h.UpgradeHeader? <==> l == "upgrade"
  {
    forall k | MatchingField(k) && l == WordOf(k)
      ensures h == HitOf(k)
    {
      assert l <= WordOf(k);
      Letters(k);
      if MatchingField(h) && h != k {
        NamesApart(h, k, l);
      }
    }
    assert MatchingField(MatchingConnection) && MatchingField(MatchingProxyConnection)
           && MatchingField(MatchingContentLength)
        && MatchingField(MatchingTransferEncoding) && MatchingField(MatchingUpgrade);
  }

  // ----- header values

  /** v agrees with the word w, in either case, as far as both go; behind w there are only spaces. */
  ghost predicate Agrees(v: string, w: string) {
    forall i :: 0 <= i < |v| ==> if i < |w| then Lower(v[i]) == w[i] as int else v[i] == ' '
  }

  /** v is the word w, in either case, possibly followed by spaces. */
  ghost predicate Spells(v: string, w: string) { |w| <= |v| && Agrees(v, w) }

  /** The header state h describes the value v read so far, for a matcher that started in k. */
  ghost predicate Tells(h: HState, index: nat, k: HState, v: string) {
    var w := WordOf(k);
    if h == k then Agrees(v, w) && index == |v| - 1 && |v| < |w|
    else if h == HitOf(k) then Spells(v, w)
    else h.General? && !Agrees(v, w)
  }

  lemma AgreesStep(v: string, c: char, w: string)
    ensures Agrees(v + [c], w) <==> Agrees(v, w) && if |v| < |w| then Lower(c) == w[|v|] as int else c == ' '
  {
    hide Lower;
    assert (v + [c])[|v|] == c;
    if Agrees(v + [c], w) {
      forall i | 0 <= i < |v|
        ensures if i < |w| then Lower(v[i]) == w[i] as int else v[i] == ' '
      {
        assert (v + [c])[i] == v[i];
      }
    }
  }

  lemma ValueStep(p: Parser, k: HState, v: string, c: char)
    requires MatchingValue(k) && Tells(p.hstate, p.index, k, v) && v != ""
    ensures var m := ValueByte(p, c);
            && m == Micro(p.(hstate := m.p.hstate, index := m.p.index), Stay(ValueData), Consume)
            && Tells(m.p.hstate, m.p.index, k, v + [c])
  {
    hide WordOf, Lower, Agrees;
    AgreesStep(v, c, WordOf(k));
  }

  lemma {:induction false} ValueRun(noBody: NoBody, p: Parser, n: nat, log: Log, k: HState, v: string, s: string)
    requires p.state.HeaderValue? && MatchingValue(k) && Tells(p.hstate, p.index, k, v) && v != ""
    requires CR !in s && LF !in s && n + |s| <= MAX_HEADER_SIZE
    ensures var r := RunBytes(noBody, p, n, log, s);
            && r == Run(p.(hstate := r.p.hstate, index := r.p.index), n + |s|, Grown(log, ValueData, s), |s|, Ran)
            && Tells(r.p.hstate, r.p.index, k, v + s)
    decreases |s|
  {
    hide Step, Tells, ValueByte, Push;
    if s == "" {
      assert v + s == v;
    } else {
      StepOfValue(p, s[0]);
      ValueStep(p, k, v, s[0]);
      var q := ValueByte(p, s[0]).p;
      ContStep(noBody, p, n + 1, log, s[0], s[1..]);
      assert v + [s[0]] + s[1..] == v + s;
      assert [s[0]] + s[1..] == s;
      GrownTwice(log, ValueData, [s[0]], s[1..]);
      ValueRun(noBody, q, n + 1, Grown(log, ValueData, [s[0]]), k, v + [s[0]], s[1..]);
    }
  }

  /** The first byte of a Transfer-Encoding or Connection value selects the word to compare with. */
  lemma ValueFirst(p: Parser, ch: char, k: HState)
    requires p.state.HeaderValueDiscardWs? && ch != ' ' && ch != '\t' && ch != CR && ch != LF
    requires (p.hstate.TransferEncoding? && k.MatchingChunked?)
             || (p.hstate.Connection? && (k.MatchingKeepAlive? || k.MatchingClose?))
    ensures var m := Step(p, ch);
            && m == Micro(p.(state := HeaderValue, index := 0, hstate := m.p.hstate), Mark(ValueData), Consume)
            && (p.hstate.TransferEncoding? ==> m.p.hstate.General? || m.p.hstate.MatchingChunked?)
            && (p.hstate.Connection? ==> !m.p.hstate.MatchingChunked?)
            && (m.p.hstate == k || m.p.hstate.General? ==> Tells(m.p.hstate, 0, k, [ch]))
            && (m.p.hstate != k && !m.p.hstate.General? ==>
                  !Agrees([ch], WordOf(k)) && MatchingValue(m.p.hstate) && HitOf(m.p.hstate) != HitOf(k)
                  && Tells(m.p.hstate, 0, m.p.hstate, [ch]))
  {
    hide Step, Lower, Agrees, WordOf;
    StepOfValue(p, ch);
    AgreesFirst(ch, MatchingChunked);
    AgreesFirst(ch, MatchingKeepAlive);
    AgreesFirst(ch, MatchingClose);
  }

  lemma AgreesFirst(ch: char, k: HState)
    requires MatchingValue(k)
    ensures |WordOf(k)| > 1
    ensures Agrees([ch], WordOf(k)) <==> Lower(ch) == (if k.MatchingKeepAlive? then 'k' else 'c') as int
  {
    hide Lower;
    assert [ch][0] == ch;
  }

  lemma {:induction false} AgreesPrefix(v: string, s: string, w: string)
    requires Agrees(v + s, w)
    ensures Agrees(v, w)
    decreases |s|
  {
    hide Agrees;
    if s == "" {
      assert v + s == v;
    } else {
      var t := s[..|s| - 1];
      assert v + s == (v + t) + [s[|s| - 1]];
      AgreesStep(v + t, s[|s| - 1], w);
      AgreesPrefix(v, t, w);
    }
  }

  /** The end of a header value line. */
  lemma ValueEnd(noBody: NoBody, p: Parser, n: nat, log: Log, eol: string)
    requires p.state.HeaderValue? && Eol(eol) && n + |eol| <= MAX_HEADER_SIZE
    ensures Leads(noBody, p, n, log, eol, p.(state := HeaderValueLws), n + |eol|, log)
  {
    hide RunBytes, Step;
    var q := p.(state := HeaderAlmostDone);
    StepOfValue(p, eol[0]);
    StepOfValue(q, LF);
    if eol == [LF] {
      ValueEndsAtLf(noBody, p, n, log);
    } else {
      OneByte(noBody, p, n, log, CR);
      OneByte(noBody, q, n + 1, log, LF);
      LeadsOn(noBody, p, n, log, [CR], q, n + 1, log, [LF], p.(state := HeaderValueLws), n + 2, log);
      assert [CR] + [LF] == [CR, LF];
    }
  }

  lemma ValueEndsAtLf(noBody: NoBody, p: Parser, n: nat, log: Log)
    requires p.state.HeaderValue? && n + 1 <= MAX_HEADER_SIZE
    ensures Leads(noBody, p, n, log, [LF], p.(state := HeaderValueLws), n + 1, log)
  {
    hide Step, Cont;
    var q := p.(state := HeaderAlmostDone);
    StepOfValue(p, LF);
    StepOfValue(q, LF);
    ContStep(noBody, p, n + 1, log, LF, []);
    ContStep(noBody, q, n + 1, log, LF, []);
    assert [LF][1..] == [];
  }

  /** What the header state can be behind a value. */
  predicate Settled(h: HState) { h.General? || MatchingValue(h) || h.Chunked? || h.KeepAlive? || h.Close? }

  /** At the end of the line, the header state says "chunked", "keep-alive" or "close" if and only if
      the value spells that word, in either case and with nothing but spaces behind it. */
  lemma HeaderValueExact(noBody: NoBody, p: Parser, n: nat, log: Log, v: string, eol: string, k: HState)
    requires p.state.HeaderValueDiscardWs? && v != "" && v[0] != ' ' && v[0] != '\t' && CR !in v && LF !in v
    requires (p.hstate.TransferEncoding? && k.MatchingChunked?)
             || (p.hstate.Connection? && (k.MatchingKeepAlive? || k.MatchingClose?))
    requires Eol(eol) && n + |v| + |eol| <= MAX_HEADER_SIZE
    ensures var r := RunBytes(noBody, p, n, log, v + eol);
            && r == Run(p.(state := HeaderValueLws, hstate := r.p.hstate, index := r.p.index), n + |v| + |eol|,
                        Grown(log, ValueData, v), |v| + |eol|, Ran)
            && (r.p.hstate == HitOf(k) <==> Spells(v, WordOf(k))) && Settled(r.p.hstate)
            && (if p.hstate.Connection? then !r.p.hstate.Chunked? else !r.p.hstate.KeepAlive? && !r.p.hstate.Close?)
  {
    hide RunBytes, Step, Agrees, WordOf, Push, Settled;
    var b := WordTaken(noBody, p, n, log, v, k);
    var l := Grown(log, ValueData, v);
    ValueEnd(noBody, b, n + |v|, l, eol);
    LeadsOn(noBody, p, n, log, v, b, n + |v|, l, eol, b.(state := HeaderValueLws), n + |v| + |eol|, l);
  }

  /** The same in front of the end of the line. */
  lemma WordTaken(noBody: NoBody, p: Parser, n: nat, log: Log, v: string, k: HState) returns (b: Parser)
    requires p.state.HeaderValueDiscardWs? && v != "" && v[0] != ' ' && v[0] != '\t' && CR !in v && LF !in v
    requires (p.hstate.TransferEncoding? && k.MatchingChunked?)
             || (p.hstate.Connection? && (k.MatchingKeepAlive? || k.MatchingClose?))
    requires n + |v| <= MAX_HEADER_SIZE
    ensures b == p.(state := HeaderValue, hstate := b.hstate, index := b.index)
    ensures Leads(noBody, p, n, log, v, b, n + |v|, Grown(log, ValueData, v))
    ensures (b.hstate == HitOf(k) <==> Spells(v, WordOf(k))) && Settled(b.hstate)
    ensures if p.hstate.Connection? then !b.hstate.Chunked? else !b.hstate.KeepAlive? && !b.hstate.Close?
  {
    hide RunBytes, Step, Tells, Agrees, WordOf, Push;
    ValueFirst(p, v[0], k);
    var a := Step(p, v[0]).p;
    var la := Grown(log, ValueData, [v[0]]);
    OneByte(noBody, p, n, log, v[0]);
    var j := if a.hstate == k || a.hstate.General? then k else a.hstate;
    ValueRun(noBody, a, n + 1, la, j, [v[0]], v[1..]);
    assert [v[0]] + v[1..] == v;
    GrownTwice(log, ValueData, [v[0]], v[1..]);
    b := RunBytes(noBody, a, n + 1, la, v[1..]).p;
    LeadsOn(noBody, p, n, log, [v[0]], a, n + 1, la, v[1..], b, n + |v|, Grown(log, ValueData, v));
    TellsDecide(b.hstate, b.index, j, v);
    if j != k && Agrees(v, WordOf(k)) {
      AgreesPrefix([v[0]], v[1..], WordOf(k));
    }
  }

  lemma TellsDecide(h: HState, index: nat, k: HState, v: string)
    requires MatchingValue(k) && Tells(h, index, k, v)
    ensures h == HitOf(k) <==> Spells(v, WordOf(k))
    ensures h == HitOf(k) || h.General? || h == k
  {
    hide Agrees, WordOf;
  }
}
