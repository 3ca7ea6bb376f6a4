/** No URLs are accepted but those put together as the grammar says. */
module HttpUrlExact {
  import opened HttpTypes
  import opened HttpMachine
  import opened HttpUrl
  import opened HttpUrlText

  // ----- the tail of a URL that is accepted

  /** The state of the first pass in the tail of a URL, at position i. */
  ghost predicate InTail(buf: string, t: Tail, origin: bool, s: State, i: nat) {
    && TailOk(buf, t, origin, i)
    && (if s.ReqPath? then t.path < t.query == i
        else if s.ReqQueryStart? then t.query + 1 == t.fragment == i
        else if s.ReqQuery? then t.query + 1 < t.fragment == i
        else if s.ReqFragmentStart? then t.fragment < t.text == i
        else s.ReqFragment? && t.text < i)
  }

  /** Where the tail is cut once the byte at i leads to state s. */
  function TailNext(t: Tail, s: State, i: nat): Tail {
    if s.ReqPath? then Tail(t.path, i + 1, i + 1, i + 1)
    else if s.ReqQueryStart? || s.ReqQuery? then Tail(t.path, t.query, i + 1, i + 1)
    else if s.ReqFragmentStart? then Tail(t.path, t.query, t.fragment, i + 1)
    else t
  }

  lemma TailStep(buf: string, t: Tail, origin: bool, s: State, i: nat)
    requires InTail(buf, t, origin, s, i) && i < |buf|
    ensures var s' := ParseUrlChar(s, buf[i]);
            !s'.Dead? ==> InTail(buf, TailNext(t, s', i), origin, s', i + 1)
  {
    var s' := ParseUrlChar(s, buf[i]);
    TailTransitions(s, buf[i]);
    hide ParseUrlChar, IsUrlChar;
    if !s'.Dead? {
      var t' := TailNext(t, s', i);
      assert TailOk(buf, t', origin, i + 1);
    }
  }

  lemma TailTransitions(s: State, c: char)
    requires s.ReqPath? || s.ReqQueryStart? || s.ReqQuery? || s.ReqFragmentStart? || s.ReqFragment?
    ensures var t := ParseUrlChar(s, c);
            || t.Dead?
            || (t.ReqPath? && s.ReqPath? && IsUrlChar(c))
            || (t.ReqQueryStart? && s.ReqPath? && c == '?')
            || (t.ReqQuery? && (s.ReqQueryStart? || s.ReqQuery?) && QueryChar(c))
            || (t.ReqFragmentStart? && !s.ReqFragment? && c == '#')
            || (t.ReqFragment? && s.ReqFragmentStart? && QueryChar(c) && c != '#')
            || (t.ReqFragment? && s.ReqFragment? && (QueryChar(c) || c == '#'))
  {
  }

  lemma TailStates(buf: string, t: Tail, origin: bool, s: State, i: nat)
    requires InTail(buf, t, origin, s, i)
    ensures !s.Dead? && (s.ReqPath? || s.ReqQueryStart? || s.ReqQuery? || s.ReqFragmentStart? || s.ReqFragment?)
    ensures TailOk(buf, t, origin, i)
  {
  }

  // ----- a host that is accepted

  /** The user information of an authority, and the '@' behind it. */
  ghost predicate UserOk(buf: string, a: Auth) {
    && a.lo <= a.user <= |buf|
    && if a.at then a.user < |buf| && buf[a.user] == '@' && forall k :: a.lo <= k < a.user ==> IsUserinfoChar(buf[k])
       else a.user == a.lo
  }

  /** A host up to position i, which is still open. */
  ghost predicate HostOpen(buf: string, a: Auth, i: nat) {
    && UserOk(buf, a) && a.host < i <= |buf|
    && if a.v6 then
         && a.host == HostFrom(a) + 1 && buf[HostFrom(a)] == '['
         && forall k :: a.host <= k < i ==> V6Char(buf[k])
       else a.host == HostFrom(a) && forall k :: a.host <= k < i ==> IsHostChar(buf[k])
  }

  ghost predicate HostDone(buf: string, a: Auth) {
    HostOpen(buf, a, a.hostEnd) && HostTo(a) <= |buf| && (a.v6 ==> buf[a.hostEnd] == ']')
  }

  /** The state of the host parser in an authority, at position i. */
  ghost predicate InAuth(buf: string, a: Auth, s: HostState, i: nat) {
    && a.lo <= i <= |buf|
    && (if s.UserinfoStart? then a.at && i == a.lo
        else if s.InUserinfo? then a.at && a.lo < i && forall k :: a.lo <= k < i ==> IsUserinfoChar(buf[k])
        else if s.HostStart? then UserOk(buf, a) && i == HostFrom(a)
        else if s.HostV6Start? then UserOk(buf, a) && a.v6 && a.host == i == HostFrom(a) + 1 && buf[HostFrom(a)] == '['
        else if s.InHost? then HostOpen(buf, a, i) && !a.v6
        else if s.HostV6? then HostOpen(buf, a, i) && a.v6
        else if s.HostV6End? then HostDone(buf, a) && a.v6 && i == HostTo(a)
        else if s.HostPortStart? then HostDone(buf, a) && i == HostTo(a) + 1 && buf[HostTo(a)] == ':'
        else
          && s.HostPort? && HostDone(buf, a) && HostTo(a) + 1 < i && buf[HostTo(a)] == ':'
          && forall k :: HostTo(a) < k < i ==> IsNum(buf[k]))
  }

  /** Where the authority is cut once the byte at i leads from state s to state t. */
  function AuthNext(a: Auth, s: HostState, t: HostState, i: nat): Auth {
    if t.HostStart? then a.(user := i)
    else if t.HostV6Start? then a.(v6 := true, host := i + 1)
    else if t.InHost? && s.HostStart? then a.(v6 := false, host := i)
    else if t.HostV6End? || (t.HostPortStart? && s.InHost?) then a.(hostEnd := i)
    else a
  }

  lemma HostCharTo(s: HostState, c: char)
    ensures var t := ParseHostChar(s, c);
            && (t.InUserinfo? ==> IsUserinfoChar(c)) && (t.HostStart? ==> c == '@') && (t.HostV6Start? ==> c == '[')
            && (t.InHost? ==> IsHostChar(c)) && (t.HostV6? ==> V6Char(c)) && (t.HostV6End? ==> c == ']')
            && (t.HostPortStart? ==> c == ':') && (t.HostPort? ==> IsNum(c))
  {
    hide IsUserinfoChar, IsHostChar;
  }

  lemma AuthStep(buf: string, a: Auth, s: HostState, i: nat)
    requires InAuth(buf, a, s, i) && i < |buf|
    ensures var t := ParseHostChar(s, buf[i]);
            !t.HostDead? ==> InAuth(buf, AuthNext(a, s, t, i), t, i + 1) && AuthNext(a, s, t, i).lo == a.lo
  {
    var t := ParseHostChar(s, buf[i]);
    HostTransitions(s, buf[i]);
    HostCharTo(s, buf[i]);
    hide ParseHostChar, IsUserinfoChar, IsHostChar, V6Char;
    if !t.HostDead? {
      var a' := AuthNext(a, s, t, i);
      if t.InHost? || t.HostV6? {
        assert HostOpen(buf, a', i + 1);
      } else if t.HostV6End? || t.HostPortStart? {
        assert HostDone(buf, a');
      }
    }
  }

  lemma {:induction false} AuthOnly(u: Url, s: HostState, buf: string, a: Auth, i: nat, end: nat) returns (a': Auth)
    requires Total(u) && i <= end <= |buf| && InAuth(buf, a, s, i) && !EndsBadly(HostAll(u, s, buf, i, end).1)
    ensures InAuth(buf, a', HostAll(u, s, buf, i, end).1, end) && a'.lo == a.lo
    decreases end - i
  {
    hide ParseHostChar, InAuth, HostRecord, AuthNext, HostAll;
    a' := a;
    if i < end {
      AuthStates(buf, a, s, i);
      HostAllStep(u, s, buf, i, end);
      AuthStep(buf, a, s, i);
      var t := ParseHostChar(s, buf[i]);
      if !t.HostDead? {
        RecordTotal(u, s, t, i);
        a' := AuthOnly(HostRecord(u, s, t, i), t, buf, AuthNext(a, s, t, i), i + 1, end);
      }
    } else {
      HostAllEnd(u, s, buf, end);
    }
  }

  lemma RecordTotal(u: Url, s: HostState, t: HostState, i: nat)
    requires Total(u)
    ensures Total(HostRecord(u, s, t, i))
  {
  }

  lemma AuthStates(buf: string, a: Auth, s: HostState, i: nat)
    requires InAuth(buf, a, s, i)
    ensures !s.HostDead?
  {
  }

  /** A host that is accepted is an authority. */
  lemma HostOnly(buf: string, u: Url, foundAt: bool) returns (a: Auth)
    requires Total(u) && End(u, Host) <= |buf| && HostParsed(buf, u, foundAt).Some?
    ensures Authority(buf, a) && a.lo == u.data[Host].off && a.hi == End(u, Host)
  {
    hide ParseHostChar, HostAll;
    var lo, hi := u.data[Host].off, End(u, Host);
    var v := u.(data := u.data[Host := Span(lo, 0)]);
    var start := if foundAt then UserinfoStart else HostStart;
    a := Auth(lo, foundAt, lo, false, 0, 0, 0);
    a := AuthOnly(v, start, buf, a, lo, hi);
    var s := HostAll(v, start, buf, lo, hi).1;
    a := a.(hi := hi, hostEnd := if s.InHost? then hi else a.hostEnd);
    AuthEnd(buf, a, s);
  }

  lemma AuthEnd(buf: string, a: Auth, s: HostState)
    requires InAuth(buf, a, s, a.hi) && (s.InHost? ==> a.hostEnd == a.hi) && !EndsBadly(s)
    ensures Authority(buf, a)
  {
    hide IsUserinfoChar, IsHostChar, V6Char;
  }

  // ----- the whole first pass

  predicate NoHost(x: Pass)
    requires Total(x.u)
  {
    Host !in x.u.fields && x.u.data[Host] == NO_SPAN && x.last != {Host}
  }

  predicate HostFromTo(x: Pass, lo: nat, hi: nat)
    requires Total(x.u)
  {
    lo < hi && Host in x.u.fields && x.u.data[Host] == Span(lo, hi - lo)
  }

  /** The first n bytes are letters. */
  ghost predicate Letters(buf: string, n: nat) { 0 < n <= |buf| && forall k :: 0 <= k < n ==> IsAlpha(buf[k]) }

  /** The server may start at lo. */
  ghost predicate ServerAt(buf: string, isConnect: bool, lo: nat) {
    if isConnect then lo == 0 else lo >= 3 && SchemaOk(buf, lo - 3)
  }

  /** The first pass in front of the server, at position i. */
  ghost predicate InFront(buf: string, isConnect: bool, x: Pass, i: nat)
    requires Total(x.u)
  {
    && NoHost(x) && i <= |buf| && (x.s.ReqServerStart? ==> ServerAt(buf, isConnect, i))
    && if x.s.ReqServerStart? && isConnect then true
       else
         && !isConnect && (Schema in x.u.fields <==> !x.s.ReqSpacesBeforeUrl?)
         && (if x.s.ReqSpacesBeforeUrl? then i == 0
             else if x.s.ReqSchema? then Letters(buf, i)
             else if x.s.ReqSchemaSlash? then i >= 1 && Letters(buf, i - 1) && buf[i - 1] == ':'
             else if x.s.ReqSchemaSlashSlash? then
               i >= 2 && Letters(buf, i - 2) && buf[i - 2] == ':' && buf[i - 1] == '/'
             else x.s.ReqServerStart?)
  }

  /** In the server, which starts at lo. */
  ghost predicate InServer(buf: string, isConnect: bool, x: Pass, lo: nat, i: nat)
    requires Total(x.u)
  {
    && (x.s.ReqServer? || x.s.ReqServerWithAt?) && x.last == {Host} && i <= |buf|
    && ServerAt(buf, isConnect, lo) && HostFromTo(x, lo, i)
  }

  /** Behind the server, if any. */
  ghost predicate BehindServer(buf: string, isConnect: bool, x: Pass, lo: nat, t: Tail, origin: bool, i: nat)
    requires Total(x.u)
  {
    && InTail(buf, t, origin, x.s, i)
    && if origin then !isConnect && t.path == 0 < t.query && Host !in x.u.fields && Schema !in x.u.fields
       else ServerAt(buf, isConnect, lo)
            && if HostFromTo(x, lo, t.path) then true
               else Host !in x.u.fields && x.u.data[Host] == NO_SPAN && (!isConnect ==> Schema in x.u.fields)
  }

  /** Anywhere. */
  ghost predicate InUrl(buf: string, isConnect: bool, x: Pass, lo: nat, t: Tail, origin: bool, i: nat) {
    && Total(x.u)
    && (|| InFront(buf, isConnect, x, i) || InServer(buf, isConnect, x, lo, i)
        || BehindServer(buf, isConnect, x, lo, t, origin, i))
  }

  lemma FrontTransitions(s: State, c: char)
    requires s.ReqSpacesBeforeUrl? || s.ReqSchema? || s.ReqSchemaSlash? || s.ReqSchemaSlashSlash? || s.ReqServerStart?
    ensures var t := ParseUrlChar(s, c);
            || t.Dead?
            || (t.ReqPath? && s.ReqSpacesBeforeUrl? && (c == '/' || c == '*'))
            || (t.ReqSchema? && (s.ReqSpacesBeforeUrl? || s.ReqSchema?) && IsAlpha(c))
            || (t.ReqSchemaSlash? && s.ReqSchema? && c == ':')
            || (t.ReqSchemaSlashSlash? && s.ReqSchemaSlash? && c == '/')
            || (t.ReqServerStart? && s.ReqSchemaSlashSlash? && c == '/')
            || (s.ReqServerStart? && ((t.ReqPath? && c == '/') || (t.ReqQueryStart? && c == '?')
                                      || t.ReqServer? || t.ReqServerWithAt?))
  {
    hide IsAlpha, IsUserinfoChar;
  }

  lemma ServerTransitions(s: State, c: char)
    requires s.ReqServer? || s.ReqServerWithAt?
    ensures var t := ParseUrlChar(s, c);
            t.Dead? || (t.ReqPath? && c == '/') || (t.ReqQueryStart? && c == '?') || t.ReqServer? || t.ReqServerWithAt?
  {
    hide IsUserinfoChar;
  }

  /** The tail of a URL that starts at i. */
  function TailFrom(s: State, i: nat): Tail {
    if s.ReqPath? then Tail(i, i + 1, i + 1, i + 1) else Tail(i, i, i + 1, i + 1)
  }

  lemma TailStarts(buf: string, s: State, origin: bool, i: nat)
    requires i < |buf|
    requires (s.ReqPath? && (buf[i] == '/' || (origin && buf[i] == '*'))) || (s.ReqQueryStart? && buf[i] == '?')
    ensures InTail(buf, TailFrom(s, i), origin, s, i + 1)
  {
  }

  lemma FrontStep(buf: string, isConnect: bool, x: Pass, i: nat) returns (lo: nat, t: Tail, origin: bool)
    requires Total(x.u) && i < |buf| && InFront(buf, isConnect, x, i) && !ParseUrlChar(x.s, buf[i]).Dead?
    ensures InUrl(buf, isConnect, Passed(x, buf[i], i), lo, t, origin, i + 1)
  {
    FrontTransitions(x.s, buf[i]);
    hide ParseUrlChar, IsAlpha, InTail;
    var s, y := ParseUrlChar(x.s, buf[i]), Passed(x, buf[i], i);
    lo, t, origin := i, TailFrom(s, i), !x.s.ReqServerStart?;
    if s.ReqPath? || s.ReqQueryStart? {
      TailStarts(buf, s, origin, i);
      assert BehindServer(buf, isConnect, y, lo, t, origin, i + 1);
    } else if s.ReqServer? || s.ReqServerWithAt? {
      assert InServer(buf, isConnect, y, lo, i + 1);
    } else {
      assert InFront(buf, isConnect, y, i + 1);
    }
  }

  lemma ServerStep(buf: string, isConnect: bool, x: Pass, lo: nat, i: nat) returns (t: Tail)
    requires Total(x.u) && i < |buf| && InServer(buf, isConnect, x, lo, i) && !ParseUrlChar(x.s, buf[i]).Dead?
    ensures InUrl(buf, isConnect, Passed(x, buf[i], i), lo, t, false, i + 1)
  {
    ServerTransitions(x.s, buf[i]);
    hide ParseUrlChar, IsAlpha, InTail, ServerAt;
    var s, y := ParseUrlChar(x.s, buf[i]), Passed(x, buf[i], i);
    t := TailFrom(s, i);
    if s.ReqPath? || s.ReqQueryStart? {
      TailStarts(buf, s, false, i);
      assert BehindServer(buf, isConnect, y, lo, t, false, i + 1);
    } else {
      assert InServer(buf, isConnect, y, lo, i + 1);
    }
  }

  lemma BehindStep(buf: string, isConnect: bool, x: Pass, lo: nat, t: Tail, origin: bool, i: nat)
    requires Total(x.u) && i < |buf| && BehindServer(buf, isConnect, x, lo, t, origin, i)
    requires !ParseUrlChar(x.s, buf[i]).Dead?
    ensures InUrl(buf, isConnect, Passed(x, buf[i], i), lo, TailNext(t, ParseUrlChar(x.s, buf[i]), i), origin, i + 1)
  {
    TailStates(buf, t, origin, x.s, i);
    TailStep(buf, t, origin, x.s, i);
    TailTransitions(x.s, buf[i]);
    PathStays(buf, t, origin, x.s, i);
    hide ParseUrlChar, IsAlpha, InTail, ServerAt;
    var s, y := ParseUrlChar(x.s, buf[i]), Passed(x, buf[i], i);
    assert BehindServer(buf, isConnect, y, lo, TailNext(t, s, i), origin, i + 1);
  }

  lemma PathStays(buf: string, t: Tail, origin: bool, s: State, i: nat)
    requires InTail(buf, t, origin, s, i)
    ensures forall s' :: TailNext(t, s', i).path == t.path && (0 < t.query ==> 0 < TailNext(t, s', i).query)
  {
  }

  lemma {:induction false} UrlOnly(buf: string, isConnect: bool, x: Pass, lo: nat, t: Tail, origin: bool, i: nat)
    returns (lo': nat, t': Tail, origin': bool)
    requires i <= |buf| && InUrl(buf, isConnect, x, lo, t, origin, i) && !PassAll(x, buf, i).s.Dead?
    ensures InUrl(buf, isConnect, PassAll(x, buf, i), lo', t', origin', |buf|)
    decreases |buf| - i
  {
    hide ParseUrlChar, InFront, InServer, BehindServer, Passed, TailNext;
    lo', t', origin' := lo, t, origin;
    if i < |buf| {
      var y := Passed(x, buf[i], i);
      StateNext(x, buf[i], i);
      if InFront(buf, isConnect, x, i) {
        lo', t', origin' := FrontStep(buf, isConnect, x, i);
      } else if InServer(buf, isConnect, x, lo, i) {
        t' := ServerStep(buf, isConnect, x, lo, i);
        origin' := false;
      } else {
        BehindStep(buf, isConnect, x, lo, t, origin, i);
        t' := TailNext(t, ParseUrlChar(x.s, buf[i]), i);
      }
      lo', t', origin' := UrlOnly(buf, isConnect, y, lo', t', origin', i + 1);
    }
  }

  lemma StateNext(x: Pass, c: char, i: nat)
    requires Total(x.u)
    ensures Passed(x, c, i).s == ParseUrlChar(x.s, c)
  {
    hide ParseUrlChar;
  }

  // ----- exactly these URLs are accepted

  ghost predicate IsOrigin(buf: string, t: Tail) { TailOk(buf, t, true, |buf|) && t.path == 0 < t.query }

  ghost predicate IsAbsolute(buf: string, n: nat, a: Auth, t: Tail) {
    && SchemaOk(buf, n) && Authority(buf, a) && TailOk(buf, t, false, |buf|) && a.lo == n + 3 && a.hi == t.path
    && PortValue(buf, a) <= 0xFFFF
  }

  ghost predicate IsConnect(buf: string, a: Auth, t: Tail) {
    && Authority(buf, a) && TailOk(buf, t, false, |buf|) && a.lo == 0 == a.user && a.hi == t.path
    && HostTo(a) < a.hi && BareTail(t, |buf|) && PortValue(buf, a) <= 0xFFFF
  }

  /** The grammar of what is accepted. */
  ghost predicate HasForm(buf: string, isConnect: bool) {
    if isConnect then exists a, t :: IsConnect(buf, a, t)
    else buf == "" || (exists t :: IsOrigin(buf, t)) || exists n, a, t :: IsAbsolute(buf, n, a, t)
  }

  /** A URL in which the first pass found no host. */
  lemma HostMissing(buf: string, isConnect: bool, x: Pass)
    requires x == PassAll(PassFrom(isConnect), buf, 0) && Parsed(buf, isConnect).Some?
    requires Host !in x.u.fields && x.u.data[Host] == NO_SPAN
    ensures !isConnect && Schema !in x.u.fields
  {
    hide PassAll;
  }

  lemma HostFound(buf: string, isConnect: bool, x: Pass, lo: nat, hi: nat) returns (a: Auth)
    requires x == PassAll(PassFrom(isConnect), buf, 0) && Parsed(buf, isConnect).Some?
    requires HostFromTo(x, lo, hi) && hi <= |buf|
    ensures Authority(buf, a) && a.lo == lo && a.hi == hi
  {
    hide PassAll, HostParsed, Authority;
    a := HostOnly(buf, x.u, x.at);
  }

  lemma AcceptedHasHost(buf: string, isConnect: bool, x: Pass, lo: nat, t: Tail)
    requires x == PassAll(PassFrom(isConnect), buf, 0) && Parsed(buf, isConnect).Some?
    requires ServerAt(buf, isConnect, lo) && TailOk(buf, t, false, |buf|) && HostFromTo(x, lo, t.path)
    ensures HasForm(buf, isConnect)
  {
    hide PassAll, Parsed, Authority, SchemaOk, AuthSpans;
    TailShape(buf, t, false);
    var a := HostFound(buf, isConnect, x, lo, t.path);
    hide TailOk;
    AuthorityShape(buf, a);
    if isConnect {
      ConnectForm(buf, a, t);
      assert IsConnect(buf, a, t);
    } else {
      AbsoluteForm(buf, lo - 3, a, t);
      assert IsAbsolute(buf, lo - 3, a, t);
    }
  }

  lemma Accepted(buf: string, isConnect: bool)
    requires Parsed(buf, isConnect).Some?
    ensures HasForm(buf, isConnect)
  {
    hide PassAll, Parsed, InTail, TailOk;
    var start := PassFrom(isConnect);
    var x := PassAll(start, buf, 0);
    assert !x.s.Dead? by { AcceptedAlive(buf, isConnect); }
    assert InFront(buf, isConnect, start, 0);
    var lo, t, origin := UrlOnly(buf, isConnect, start, 0, Tail(0, 0, 0, 0), false, 0);
    if NoHost(x) {
      HostMissing(buf, isConnect, x);
    }
    if InFront(buf, isConnect, x, |buf|) {
      assert |buf| == 0;
    } else if InServer(buf, isConnect, x, lo, |buf|) {
      var n := |buf|;
      EmptyTail(buf);
      AcceptedHasHost(buf, isConnect, x, lo, Tail(n, n, n, n));
    } else {
      TailStates(buf, t, origin, x.s, |buf|);
      if origin {
        assert IsOrigin(buf, t);
      } else {
        if !HostFromTo(x, lo, t.path) {
          HostMissing(buf, isConnect, x);
        }
        AcceptedHasHost(buf, isConnect, x, lo, t);
      }
    }
  }

  /** The first pass over a URL that is accepted does not end where more has to follow. */
  lemma AcceptedEnd(buf: string, isConnect: bool)
    requires Parsed(buf, isConnect).Some? && buf != ""
    ensures var s := PassAll(PassFrom(isConnect), buf, 0).s; UrlState(s) && !TightUrl(s)
  {
    hide PassAll, Parsed, InTail, TailOk;
    var start := PassFrom(isConnect);
    var x := PassAll(start, buf, 0);
    assert !x.s.Dead? by { AcceptedAlive(buf, isConnect); }
    assert InFront(buf, isConnect, start, 0);
    var lo, t, origin := UrlOnly(buf, isConnect, start, 0, Tail(0, 0, 0, 0), false, 0);
    if InFront(buf, isConnect, x, |buf|) {
      HostMissing(buf, isConnect, x);
    } else if !InServer(buf, isConnect, x, lo, |buf|) {
      TailStates(buf, t, origin, x.s, |buf|);
    }
  }

  lemma AcceptedAlive(buf: string, isConnect: bool)
    requires Parsed(buf, isConnect).Some?
    ensures !PassAll(PassFrom(isConnect), buf, 0).s.Dead?
  {
    hide PassAll;
  }

  lemma EmptyTail(buf: string)
    ensures var n := |buf|; TailOk(buf, Tail(n, n, n, n), false, n)
  {
  }

  /** A URL is accepted if and only if it has one of the forms above. */
  lemma UrlExact(buf: string, isConnect: bool)
    ensures Parsed(buf, isConnect).Some? <==> HasForm(buf, isConnect)
  {
    hide Parsed, TailOk, Authority, SchemaOk, TailSpans, AuthSpans, PortValue;
    if Parsed(buf, isConnect).Some? {
      hide HasForm;
      Accepted(buf, isConnect);
    } else if HasForm(buf, isConnect) {
      if isConnect {
        var a, t :| IsConnect(buf, a, t);
        ConnectForm(buf, a, t);
      } else if buf == "" {
        NothingParsed();
      } else if exists t :: IsOrigin(buf, t) {
        var t :| IsOrigin(buf, t);
        OriginForm(buf, t);
      } else {
        var n, a, t :| IsAbsolute(buf, n, a, t);
        AbsoluteForm(buf, n, a, t);
      }
    }
  }

  lemma NothingParsed()
    ensures Parsed("", false) == Some(ZERO_URL)
  {
  }
}
