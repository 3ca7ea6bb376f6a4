/** Every URL that is put together as the grammar says is accepted, and cut where it was put together. */
module HttpUrlText {
  import opened HttpTypes
  import opened HttpMachine
  import opened HttpUrl

  /** Where an authority is cut: [userinfo @] host [: port], the host in brackets if it is an IPv6
      address. */
  datatype Auth = Auth(lo: nat, at: bool, user: nat, v6: bool, host: nat, hostEnd: nat, hi: nat)

  /** Where the host, or its opening bracket, starts. */
  function HostFrom(a: Auth): nat { if a.at then a.user + 1 else a.lo }

  /** Behind the host, or its closing bracket. */
  function HostTo(a: Auth): nat { if a.v6 then a.hostEnd + 1 else a.hostEnd }

  predicate V6Char(c: char) { IsNum(c) || IsHexLetter(c) || c == ':' || c == '.' }

  ghost predicate Authority(buf: string, a: Auth) {
    && a.lo <= HostFrom(a) <= a.host < a.hostEnd <= HostTo(a) <= a.hi <= |buf|
    && (if a.at then a.lo <= a.user && buf[a.user] == '@' && forall k :: a.lo <= k < a.user ==> IsUserinfoChar(buf[k])
        else a.user == a.lo)
    && (if a.v6 then
          && a.host == HostFrom(a) + 1 && buf[HostFrom(a)] == '[' && buf[a.hostEnd] == ']'
          && forall k :: a.host <= k < a.hostEnd ==> V6Char(buf[k])
        else a.host == HostFrom(a) && forall k :: a.host <= k < a.hostEnd ==> IsHostChar(buf[k]))
    && (HostTo(a) < a.hi ==>
          HostTo(a) + 1 < a.hi && buf[HostTo(a)] == ':' && forall k :: HostTo(a) < k < a.hi ==> IsNum(buf[k]))
  }

  predicate AuthChar(c: char) { IsUserinfoChar(c) || c == '[' || c == ']' }

  lemma AuthorityChars(buf: string, a: Auth, k: nat)
    requires Authority(buf, a) && a.lo <= k < a.hi
    ensures if a.at && k == a.user then buf[k] == '@' else AuthChar(buf[k])
  {
    if k < a.user {
      assert a.at;
    } else if k < a.host || k >= a.hostEnd {
    } else if a.v6 {
      assert V6Char(buf[k]);
    } else {
      assert IsHostChar(buf[k]);
    }
  }

  // ----- runs of bytes in the first pass

  /** u with n more bytes in the field f. */
  function Longer(u: Url, f: Field, n: nat): Url
    requires Total(u)
  {
    Put(u, f, u.data[f].off, u.data[f].len + n)
  }

  lemma LongerTwice(u: Url, f: Field, n: nat)
    requires Total(u)
    ensures Total(Longer(u, f, 1)) && Longer(Longer(u, f, 1), f, n) == Longer(u, f, n + 1)
    ensures f in u.fields ==> Longer(u, f, 0) == u
  {
    assert u.data[f := Span(u.data[f].off, u.data[f].len + 1)][f := Span(u.data[f].off, u.data[f].len + n + 1)]
        == u.data[f := Span(u.data[f].off, u.data[f].len + n + 1)];
  }

  lemma PutLonger(u: Url, f: Field, off: nat, n: nat)
    requires Total(u)
    ensures Total(Put(u, f, off, 1)) && Longer(Put(u, f, off, 1), f, n) == Put(u, f, off, n + 1)
  {
    assert u.data[f := Span(off, 1)][f := Span(off, n + 1)] == u.data[f := Span(off, n + 1)];
  }

  lemma PassStep(x: Pass, buf: string, i: nat)
    requires Total(x.u) && i < |buf| && !x.s.Dead?
    ensures PassAll(x, buf, i) == PassAll(Passed(x, buf[i], i), buf, i + 1)
  {
    hide Passed;
  }

  /** A byte that leads to a delimiter state. */
  lemma Skip(x: Pass, buf: string, i: nat, t: State)
    requires Total(x.u) && i < |buf| && !x.s.Dead? && ParseUrlChar(x.s, buf[i]) == t && !t.Dead? && FieldOf(t) == {}
    ensures PassAll(x, buf, i) == PassAll(x.(s := t), buf, i + 1)
  {
    hide ParseUrlChar, PassAll;
    PassStep(x, buf, i);
  }

  predicate InField(t: State, f: Field) { !t.Dead? && FieldOf(t) == {f} && TheField(t) == f }

  /** A byte of a field that is open. */
  lemma Extend(x: Pass, buf: string, i: nat, t: State, f: Field)
    requires Total(x.u) && i < |buf| && !x.s.Dead? && ParseUrlChar(x.s, buf[i]) == t && InField(t, f) && x.last == {f}
    ensures PassAll(x, buf, i) == PassAll(Pass(Longer(x.u, f, 1), t, {f}, x.at || t.ReqServerWithAt?), buf, i + 1)
  {
    hide ParseUrlChar, PassAll, FieldOf, TheField;
    PassStep(x, buf, i);
  }

  /** The first byte of a field. */
  lemma Enter(x: Pass, buf: string, i: nat, t: State, f: Field)
    requires Total(x.u) && i < |buf| && !x.s.Dead? && ParseUrlChar(x.s, buf[i]) == t && InField(t, f) && x.last != {f}
    ensures PassAll(x, buf, i) == PassAll(Pass(Put(x.u, f, i, 1), t, {f}, x.at || t.ReqServerWithAt?), buf, i + 1)
  {
    hide ParseUrlChar, PassAll, FieldOf, TheField;
    PassStep(x, buf, i);
  }

  /** n bytes that lead to t and keep it. */
  ghost predicate KeepsTo(buf: string, s: State, i: nat, n: nat, t: State) {
    && i + n <= |buf| && (n > 0 ==> ParseUrlChar(s, buf[i]) == t)
    && forall k :: i < k < i + n ==> ParseUrlChar(t, buf[k]) == t
  }

  lemma {:induction false} ExtendBy(x: Pass, buf: string, i: nat, n: nat, t: State, f: Field)
    requires Total(x.u) && !x.s.Dead? && KeepsTo(buf, x.s, i, n, t) && InField(t, f) && !t.ReqServerWithAt?
    requires x.last == {f} && f in x.u.fields
    ensures PassAll(x, buf, i) == PassAll(Pass(Longer(x.u, f, n), if n == 0 then x.s else t, {f}, x.at), buf, i + n)
    decreases n
  {
    hide ParseUrlChar, PassAll, FieldOf, TheField, Longer;
    LongerTwice(x.u, f, 0);
    if n > 0 {
      Extend(x, buf, i, t, f);
      LongerTwice(x.u, f, n - 1);
      LongerFields(x.u, f, 1);
      ExtendBy(Pass(Longer(x.u, f, 1), t, {f}, x.at), buf, i + 1, n - 1, t, f);
    }
  }

  lemma LongerFields(u: Url, f: Field, n: nat)
    requires Total(u)
    ensures f in Longer(u, f, n).fields
  {
  }

  /** A whole field of n bytes. */
  lemma FieldOfLength(x: Pass, buf: string, i: nat, n: nat, t: State, f: Field)
    requires Total(x.u) && !x.s.Dead? && n > 0 && KeepsTo(buf, x.s, i, n, t) && InField(t, f) && !t.ReqServerWithAt?
    requires x.last != {f}
    ensures PassAll(x, buf, i) == PassAll(Pass(Put(x.u, f, i, n), t, {f}, x.at), buf, i + n)
  {
    hide ParseUrlChar, PassAll, FieldOf, TheField;
    Enter(x, buf, i, t, f);
    PutLonger(x.u, f, i, n - 1);
    assert KeepsTo(buf, t, i + 1, n - 1, t);
    ExtendBy(Pass(Put(x.u, f, i, 1), t, {f}, x.at), buf, i + 1, n - 1, t, f);
  }

  // ----- the first pass over an authority

  lemma ServerChar(s: State, c: char)
    requires s.ReqServerStart? || s.ReqServer? || s.ReqServerWithAt?
    ensures AuthChar(c) ==> ParseUrlChar(s, c) == ReqServer
    ensures c == '@' && !s.ReqServerWithAt? ==> ParseUrlChar(s, c) == ReqServerWithAt
  {
  }

  lemma ServerRun(buf: string, a: Auth, s: State, i: nat, n: nat)
    requires Authority(buf, a) && a.lo <= i && i + n <= a.hi
    requires (s.ReqServerStart? || s.ReqServer? || s.ReqServerWithAt?)
    requires a.at ==> i + n <= a.user || a.user < i
    ensures KeepsTo(buf, s, i, n, ReqServer)
  {
    hide ParseUrlChar, AuthChar;
    forall k | i <= k < i + n
      ensures AuthChar(buf[k])
    {
      AuthorityChars(buf, a, k);
    }
    hide Authority;
    if n > 0 {
      ServerChar(s, buf[i]);
    }
    forall k | i < k < i + n
      ensures ParseUrlChar(ReqServer, buf[k]) == ReqServer
    {
      ServerChar(ReqServer, buf[k]);
    }
  }

  lemma PassAuthority(x: Pass, buf: string, a: Auth)
    requires Total(x.u) && x.s.ReqServerStart? && x.last != {Host} && Authority(buf, a)
    ensures PassAll(x, buf, a.lo) == PassAll(Pass(Put(x.u, Host, a.lo, a.hi - a.lo), ReqServer, {Host}, x.at || a.at),
                                             buf, a.hi)
  {
    hide ParseUrlChar, PassAll, KeepsTo, AuthChar;
    if a.at {
      PassToAt(x, buf, a);
      var n := a.user + 1 - a.lo;
      var y := Pass(Put(x.u, Host, a.lo, n), ReqServerWithAt, {Host}, true);
      ServerRun(buf, a, ReqServerWithAt, a.user + 1, a.hi - a.user - 1);
      ExtendBy(y, buf, a.user + 1, a.hi - a.user - 1, ReqServer, Host);
      assert Longer(y.u, Host, a.hi - a.user - 1) == Put(x.u, Host, a.lo, a.hi - a.lo);
    } else {
      ServerRun(buf, a, ReqServerStart, a.lo, a.hi - a.lo);
      FieldOfLength(x, buf, a.lo, a.hi - a.lo, ReqServer, Host);
    }
  }

  /** Up to and including the '@'. */
  lemma PassToAt(x: Pass, buf: string, a: Auth)
    requires Total(x.u) && x.s.ReqServerStart? && x.last != {Host} && Authority(buf, a) && a.at
    ensures PassAll(x, buf, a.lo) ==
            PassAll(Pass(Put(x.u, Host, a.lo, a.user + 1 - a.lo), ReqServerWithAt, {Host}, true), buf, a.user + 1)
  {
    hide ParseUrlChar, PassAll, KeepsTo, AuthChar;
    var n := a.user - a.lo;
    if n == 0 {
      ServerChar(ReqServerStart, buf[a.lo]);
      Enter(x, buf, a.lo, ReqServerWithAt, Host);
    } else {
      ServerRun(buf, a, ReqServerStart, a.lo, n);
      FieldOfLength(x, buf, a.lo, n, ReqServer, Host);
      ServerChar(ReqServer, buf[a.user]);
      var y := Pass(Put(x.u, Host, a.lo, n), ReqServer, {Host}, x.at);
      Extend(y, buf, a.user, ReqServerWithAt, Host);
      assert Longer(y.u, Host, 1) == Put(x.u, Host, a.lo, n + 1);
    }
  }

  // ----- path, query and fragment

  /** Where the rest of a URL is cut: the path, then from query on '?' and the query, then from
      fragment on one '#' or more and from text on the fragment. */
  datatype Tail = Tail(path: nat, query: nat, fragment: nat, text: nat)

  predicate QueryChar(c: char) { IsUrlChar(c) || c == '?' }

  /** Up to position n, this is so. */
  ghost predicate TailOk(buf: string, t: Tail, origin: bool, n: nat) {
    && t.path <= t.query <= t.fragment <= t.text <= n <= |buf|
    && (t.path < t.query ==> buf[t.path] == '/' || (origin && buf[t.path] == '*'))
    && (forall k :: t.path <= k < t.query ==> IsUrlChar(buf[k]))
    && (t.query < t.fragment ==> buf[t.query] == '?')
    && (forall k :: t.query < k < t.fragment ==> QueryChar(buf[k]))
    && (t.fragment < n ==> t.path < t.fragment < t.text)
    && (forall k :: t.fragment <= k < t.text ==> buf[k] == '#')
    && (t.text < n ==> buf[t.text] != '#')
    && (forall k :: t.text <= k < n ==> QueryChar(buf[k]) || buf[k] == '#')
  }

  /** The spans of path, query and fragment; an empty one is not set. */
  function TailSpans(u: Url, t: Tail, n: nat): Url
    requires t.path <= t.query <= t.fragment <= t.text <= n
  {
    var p := if t.path < t.query then Put(u, Path, t.path, t.query - t.path) else u;
    var q := if t.query + 1 < t.fragment then Put(p, Query, t.query + 1, t.fragment - t.query - 1) else p;
    if t.text < n then Put(q, Fragment, t.text, n - t.text) else q
  }

  lemma TailChars(s: State, c: char)
    ensures IsUrlChar(c) ==> ParseUrlChar(ReqPath, c) == ReqPath
    ensures QueryChar(c) ==> ParseUrlChar(ReqQueryStart, c) == ReqQuery && ParseUrlChar(ReqQuery, c) == ReqQuery
    ensures QueryChar(c) ==> ParseUrlChar(ReqFragmentStart, c) == ReqFragment
    ensures QueryChar(c) || c == '#' ==> ParseUrlChar(ReqFragment, c) == ReqFragment
    ensures c == '/' ==> ParseUrlChar(ReqServer, c) == ReqPath && ParseUrlChar(ReqSpacesBeforeUrl, c) == ReqPath
    ensures c == '*' ==> ParseUrlChar(ReqSpacesBeforeUrl, c) == ReqPath
    ensures c == '?' ==> ParseUrlChar(ReqServer, c) == ReqQueryStart && ParseUrlChar(ReqPath, c) == ReqQueryStart
    ensures c == '#' ==>
              && ParseUrlChar(ReqPath, c) == ReqFragmentStart && ParseUrlChar(ReqQueryStart, c) == ReqFragmentStart
              && ParseUrlChar(ReqQuery, c) == ReqFragmentStart && ParseUrlChar(ReqFragmentStart, c) == ReqFragmentStart
  {
  }

  lemma RunTo(buf: string, s: State, i: nat, n: nat, t: State)
    requires i + n <= |buf| && (n > 0 ==> ParseUrlChar(s, buf[i]) == t)
    requires forall k :: i < k < i + n ==> (t.ReqPath? && IsUrlChar(buf[k])) || (t.ReqQuery? && QueryChar(buf[k]))
                                           || (t.ReqFragment? && (QueryChar(buf[k]) || buf[k] == '#'))
    ensures KeepsTo(buf, s, i, n, t)
  {
    hide ParseUrlChar, IsUrlChar, QueryChar;
    forall k | i < k < i + n
      ensures ParseUrlChar(t, buf[k]) == t
    {
      TailChars(t, buf[k]);
    }
  }

  function AfterPath(x: Pass, t: Tail): (y: Pass)
    requires Total(x.u) && t.path <= t.query
    ensures Total(y.u)
  {
    if t.path < t.query then Pass(Put(x.u, Path, t.path, t.query - t.path), ReqPath, {Path}, x.at) else x
  }

  function AfterQuery(x: Pass, t: Tail): (y: Pass)
    requires Total(x.u) && t.query <= t.fragment
    ensures Total(y.u)
  {
    if t.query == t.fragment then x
    else if t.query + 1 == t.fragment then x.(s := ReqQueryStart)
    else Pass(Put(x.u, Query, t.query + 1, t.fragment - t.query - 1), ReqQuery, {Query}, x.at)
  }

  function AfterFragment(x: Pass, t: Tail, n: nat): (y: Pass)
    requires Total(x.u) && t.fragment <= t.text <= n
    ensures Total(y.u)
  {
    if t.fragment == n then x
    else if t.text == n then x.(s := ReqFragmentStart)
    else Pass(Put(x.u, Fragment, t.text, n - t.text), ReqFragment, {Fragment}, x.at)
  }

  lemma PassPath(x: Pass, buf: string, t: Tail, origin: bool)
    requires Total(x.u) && TailOk(buf, t, origin, |buf|) && x.last != {Path} && (origin ==> t.path < t.query)
    requires x.s == if origin then ReqSpacesBeforeUrl else ReqServer
    ensures PassAll(x, buf, t.path) == PassAll(AfterPath(x, t), buf, t.query)
  {
    hide ParseUrlChar, PassAll, IsUrlChar, QueryChar, KeepsTo;
    if t.path < t.query {
      TailChars(x.s, buf[t.path]);
      RunTo(buf, x.s, t.path, t.query - t.path, ReqPath);
      FieldOfLength(x, buf, t.path, t.query - t.path, ReqPath, Path);
    }
  }

  lemma PassQuery(x: Pass, buf: string, t: Tail, origin: bool)
    requires Total(x.u) && TailOk(buf, t, origin, |buf|) && x.last != {Query} && (x.s.ReqServer? || x.s.ReqPath?)
    ensures PassAll(x, buf, t.query) == PassAll(AfterQuery(x, t), buf, t.fragment)
  {
    hide ParseUrlChar, PassAll, IsUrlChar, QueryChar, KeepsTo;
    if t.query < t.fragment {
      TailChars(x.s, buf[t.query]);
      Skip(x, buf, t.query, ReqQueryStart);
      var n := t.fragment - t.query - 1;
      if n > 0 {
        TailChars(x.s, buf[t.query + 1]);
        RunTo(buf, ReqQueryStart, t.query + 1, n, ReqQuery);
        FieldOfLength(x.(s := ReqQueryStart), buf, t.query + 1, n, ReqQuery, Query);
      }
    }
  }

  lemma PassFragment(x: Pass, buf: string, t: Tail, origin: bool)
    requires Total(x.u) && TailOk(buf, t, origin, |buf|) && x.last != {Fragment} && !x.s.Dead?
    requires t.fragment < |buf| ==> x.s.ReqPath? || x.s.ReqQueryStart? || x.s.ReqQuery?
    ensures PassAll(x, buf, t.fragment) == AfterFragment(x, t, |buf|)
  {
    hide ParseUrlChar, PassAll, IsUrlChar, QueryChar, KeepsTo;
    if t.fragment < |buf| {
      TailChars(x.s, buf[t.fragment]);
      Skip(x, buf, t.fragment, ReqFragmentStart);
      SkipHashes(x.(s := ReqFragmentStart), buf, t.fragment + 1, t.text);
      var n := |buf| - t.text;
      if n > 0 {
        TailChars(x.s, buf[t.text]);
        RunTo(buf, ReqFragmentStart, t.text, n, ReqFragment);
        FieldOfLength(x.(s := ReqFragmentStart), buf, t.text, n, ReqFragment, Fragment);
      }
    }
    PassEnd(AfterFragment(x, t, |buf|), buf);
  }

  /** More than one '#' is as good as one. */
  lemma {:induction false} SkipHashes(x: Pass, buf: string, i: nat, j: nat)
    requires Total(x.u) && i <= j <= |buf| && x.s.ReqFragmentStart? && forall k :: i <= k < j ==> buf[k] == '#'
    ensures PassAll(x, buf, i) == PassAll(x, buf, j)
    decreases j - i
  {
    hide ParseUrlChar, PassAll;
    if i < j {
      TailChars(x.s, buf[i]);
      Skip(x, buf, i, ReqFragmentStart);
      SkipHashes(x, buf, i + 1, j);
    }
  }

  /** The first pass over path, query and fragment. */
  lemma PassTail(x: Pass, buf: string, t: Tail, origin: bool)
    requires Total(x.u) && TailOk(buf, t, origin, |buf|) && (origin ==> t.path < t.query)
    requires x.s == (if origin then ReqSpacesBeforeUrl else ReqServer) && (x.last == {} || x.last == {Host})
    ensures var y := PassAll(x, buf, t.path); !y.s.Dead? && y.u == TailSpans(x.u, t, |buf|) && y.at == x.at
  {
    hide PassAll, IsUrlChar, QueryChar, Put;
    PassPath(x, buf, t, origin);
    PassQuery(AfterPath(x, t), buf, t, origin);
    PassFragment(AfterQuery(AfterPath(x, t), t), buf, t, origin);
  }

  // ----- the host parser over an authority

  /** The fields after n more bytes in the same state of the host parser. */
  function HostLonger(u: Url, s: HostState, n: nat): (v: Url)
    requires Total(u)
    ensures Total(v)
  {
    if s.InHost? || s.HostV6? then u.(data := u.data[Host := Span(u.data[Host].off, u.data[Host].len + n)])
    else if s.HostPort? then Longer(u, Port, n)
    else Longer(u, Userinfo, n)
  }

  predicate Running(u: Url, s: HostState) {
    s.InHost? || s.HostV6? || (s.HostPort? && Port in u.fields) || (s.InUserinfo? && Userinfo in u.fields)
  }

  lemma HostLongerStep(u: Url, s: HostState, i: nat, n: nat)
    requires Total(u) && Running(u, s)
    ensures HostRecord(u, s, s, i) == HostLonger(u, s, 1) && Running(HostLonger(u, s, 1), s)
    ensures HostLonger(HostLonger(u, s, 1), s, n) == HostLonger(u, s, n + 1) && HostLonger(u, s, 0) == u
  {
    LongerTwice(u, Port, n);
    LongerTwice(u, Userinfo, n);
    var d := u.data[Host];
    assert u.data[Host := Span(d.off, d.len + 1)][Host := Span(d.off, d.len + 1 + n)]
           == u.data[Host := Span(d.off, d.len + 1 + n)];
    assert u.data[Host := Span(d.off, d.len)] == u.data;
  }

  lemma {:induction false} HostRun(u: Url, s: HostState, buf: string, i: nat, n: nat, end: nat)
    requires Total(u) && i + n <= end <= |buf| && Running(u, s)
    requires forall k :: i <= k < i + n ==> ParseHostChar(s, buf[k]) == s
    ensures HostAll(u, s, buf, i, end) == HostAll(HostLonger(u, s, n), s, buf, i + n, end)
    decreases n
  {
    hide ParseHostChar, HostLonger, HostAll, HostRecord;
    HostLongerStep(u, s, i, if n > 0 then n - 1 else 0);
    if n > 0 {
      HostAllStep(u, s, buf, i, end);
      HostRun(HostLonger(u, s, 1), s, buf, i + 1, n - 1, end);
    }
  }

  /** The fields with n bytes at i for the field of a state of the host parser. */
  function HostSet(u: Url, t: HostState, i: nat, n: nat): (v: Url)
    requires Total(u)
    ensures Total(v)
  {
    if t.InHost? || t.HostV6? then u.(data := u.data[Host := Span(i, n)])
    else if t.HostPort? then Put(u, Port, i, n)
    else Put(u, Userinfo, i, n)
  }

  predicate HasField(t: HostState) { t.InHost? || t.HostV6? || t.HostPort? || t.InUserinfo? }

  lemma HostSetFirst(u: Url, s: HostState, t: HostState, i: nat, n: nat)
    requires Total(u) && s != t && HasField(t) && (t.InHost? || t.HostV6? ==> u.data[Host].len == 0)
    ensures HostRecord(u, s, t, i) == HostSet(u, t, i, 1) && Running(HostSet(u, t, i, 1), t)
    ensures HostLonger(HostSet(u, t, i, 1), t, n) == HostSet(u, t, i, n + 1)
  {
    PutLonger(u, Port, i, n);
    PutLonger(u, Userinfo, i, n);
    assert u.data[Host := Span(i, 1)][Host := Span(i, 1 + n)] == u.data[Host := Span(i, n + 1)];
  }

  /** A whole field of n bytes. */
  lemma HostField(u: Url, s: HostState, t: HostState, buf: string, i: nat, n: nat, end: nat)
    requires Total(u) && 0 < n && i + n <= end <= |buf| && !s.HostDead? && s != t && HasField(t)
    requires t.InHost? || t.HostV6? ==> u.data[Host].len == 0
    requires ParseHostChar(s, buf[i]) == t && forall k :: i < k < i + n ==> ParseHostChar(t, buf[k]) == t
    ensures HostAll(u, s, buf, i, end) == HostAll(HostSet(u, t, i, n), t, buf, i + n, end)
  {
    hide ParseHostChar, HostLonger, HostAll, HostRecord, HostSet;
    HostSetFirst(u, s, t, i, n - 1);
    HostAllStep(u, s, buf, i, end);
    HostRun(HostSet(u, t, i, 1), t, buf, i + 1, n - 1, end);
  }

  /** A byte that belongs to no field. */
  lemma HostSkip(u: Url, s: HostState, t: HostState, buf: string, i: nat, end: nat)
    requires Total(u) && i < end <= |buf| && !s.HostDead? && ParseHostChar(s, buf[i]) == t && !t.HostDead?
    requires !HasField(t)
    ensures HostAll(u, s, buf, i, end) == HostAll(u, t, buf, i + 1, end)
  {
    hide ParseHostChar, HostAll;
    HostAllStep(u, s, buf, i, end);
  }

  lemma HostChars(c: char)
    ensures IsUserinfoChar(c) ==>
              ParseHostChar(UserinfoStart, c) == InUserinfo && ParseHostChar(InUserinfo, c) == InUserinfo
    ensures c == '@' ==> ParseHostChar(UserinfoStart, c) == HostStart && ParseHostChar(InUserinfo, c) == HostStart
    ensures IsHostChar(c) ==> ParseHostChar(HostStart, c) == InHost && ParseHostChar(InHost, c) == InHost
    ensures c == '[' ==> ParseHostChar(HostStart, c) == HostV6Start
    ensures V6Char(c) ==> ParseHostChar(HostV6Start, c) == HostV6 && ParseHostChar(HostV6, c) == HostV6
    ensures c == ']' ==> ParseHostChar(HostV6, c) == HostV6End
    ensures c == ':' ==> ParseHostChar(InHost, c) == HostPortStart && ParseHostChar(HostV6End, c) == HostPortStart
    ensures IsNum(c) ==> ParseHostChar(HostPortStart, c) == HostPort && ParseHostChar(HostPort, c) == HostPort
  {
  }

  function UserSet(u: Url, a: Auth): (v: Url)
    requires Total(u) && a.lo <= a.user
    ensures Total(v)
  {
    if a.at && a.lo < a.user then Put(u, Userinfo, a.lo, a.user - a.lo) else u
  }

  lemma HostUser(u: Url, buf: string, a: Auth)
    requires Total(u) && Authority(buf, a) && a.at
    ensures HostAll(u, UserinfoStart, buf, a.lo, a.hi) == HostAll(UserSet(u, a), HostStart, buf, a.user + 1, a.hi)
  {
    hide ParseHostChar, HostAll, IsUserinfoChar, IsHostChar, V6Char;
    HostChars(buf[a.user]);
    if a.lo == a.user {
      HostSkip(u, UserinfoStart, HostStart, buf, a.user, a.hi);
    } else {
      forall k | a.lo <= k < a.user
        ensures ParseHostChar(UserinfoStart, buf[k]) == InUserinfo && ParseHostChar(InUserinfo, buf[k]) == InUserinfo
      {
        HostChars(buf[k]);
      }
      HostField(u, UserinfoStart, InUserinfo, buf, a.lo, a.user - a.lo, a.hi);
      HostSkip(UserSet(u, a), InUserinfo, HostStart, buf, a.user, a.hi);
    }
  }

  lemma HostName(u: Url, buf: string, a: Auth)
    requires Total(u) && Authority(buf, a) && u.data[Host].len == 0
    ensures HostAll(u, HostStart, buf, HostFrom(a), a.hi) ==
            HostAll(u.(data := u.data[Host := Span(a.host, a.hostEnd - a.host)]), if a.v6 then HostV6End else InHost,
                    buf, HostTo(a), a.hi)
  {
    hide ParseHostChar, HostAll, IsUserinfoChar, IsHostChar, V6Char;
    var n := a.hostEnd - a.host;
    forall k | a.host <= k < a.hostEnd
      ensures if a.v6 then ParseHostChar(HostV6Start, buf[k]) == HostV6 && ParseHostChar(HostV6, buf[k]) == HostV6
              else ParseHostChar(HostStart, buf[k]) == InHost && ParseHostChar(InHost, buf[k]) == InHost
    {
      HostChars(buf[k]);
    }
    if a.v6 {
      HostChars(buf[HostFrom(a)]);
      HostSkip(u, HostStart, HostV6Start, buf, HostFrom(a), a.hi);
      HostField(u, HostV6Start, HostV6, buf, a.host, n, a.hi);
      HostChars(buf[a.hostEnd]);
      HostSkip(HostSet(u, HostV6, a.host, n), HostV6, HostV6End, buf, a.hostEnd, a.hi);
    } else {
      HostField(u, HostStart, InHost, buf, a.host, n, a.hi);
    }
  }

  function PortSet(u: Url, a: Auth): (v: Url)
    requires Total(u)
    ensures Total(v)
  {
    if HostTo(a) + 1 < a.hi then Put(u, Port, HostTo(a) + 1, a.hi - HostTo(a) - 1) else u
  }

  lemma HostPortPart(u: Url, buf: string, a: Auth)
    requires Total(u) && Authority(buf, a)
    ensures var s := if a.v6 then HostV6End else InHost;
            HostAll(u, s, buf, HostTo(a), a.hi) == (PortSet(u, a), if HostTo(a) < a.hi then HostPort else s)
  {
    hide ParseHostChar, HostAll, IsUserinfoChar, IsHostChar, V6Char;
    var s, n := if a.v6 then HostV6End else InHost, a.hi - HostTo(a) - 1;
    if HostTo(a) < a.hi {
      HostChars(buf[HostTo(a)]);
      HostSkip(u, s, HostPortStart, buf, HostTo(a), a.hi);
      forall k | HostTo(a) < k < a.hi
        ensures ParseHostChar(HostPortStart, buf[k]) == HostPort && ParseHostChar(HostPort, buf[k]) == HostPort
      {
        HostChars(buf[k]);
      }
      HostField(u, HostPortStart, HostPort, buf, HostTo(a) + 1, n, a.hi);
    }
    HostAllEnd(PortSet(u, a), if HostTo(a) < a.hi then HostPort else s, buf, a.hi);
  }

  /** The spans in an authority: user information, host and port. */
  function AuthSpans(u: Url, a: Auth): (v: Url)
    requires Total(u) && a.lo <= a.user && a.host <= a.hostEnd
    ensures Total(v)
  {
    var w := UserSet(u.(data := u.data[Host := Span(a.lo, 0)]), a);
    PortSet(w.(data := w.data[Host := Span(a.host, a.hostEnd - a.host)]), a)
  }

  lemma HostOfAuthority(u: Url, buf: string, a: Auth)
    requires Total(u) && Authority(buf, a) && u.data[Host] == Span(a.lo, a.hi - a.lo)
    ensures HostParsed(buf, u, a.at) == Some(AuthSpans(u, a))
  {
    hide ParseHostChar, HostAll, Authority, PortSet;
    assert a.lo <= a.user && a.host <= a.hostEnd && a.lo <= a.hi <= |buf| && (!a.at ==> HostFrom(a) == a.lo) by {
      AuthorityShape(buf, a);
    }
    var v := u.(data := u.data[Host := Span(a.lo, 0)]);
    if a.at {
      HostUser(v, buf, a);
    }
    var w := UserSet(v, a);
    HostName(w, buf, a);
    HostPortPart(w.(data := w.data[Host := Span(a.host, a.hostEnd - a.host)]), buf, a);
  }

  lemma AuthorityShape(buf: string, a: Auth)
    requires Authority(buf, a)
    ensures a.lo <= a.user && a.host <= a.hostEnd && a.lo < a.hi <= |buf| && HostTo(a) <= a.hi
    ensures (HostTo(a) < a.hi ==> HostTo(a) + 1 < a.hi) && (!a.at ==> a.user == a.lo)
  {
  }

  // ----- the three forms of a URL

  /** A URL that is only a path, with query and fragment. */
  lemma OriginForm(buf: string, t: Tail)
    requires TailOk(buf, t, true, |buf|) && t.path == 0 < t.query
    ensures t.path <= t.query <= t.fragment <= t.text <= |buf|
    ensures Parsed(buf, false) == Some(TailSpans(ZERO_URL, t, |buf|))
  {
    hide PassAll, TailOk;
    TailShape(buf, t, true);
    PassTail(PassFrom(false), buf, t, true);
    TailFields(ZERO_URL, t, |buf|);
  }

  lemma TailShape(buf: string, t: Tail, origin: bool)
    requires TailOk(buf, t, origin, |buf|)
    ensures t.path <= t.query <= t.fragment <= t.text <= |buf|
    ensures !origin && t.path < |buf| ==> !IsNum(buf[t.path])
  {
  }

  lemma TailFields(u: Url, t: Tail, n: nat)
    requires Total(u) && t.path <= t.query <= t.fragment <= t.text <= n
    ensures var v := TailSpans(u, t, n);
            && Total(v) && v.port == u.port
            && forall f <- {Schema, Userinfo, Host, Port} ::
                 v.data[f] == u.data[f] && (f in v.fields <==> f in u.fields)
  {
  }

  /** The value of the port, 0 if there is none. */
  ghost function PortValue(buf: string, a: Auth): nat
    requires Authority(buf, a)
  {
    if HostTo(a) < a.hi then StrToUl(0, buf[HostTo(a) + 1..a.hi]) else 0
  }

  lemma PortOfAuthority(buf: string, a: Auth, u: Url)
    requires Authority(buf, a) && Total(u) && Port !in u.fields && (a.hi < |buf| ==> !IsNum(buf[a.hi]))
    ensures a.lo <= a.user
    ensures WithPort(buf, AuthSpans(u, a)) ==
            if HostTo(a) == a.hi then Some(AuthSpans(u, a))
            else if PortValue(buf, a) <= 0xFFFF then Some(AuthSpans(u, a).(port := PortValue(buf, a))) else None
  {
    if HostTo(a) < a.hi {
      var digits, rest := buf[HostTo(a) + 1..a.hi], buf[a.hi..];
      assert buf[HostTo(a) + 1..] == digits + rest;
      StrToUlDigits(0, digits, rest);
      StrToUlDigits(0, digits, "");
      assert digits + "" == digits;
    }
  }

  /** The bytes of a schema, and what follows it. */
  ghost predicate SchemaOk(buf: string, n: nat) {
    && 0 < n && n + 3 <= |buf| && (forall k :: 0 <= k < n ==> IsAlpha(buf[k]))
    && buf[n] == ':' && buf[n + 1] == '/' && buf[n + 2] == '/'
  }

  lemma PassSchema(buf: string, n: nat)
    requires SchemaOk(buf, n)
    ensures PassAll(PassFrom(false), buf, 0)
         == PassAll(Pass(Put(ZERO_URL, Schema, 0, n), ReqServerStart, {Schema}, false), buf, n + 3)
  {
    hide PassAll;
    var x := PassFrom(false);
    assert KeepsTo(buf, ReqSpacesBeforeUrl, 0, n, ReqSchema);
    hide KeepsTo;
    FieldOfLength(x, buf, 0, n, ReqSchema, Schema);
    var y := Pass(Put(ZERO_URL, Schema, 0, n), ReqSchema, {Schema}, false);
    Skip(y, buf, n, ReqSchemaSlash);
    Skip(y.(s := ReqSchemaSlash), buf, n + 1, ReqSchemaSlashSlash);
    Skip(y.(s := ReqSchemaSlashSlash), buf, n + 2, ReqServerStart);
  }

  /** An absolute URL: it is accepted exactly if its port fits, and cut as it was put together. */
  lemma AbsoluteForm(buf: string, n: nat, a: Auth, t: Tail)
    requires SchemaOk(buf, n) && Authority(buf, a) && TailOk(buf, t, false, |buf|) && a.lo == n + 3 && a.hi == t.path
    ensures a.lo <= a.user && t.path <= t.query <= t.fragment <= t.text <= |buf|
    ensures var first := TailSpans(Put(Put(ZERO_URL, Schema, 0, n), Host, a.lo, a.hi - a.lo), t, |buf|);
            Total(first) && Parsed(buf, false) ==
            if PortValue(buf, a) > 0xFFFF then None else Some(AuthSpans(first, a).(port := PortValue(buf, a)))
  {
    hide PassAll, HostParsed, Authority, TailOk, SchemaOk, WithPort, AuthSpans;
    AuthorityShape(buf, a);
    TailShape(buf, t, false);
    PassSchema(buf, n);
    var x := Pass(Put(ZERO_URL, Schema, 0, n), ReqServerStart, {Schema}, false);
    PassAuthority(x, buf, a);
    var y := Pass(Put(x.u, Host, a.lo, a.hi - a.lo), ReqServer, {Host}, a.at);
    PassTail(y, buf, t, false);
    TailFields(y.u, t, |buf|);
    var first := TailSpans(y.u, t, |buf|);
    HostOfAuthority(first, buf, a);
    PortOfAuthority(buf, a, first);
    NoPort(buf, first, a);
  }

  /** Without a port in it, the port is 0, as it was. */
  lemma NoPort(buf: string, u: Url, a: Auth)
    requires Authority(buf, a) && Total(u) && u.port == 0
    ensures a.lo <= a.user && AuthSpans(u, a).port == 0
    ensures HostTo(a) == a.hi ==> PortValue(buf, a) == 0 && AuthSpans(u, a).(port := 0) == AuthSpans(u, a)
  {
  }

  /** Nothing behind the authority but, perhaps, delimiters. */
  predicate BareTail(t: Tail, n: nat) { t.path == t.query && t.fragment <= t.query + 1 && t.text == n }

  /** The target of CONNECT: a host and a port.  It is accepted exactly if there is no user information,
      there is a port that fits, and nothing follows but delimiters, which are ignored. */
  lemma ConnectForm(buf: string, a: Auth, t: Tail)
    requires Authority(buf, a) && TailOk(buf, t, false, |buf|) && a.lo == 0 && a.hi == t.path
    ensures var first := Put(ZERO_URL, Host, 0, a.hi);
            Total(first) && a.lo <= a.user && Parsed(buf, true) ==
            if a.user > 0 || HostTo(a) == a.hi || !BareTail(t, |buf|) || PortValue(buf, a) > 0xFFFF then None
            else Some(AuthSpans(first, a).(port := PortValue(buf, a)))
  {
    hide PassAll, HostParsed, Authority, TailOk, WithPort;
    AuthorityShape(buf, a);
    TailShape(buf, t, false);
    var x := PassFrom(true);
    PassAuthority(x, buf, a);
    var y := Pass(Put(ZERO_URL, Host, 0, a.hi), ReqServer, {Host}, a.at);
    PassTail(y, buf, t, false);
    TailFields(y.u, t, |buf|);
    var first := TailSpans(y.u, t, |buf|);
    HostOfAuthority(first, buf, a);
    PortOfAuthority(buf, a, first);
    ConnectFields(buf, a, t);
  }

  lemma ConnectFields(buf: string, a: Auth, t: Tail)
    requires Authority(buf, a) && TailOk(buf, t, false, |buf|) && a.lo == 0
    ensures a.lo <= a.user && t.path <= t.query <= t.fragment <= t.text <= |buf|
    ensures var y := Put(ZERO_URL, Host, 0, a.hi);
            var first := TailSpans(y, t, |buf|);
            && Total(first) && (BareTail(t, |buf|) ==> first == y)
            && (AuthSpans(first, a).fields == {Host, Port} <==>
                  a.user == 0 && HostTo(a) < a.hi && BareTail(t, |buf|))
  {
    hide Authority, TailOk;
    AuthorityShape(buf, a);
    TailShape(buf, t, false);
    ZeroTotal();
    var first := TailSpans(Put(ZERO_URL, Host, 0, a.hi), t, |buf|);
    var fields := AuthSpans(first, a).fields;
    assert Path in fields <==> t.path < t.query;
    assert Query in fields <==> t.query + 1 < t.fragment;
    assert Fragment in fields <==> t.text < |buf|;
    assert Userinfo in fields <==> a.at && 0 < a.user;
    assert Port in fields <==> HostTo(a) + 1 < a.hi;
    assert Schema !in fields && Host in fields;
    if a.user == 0 && HostTo(a) < a.hi && BareTail(t, |buf|) {
      forall f: Field
        ensures f in fields <==> f in {Host, Port}
      {
      }
    }
  }

  lemma PassEnd(x: Pass, buf: string)
    requires Total(x.u)
    ensures PassAll(x, buf, |buf|) == x
  {
  }
}
