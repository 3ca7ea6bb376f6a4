/** http_parser_parse_url: cutting a URL into its components. */
module HttpUrl {
  import opened HttpTypes
  import opened HttpMachine
  import opened HttpBody

  datatype Field = Schema | Userinfo | Host | Port | Path | Query | Fragment

  datatype Span = Span(off: nat, len: nat)

  /** struct http_parser_url; `data` has a span for every field, meaningful if the field is in `set`. */
  datatype Url = Url(fields: set<Field>, data: map<Field, Span>, port: nat)

  const NO_SPAN := Span(0, 0)

  const ZERO_URL := Url({}, map[Schema := NO_SPAN, Userinfo := NO_SPAN, Host := NO_SPAN, Port := NO_SPAN,
                                Path := NO_SPAN, Query := NO_SPAN, Fragment := NO_SPAN], 0)

  datatype Option<T> = None | Some(value: T)

  datatype HostState = HostDead | UserinfoStart | InUserinfo | HostStart | HostV6Start | InHost | HostV6 | HostV6End
                     | HostPortStart | HostPort

  /** http_parse_host_char */
  function ParseHostChar(s: HostState, ch: char): HostState {
    if s.InUserinfo? || s.UserinfoStart? then
      if ch == '@' then HostStart else if IsUserinfoChar(ch) then InUserinfo else HostDead
    else if s.HostStart? then
      if ch == '[' then HostV6Start else if IsHostChar(ch) then InHost else HostDead
    else if s.InHost? && IsHostChar(ch) then InHost
    else if s.InHost? || s.HostV6End? then
      if ch == ':' then HostPortStart else HostDead
    else if s.HostV6? && ch == ']' then HostV6End
    else if s.HostV6? || s.HostV6Start? then
      if IsNum(ch) || IsHexLetter(ch) || ch == ':' || ch == '.' then HostV6 else HostDead
    else if s.HostPort? || s.HostPortStart? then
      if IsNum(ch) then HostPort else HostDead
    else HostDead
  }

  /** The field a URL state belongs to; delimiter states belong to none. */
  function FieldOf(s: State): set<Field> {
    if s.ReqSchema? then {Schema}
    else if s.ReqServer? || s.ReqServerWithAt? then {Host}
    else if s.ReqPath? then {Path}
    else if s.ReqQuery? then {Query}
    else if s.ReqFragment? then {Fragment}
    else {}
  }

  predicate IsDelimiter(c: char) {
    c == ':' || c == '/' || c == '@' || c == '[' || c == ']' || c == '?' || c == '#'
  }

  /** Position of a field in a URL. */
  function Place(f: Field): nat {
    match f
    case Schema => 0
    case Userinfo => 1
    case Host => 2
    case Port => 3
    case Path => 4
    case Query => 5
    case Fragment => 6
  }

  predicate Covers(u: Url, f: Field, i: nat)
    requires f in u.data
  {
    f in u.fields && u.data[f].off <= i < u.data[f].off + u.data[f].len
  }

  predicate Total(u: Url) { forall f: Field :: f in u.data }

  function End(u: Url, f: Field): nat
    requires f in u.data
  {
    u.data[f].off + u.data[f].len
  }

  /** The fields of u are non-empty and lie inside lo..hi. */
  ghost predicate Inside(u: Url, lo: nat, hi: nat)
    requires Total(u)
  {
    forall f: Field :: f in u.fields ==> 0 < u.data[f].len && lo <= u.data[f].off && End(u, f) <= hi
  }

  /** The fields of u are in URL order and do not overlap. */
  ghost predicate Ordered(u: Url)
    requires Total(u)
  {
    forall f: Field, g: Field :: f in u.fields && g in u.fields && Place(f) < Place(g) ==> End(u, f) <= u.data[g].off
  }

  ghost predicate Covered(u: Url, i: nat)
    requires Total(u)
  {
    exists f: Field :: Covers(u, f, i)
  }

  /** What the fields of u leave out of buf[lo..hi] are delimiters. */
  ghost predicate Complete(buf: string, u: Url, lo: nat, hi: nat)
    requires Total(u) && hi <= |buf|
  {
    forall i :: lo <= i < hi && !IsDelimiter(buf[i]) ==> Covered(u, i)
  }

  ghost predicate Tiles(buf: string, u: Url, lo: nat, hi: nat)
    requires Total(u) && hi <= |buf|
  {
    Inside(u, lo, hi) && Ordered(u) && Complete(buf, u, lo, hi)
  }

  // ----- growing a tiling by one byte

  /** u with the span of f set to (off, len). */
  function Put(u: Url, f: Field, off: nat, len: nat): Url {
    u.(fields := u.fields + {f}, data := u.data[f := Span(off, len)])
  }

  lemma TilesDelimiter(buf: string, u: Url, lo: nat, i: nat)
    requires Total(u) && lo <= i < |buf| && Tiles(buf, u, lo, i) && IsDelimiter(buf[i])
    ensures Tiles(buf, u, lo, i + 1)
  {
    hide Covered, Ordered;
  }

  lemma PutInside(u: Url, lo: nat, i: nat, f: Field, off: nat)
    requires Total(u) && lo <= off <= i && Inside(u, lo, i)
    ensures Inside(Put(u, f, off, i + 1 - off), lo, i + 1)
  {
  }

  lemma PutOrdered(u: Url, lo: nat, i: nat, f: Field, off: nat)
    requires Total(u) && lo <= off <= i && Inside(u, lo, i) && Ordered(u)
    requires forall g <- u.fields :: g != f ==> Place(g) < Place(f)
    requires if f in u.fields then u.data[f] == Span(off, i - off) else off == i
    ensures Ordered(Put(u, f, off, i + 1 - off))
  {
    var v := Put(u, f, off, i + 1 - off);
    forall g: Field, h: Field | g in v.fields && h in v.fields && Place(g) < Place(h)
      ensures End(v, g) <= v.data[h].off
    {
      assert g != f && g in u.fields;
      assert End(v, g) == End(u, g);
    }
  }

  lemma PutCovers(u: Url, i: nat, f: Field, off: nat, j: nat)
    requires Total(u) && off <= i
    requires if f in u.fields then u.data[f] == Span(off, i - off) else off == i
    requires j == i || Covered(u, j)
    ensures Covered(Put(u, f, off, i + 1 - off), j)
  {
    var v := Put(u, f, off, i + 1 - off);
    if j == i {
      assert Covers(v, f, j);
    } else {
      var g: Field :| Covers(u, g, j);
      assert Covers(v, g, j);
    }
  }

  /** A new field starts at i, or the last one goes on to i. */
  lemma TilesByte(buf: string, u: Url, lo: nat, i: nat, f: Field, off: nat)
    requires Total(u) && lo <= off <= i < |buf| && Tiles(buf, u, lo, i)
    requires forall g <- u.fields :: g != f ==> Place(g) < Place(f)
    requires if f in u.fields then u.data[f] == Span(off, i - off) else off == i
    ensures Tiles(buf, Put(u, f, off, i + 1 - off), lo, i + 1)
  {
    hide Covered, Ordered, Inside;
    var v := Put(u, f, off, i + 1 - off);
    PutInside(u, lo, i, f, off);
    PutOrdered(u, lo, i, f, off);
    forall j | lo <= j < i + 1 && !IsDelimiter(buf[j])
      ensures Covered(v, j)
    {
      PutCovers(u, i, f, off, j);
    }
  }

  // ----- the host part

  /** The part of u that lies in the host: a host without bytes does not count. */
  function HostPart(u: Url): Url
    requires Total(u)
  {
    u.(fields := (u.fields * {Userinfo, Port}) + if u.data[Host].len > 0 then {Host} else {})
  }

  predicate Digits(buf: string, sp: Span) {
    sp.off + sp.len <= |buf| && forall k :: sp.off <= k < sp.off + sp.len ==> IsNum(buf[k])
  }

  /** The fields that state s has open, or may have seen. */
  ghost predicate HostFits(buf: string, h: Url, s: HostState, i: nat)
    requires Total(h)
  {
    && (Port in h.fields ==> Digits(buf, h.data[Port]))
    && (forall f <- HostFieldOf(s) :: f in h.fields && End(h, f) == i)
    && (if s.UserinfoStart? then h.fields == {}
        else if s.InUserinfo? || s.HostStart? || s.HostV6Start? then h.fields <= {Userinfo}
        else if s.HostPort? then Host in h.fields && h.fields <= {Userinfo, Host, Port}
        else !s.HostDead? && Host in h.fields && h.fields <= {Userinfo, Host})
  }

  /** The field that a byte belongs to when it leads to state t; the others are delimiters. */
  function HostFieldOf(t: HostState): set<Field> {
    if t.InHost? || t.HostV6? then {Host}
    else if t.HostPort? then {Port}
    else if t.InUserinfo? then {Userinfo}
    else {}
  }

  /** How the host states follow each other. */
  lemma HostTransitions(s: HostState, ch: char)
    ensures var t := ParseHostChar(s, ch);
            && (!t.HostDead? && HostFieldOf(t) == {} ==> IsDelimiter(ch))
            && (t.HostPort? ==> IsNum(ch))
            && (t.InUserinfo? ==> s.UserinfoStart? || s.InUserinfo?)
            && (t.HostStart? ==> s.UserinfoStart? || s.InUserinfo?)
            && (t.HostV6Start? ==> s.HostStart?)
            && (t.InHost? ==> s.HostStart? || s.InHost?)
            && (t.HostV6? ==> s.HostV6Start? || s.HostV6?)
            && (t.HostV6End? ==> s.HostV6?)
            && (t.HostPortStart? ==> s.InHost? || s.HostV6End?)
            && (t.HostPort? ==> s.HostPortStart? || s.HostPort?)
            && !t.UserinfoStart?
  {
    hide IsUserinfoChar, IsHostChar, IsHexLetter;
  }

  /** A host byte that belongs to no field. */
  lemma HostDelimiter(buf: string, h: Url, s: HostState, lo: nat, i: nat)
    requires Total(h) && lo <= i < |buf| && Tiles(buf, h, lo, i) && HostFits(buf, h, s, i)
    requires var t := ParseHostChar(s, buf[i]); !t.HostDead? && HostFieldOf(t) == {}
    ensures HostFits(buf, h, ParseHostChar(s, buf[i]), i + 1) && Tiles(buf, h, lo, i + 1)
  {
    hide Tiles, IsDelimiter, ParseHostChar;
    HostTransitions(s, buf[i]);
    TilesDelimiter(buf, h, lo, i);
  }

  /** A host byte that belongs to field f: the field starts here, or has been open. */
  lemma HostByte(buf: string, h: Url, s: HostState, lo: nat, i: nat, f: Field)
    requires Total(h) && lo <= i < |buf| && Tiles(buf, h, lo, i) && HostFits(buf, h, s, i)
    requires var t := ParseHostChar(s, buf[i]); !t.HostDead? && f in HostFieldOf(t)
    ensures var t := ParseHostChar(s, buf[i]);
            var off := if s == t then h.data[f].off else i;
            var v := Put(h, f, off, i + 1 - off);
            && (f in h.fields <==> s == t)
            && (s == t ==> off <= i && h.data[f] == Span(off, i - off))
            && HostFits(buf, v, t, i + 1) && Tiles(buf, v, lo, i + 1)
  {
    hide Tiles, IsDelimiter, ParseHostChar;
    HostTransitions(s, buf[i]);
    var t := ParseHostChar(s, buf[i]);
    assert f in h.fields <==> s == t;
    var off := if s == t then h.data[f].off else i;
    TilesInside(buf, h, lo, i);
    TilesByte(buf, h, lo, i, f, off);
  }

  lemma TilesInside(buf: string, u: Url, lo: nat, hi: nat)
    requires Total(u) && hi <= |buf| && Tiles(buf, u, lo, hi)
    ensures Inside(u, lo, hi)
  {
  }

  /** u is u0 except for what the host parser may change. */
  ghost predicate SameElse(u0: Url, u: Url)
    requires Total(u0) && Total(u)
  {
    && u.port == u0.port
    && (forall f: Field :: f != Userinfo && f != Host && f != Port ==> u.data[f] == u0.data[f])
    && (forall f: Field :: f != Userinfo && f != Port ==> (f in u.fields <==> f in u0.fields))
  }

  /** The bookkeeping for a byte at i that leads the host parser from state s to state t. */
  function HostRecord(u: Url, s: HostState, t: HostState, i: nat): Url
    requires Total(u)
  {
    if t.InHost? || t.HostV6? then
      u.(data := u.data[Host := Span(if s != t then i else u.data[Host].off, u.data[Host].len + 1)])
    else if t.HostPort? then
      Put(u, Port, if s != t then i else u.data[Port].off, if s != t then 1 else u.data[Port].len + 1)
    else if t.InUserinfo? then
      Put(u, Userinfo, if s != t then i else u.data[Userinfo].off, if s != t then 1 else u.data[Userinfo].len + 1)
    else u
  }

  lemma HostRecordFits(buf: string, u: Url, s: HostState, lo: nat, i: nat)
    requires Total(u) && lo <= i < |buf| && Tiles(buf, HostPart(u), lo, i) && HostFits(buf, HostPart(u), s, i)
    requires !ParseHostChar(s, buf[i]).HostDead?
    ensures var t := ParseHostChar(s, buf[i]);
            var v := HostRecord(u, s, t, i);
            Total(v) && SameElse(u, v) && Tiles(buf, HostPart(v), lo, i + 1) && HostFits(buf, HostPart(v), t, i + 1)
  {
    hide ParseHostChar, Tiles, HostFits;
    var h, t := HostPart(u), ParseHostChar(s, buf[i]);
    var v := HostRecord(u, s, t, i);
    if t.InHost? || t.HostV6? {
      HostByte(buf, h, s, lo, i, Host);
      assert HostPart(v) == Put(h, Host, v.data[Host].off, v.data[Host].len);
    } else if t.HostPort? {
      HostByte(buf, h, s, lo, i, Port);
      assert HostPart(v) == Put(h, Port, v.data[Port].off, v.data[Port].len);
    } else if t.InUserinfo? {
      HostByte(buf, h, s, lo, i, Userinfo);
      assert HostPart(v) == Put(h, Userinfo, v.data[Userinfo].off, v.data[Userinfo].len);
    } else {
      HostDelimiter(buf, h, s, lo, i);
    }
  }

  /** The host parser over buf[i..end]. */
  function HostAll(u: Url, s: HostState, buf: string, i: nat, end: nat): (Url, HostState)
    requires Total(u) && end <= |buf|
    decreases end - i
  {
    if i >= end || s.HostDead? then (u, s)
    else
      var t := ParseHostChar(s, buf[i]);
      HostAll(if t.HostDead? then u else HostRecord(u, s, t, i), t, buf, i + 1, end)
  }

  lemma HostAllStep(u: Url, s: HostState, buf: string, i: nat, end: nat)
    requires Total(u) && i < end <= |buf| && !s.HostDead?
    ensures var t := ParseHostChar(s, buf[i]);
            HostAll(u, s, buf, i, end) ==
            if t.HostDead? then (u, t) else HostAll(HostRecord(u, s, t, i), t, buf, i + 1, end)
  {
    hide ParseHostChar, HostRecord;
  }

  lemma HostAllEnd(u: Url, s: HostState, buf: string, end: nat)
    requires Total(u) && end <= |buf|
    ensures HostAll(u, s, buf, end, end) == (u, s)
  {
  }

  /** The states in which the host must not end. */
  predicate EndsBadly(s: HostState) {
    s.HostDead? || s.HostStart? || s.HostV6Start? || s.HostV6? || s.HostPortStart? || s.InUserinfo? || s.UserinfoStart?
  }

  /** The URL with its host span refined, if there is a host in it. */
  function HostParsed(buf: string, u: Url, foundAt: bool): (r: Option<Url>)
    requires Total(u) && End(u, Host) <= |buf|
    ensures r.Some? ==> Total(r.value)
  {
    var (v, s) := HostAll(u.(data := u.data[Host := Span(u.data[Host].off, 0)]),
                          if foundAt then UserinfoStart else HostStart,
                          buf, u.data[Host].off, End(u, Host));
    if EndsBadly(s) || !Total(v) then None else Some(v)
  }

  /** If there is a port, it comes last. */
  lemma PortLast(buf: string, u: Url, s: HostState, i: nat)
    requires Total(u) && HostFits(buf, HostPart(u), s, i) && Port in u.fields
    ensures s.HostPort? && End(u, Port) == i && Digits(buf, u.data[Port])
  {
    assert Port in HostPart(u).fields;
    assert s.HostPort?;
    assert Port in HostFieldOf(s);
    assert End(HostPart(u), Port) == End(u, Port);
  }

  /** http_parse_host: refine the host span of u0 into user information, host and port. */
  method ParseHost(buf: string, u0: Url, foundAt: bool) returns (err: bool, u: Url)
    requires Total(u0) && End(u0, Host) <= |buf|
    requires Userinfo !in u0.fields && Port !in u0.fields
    ensures Total(u) && SameElse(u0, u)
    ensures HostParsed(buf, u0, foundAt) == if err then None else Some(u)
    ensures !err ==>
      && u0.data[Host].len > 0
      && Host in HostPart(u).fields
      && Tiles(buf, HostPart(u), u0.data[Host].off, End(u0, Host))
      && (Port in u.fields ==> Digits(buf, u.data[Port]) && End(u, Port) == End(u0, Host))
  {
    hide ParseHostChar, Tiles, HostRecord, HostAll;
    var start, end := u0.data[Host].off, End(u0, Host);
    u := u0.(data := u0.data[Host := Span(start, 0)]);
    var s := if foundAt then UserinfoStart else HostStart;
    var i := start;
    EmptyTiles(buf, HostPart(u), start);
    ghost var goal := HostAll(u, s, buf, i, end);
    while i < end
      invariant start <= i <= end && Total(u) && SameElse(u0, u)
      invariant Tiles(buf, HostPart(u), start, i) && HostFits(buf, HostPart(u), s, i)
      invariant i == start ==> s.UserinfoStart? || s.HostStart?
      invariant HostAll(u, s, buf, i, end) == goal && !s.HostDead?
    {
      HostAllStep(u, s, buf, i, end);
      var t := ParseHostChar(s, buf[i]);
      if t.HostDead? {
        return true, u;
      }
      HostRecordFits(buf, u, s, start, i);
      u := HostRecord(u, s, t, i);
      s, i := t, i + 1;
    }
    HostAllEnd(u, s, buf, end);
    if Port in u.fields {
      PortLast(buf, u, s, end);
    }
    err := s.HostStart? || s.HostV6Start? || s.HostV6? || s.HostPortStart? || s.InUserinfo? || s.UserinfoStart?;
  }

  lemma EmptyTiles(buf: string, u: Url, i: nat)
    requires Total(u) && i <= |buf| && u.fields == {}
    ensures Tiles(buf, u, i, i)
  {
  }

  // ----- the whole URL

  /** The fields that may be set in URL state s. */
  function Seen(s: State): set<Field> {
    if s.ReqSpacesBeforeUrl? then {}
    else if s.ReqSchema? || s.ReqSchemaSlash? || s.ReqSchemaSlashSlash? || s.ReqServerStart? then {Schema}
    else if s.ReqServer? || s.ReqServerWithAt? then {Schema, Host}
    else if s.ReqPath? || s.ReqQueryStart? then {Schema, Host, Path}
    else if s.ReqQuery? || s.ReqFragmentStart? then {Schema, Host, Path, Query}
    else {Schema, Host, Path, Query, Fragment}
  }

  /** What is known in URL state s, at position i, when `last` is the field set last. */
  ghost predicate UrlFits(u: Url, s: State, last: set<Field>, i: nat)
    requires Total(u)
  {
    && u.fields <= Seen(s) && last <= u.fields
    && (FieldOf(s) != {} ==> last == FieldOf(s))
    && (forall f <- FieldOf(s) :: f in u.fields && End(u, f) == i)
  }

  lemma UrlTransitions(s: State, ch: char)
    requires UrlState(s) || s.ReqSpacesBeforeUrl?
    ensures var t := ParseUrlChar(s, ch);
            && (t.Dead? || UrlState(t))
            && (!t.Dead? && FieldOf(t) == {} ==> IsDelimiter(ch) && Seen(s) <= Seen(t))
            && (forall f <- FieldOf(t) :: if f in FieldOf(s) then FieldOf(s) == FieldOf(t) && Seen(s) == Seen(t)
                                          else f !in Seen(s) && Seen(t) >= Seen(s) + {f})
            && (forall f <- FieldOf(t), g <- Seen(s) :: g != f ==> Place(g) < Place(f))
            && (FieldOf(s) == {Host} && !t.Dead? && FieldOf(t) != {Host} ==> ch == '/' || ch == '?')
  {
    hide IsUserinfoChar, IsUrlChar, IsAlpha;
  }

  /** A URL byte that belongs to no field. */
  lemma UrlDelimiter(buf: string, u: Url, s: State, last: set<Field>, i: nat)
    requires Total(u) && i < |buf| && Tiles(buf, u, 0, i) && UrlFits(u, s, last, i)
    requires UrlState(s) || s.ReqSpacesBeforeUrl?
    requires var t := ParseUrlChar(s, buf[i]); !t.Dead? && FieldOf(t) == {}
    ensures UrlFits(u, ParseUrlChar(s, buf[i]), last, i + 1) && Tiles(buf, u, 0, i + 1)
  {
    hide Tiles, IsDelimiter, ParseUrlChar, Seen;
    UrlTransitions(s, buf[i]);
    TilesDelimiter(buf, u, 0, i);
  }

  /** A URL byte that belongs to field f. */
  lemma UrlByte(buf: string, u: Url, s: State, last: set<Field>, i: nat, f: Field)
    requires Total(u) && i < |buf| && Tiles(buf, u, 0, i) && UrlFits(u, s, last, i)
    requires UrlState(s) || s.ReqSpacesBeforeUrl?
    requires var t := ParseUrlChar(s, buf[i]); !t.Dead? && FieldOf(t) == {f}
    ensures var t := ParseUrlChar(s, buf[i]);
            var off := if last == {f} then u.data[f].off else i;
            && (last == {f} ==> off <= i && u.data[f] == Span(off, i - off))
            && UrlFits(Put(u, f, off, i + 1 - off), t, {f}, i + 1)
            && Tiles(buf, Put(u, f, off, i + 1 - off), 0, i + 1)
  {
    hide Tiles, IsDelimiter, ParseUrlChar, Seen, FieldOf, UrlState;
    UrlTransitions(s, buf[i]);
    var t := ParseUrlChar(s, buf[i]);
    assert f in FieldOf(t);
    if f in FieldOf(s) {
      assert last == {f};
    } else {
      assert f !in Seen(s);
      assert last != {f};
    }
    var off := if last == {f} then u.data[f].off else i;
    TilesInside(buf, u, 0, i);
    TilesByte(buf, u, 0, i, f, off);
  }

  /** The host goes on to position i, or is followed by a byte that is no digit. */
  ghost predicate HostEnds(buf: string, u: Url, s: State, i: nat)
    requires Total(u) && i <= |buf|
  {
    Host in u.fields ==>
      if FieldOf(s) == {Host} then End(u, Host) == i else End(u, Host) < i && !IsNum(buf[End(u, Host)])
  }

  lemma HostEndsDelimiter(buf: string, u: Url, s: State, i: nat)
    requires Total(u) && i < |buf| && HostEnds(buf, u, s, i) && (UrlState(s) || s.ReqSpacesBeforeUrl?)
    requires var t := ParseUrlChar(s, buf[i]); !t.Dead? && FieldOf(t) == {}
    ensures HostEnds(buf, u, ParseUrlChar(s, buf[i]), i + 1)
  {
    hide ParseUrlChar;
    UrlTransitions(s, buf[i]);
  }

  lemma HostEndsByte(buf: string, u: Url, s: State, i: nat, f: Field, off: nat)
    requires Total(u) && off <= i < |buf| && HostEnds(buf, u, s, i) && (UrlState(s) || s.ReqSpacesBeforeUrl?)
    requires var t := ParseUrlChar(s, buf[i]); !t.Dead? && FieldOf(t) == {f}
    ensures HostEnds(buf, Put(u, f, off, i + 1 - off), ParseUrlChar(s, buf[i]), i + 1)
  {
    hide ParseUrlChar;
    UrlTransitions(s, buf[i]);
    var v := Put(u, f, off, i + 1 - off);
    assert f != Host ==> End(v, Host) == End(u, Host);
  }

  /** The value strtoul reads: that of the leading digits, the byte behind the buffer not being one. */
  function StrToUl(v: nat, s: string): nat
    decreases |s|
  {
    if s == "" || !IsNum(s[0]) then v else StrToUl(v * 10 + Digit(s[0]), s[1..])
  }

  lemma {:induction false} StrToUlDigits(v: nat, digits: string, rest: string)
    requires (forall c <- digits :: IsNum(c)) && (rest != "" ==> !IsNum(rest[0]))
    ensures LengthBytes(digits) && StrToUl(v, digits + rest) == DecFrom(v, digits)
    decreases |digits|
  {
    if digits == "" {
      assert digits + rest == rest;
    } else {
      assert (digits + rest)[1..] == digits[1..] + rest;
      StrToUlDigits(v * 10 + Digit(digits[0]), digits[1..], rest);
    }
  }

  lemma RefineInside(u0: Url, u: Url, n: nat)
    requires Total(u0) && Total(u) && SameElse(u0, u) && Host in u0.fields && Userinfo !in u0.fields
    requires Port !in u0.fields
    requires Inside(u0, 0, n) && Inside(HostPart(u), u0.data[Host].off, End(u0, Host)) && Host in HostPart(u).fields
    ensures Inside(u, 0, n)
  {
    forall f: Field | f in u.fields
      ensures 0 < u.data[f].len && End(u, f) <= n
    {
      if f == Userinfo || f == Host || f == Port {
        assert f in HostPart(u).fields && End(HostPart(u), f) == End(u, f);
      } else {
        assert f in u0.fields && End(u0, f) == End(u, f);
      }
    }
  }

  lemma RefineOrdered(u0: Url, u: Url, n: nat)
    requires Total(u0) && Total(u) && SameElse(u0, u) && Host in u0.fields && Userinfo !in u0.fields
    requires Port !in u0.fields
    requires Inside(HostPart(u), u0.data[Host].off, End(u0, Host)) && Host in HostPart(u).fields
    requires Ordered(u0) && Ordered(HostPart(u))
    ensures Ordered(u)
  {
    var h := HostPart(u);
    forall f: Field, g: Field | f in u.fields && g in u.fields && Place(f) < Place(g)
      ensures End(u, f) <= u.data[g].off
    {
      var fIn, gIn := f in {Userinfo, Host, Port}, g in {Userinfo, Host, Port};
      assert fIn ==> f in h.fields && End(h, f) == End(u, f) <= End(u0, Host);
      assert gIn ==> g in h.fields && u0.data[Host].off <= u.data[g].off;
      assert !fIn ==> f in u0.fields && End(u0, f) == End(u, f);
      assert !gIn ==> g in u0.fields;
      if !fIn && gIn {
        assert End(u0, f) <= u0.data[Host].off;
      } else if fIn && !gIn {
        assert End(u0, Host) <= u0.data[g].off;
      }
    }
  }

  lemma RefineCovered(buf: string, u0: Url, u: Url, i: nat)
    requires Total(u0) && Total(u) && SameElse(u0, u) && i < |buf| && Host in u0.fields && Userinfo !in u0.fields
    requires Port !in u0.fields
    requires End(u0, Host) <= |buf| && Complete(buf, HostPart(u), u0.data[Host].off, End(u0, Host))
    requires !IsDelimiter(buf[i]) && Covered(u0, i)
    ensures Covered(u, i)
  {
    var f: Field :| Covers(u0, f, i);
    if f == Host {
      assert Covered(HostPart(u), i);
      var g: Field :| Covers(HostPart(u), g, i);
      assert Covers(u, g, i);
    } else {
      assert Covers(u, f, i);
    }
  }

  /** Refining the host keeps the tiling. */
  lemma TilesRefine(buf: string, u0: Url, u: Url)
    requires Total(u0) && Total(u) && SameElse(u0, u) && Host in u0.fields && Userinfo !in u0.fields
    requires Port !in u0.fields
    requires Tiles(buf, u0, 0, |buf|) && End(u0, Host) <= |buf|
    requires Tiles(buf, HostPart(u), u0.data[Host].off, End(u0, Host)) && Host in HostPart(u).fields
    ensures Tiles(buf, u, 0, |buf|)
  {
    hide Covered, Ordered, Inside, SameElse, HostPart, IsDelimiter;
    RefineInside(u0, u, |buf|);
    RefineOrdered(u0, u, |buf|);
    forall i | 0 <= i < |buf| && !IsDelimiter(buf[i])
      ensures Covered(u, i)
    {
      RefineCovered(buf, u0, u, i);
    }
  }

  lemma ZeroTotal()
    ensures Total(ZERO_URL)
  {
    forall f: Field
      ensures f in ZERO_URL.data
    {
      match f
      case Schema =>
      case Userinfo =>
      case Host =>
      case Port =>
      case Path =>
      case Query =>
      case Fragment =>
    }
  }

  /** strtoul reads the digits of the port and nothing else. */
  lemma PortRead(buf: string, u: Url, s: State, u0: Url)
    requires Total(u) && Total(u0) && Host in u0.fields && HostEnds(buf, u0, s, |buf|)
    requires Digits(buf, u.data[Port]) && End(u, Port) == End(u0, Host)
    ensures var d := buf[u.data[Port].off..End(u, Port)];
            LengthBytes(d) && StrToUl(0, buf[u.data[Port].off..]) == DecFrom(0, d)
  {
    var d, rest := buf[u.data[Port].off..End(u, Port)], buf[End(u, Port)..];
    assert buf[u.data[Port].off..] == d + rest;
    StrToUlDigits(0, d, rest);
  }

  /** What a successful call has found out about the URL. */
  ghost predicate Decomposed(buf: string, isConnect: bool, u: Url)
    requires Total(u)
  {
    && Tiles(buf, u, 0, |buf|)
    && (Schema in u.fields || Userinfo in u.fields || Port in u.fields ==> Host in u.fields)
    && (if Port in u.fields then
          var digits := u.data[Port];
          Digits(buf, digits) && LengthBytes(buf[digits.off..digits.off + digits.len]) &&
          u.port == DecFrom(0, buf[digits.off..digits.off + digits.len]) <= 0xFFFF
        else u.port == 0)
    && (isConnect ==> u.fields == {Host, Port})
  }

  /** All that is known at position i of the first pass over the URL. */
  ghost predicate PassFits(buf: string, u: Url, s: State, last: set<Field>, i: nat)
    requires i <= |buf|
  {
    && Total(u) && u.port == 0 && (UrlState(s) || s.ReqSpacesBeforeUrl?)
    && Tiles(buf, u, 0, i) && UrlFits(u, s, last, i) && HostEnds(buf, u, s, i)
    && (Host !in u.fields ==> u.data[Host] == NO_SPAN) && Userinfo !in u.fields && Port !in u.fields
  }

  lemma PassStart(buf: string, isConnect: bool)
    ensures PassFits(buf, ZERO_URL, if isConnect then ReqServerStart else ReqSpacesBeforeUrl, {}, 0)
  {
    ZeroTotal();
    EmptyTiles(buf, ZERO_URL, 0);
    hide Tiles;
  }

  lemma PassDelimiter(buf: string, u: Url, s: State, last: set<Field>, i: nat)
    requires i < |buf| && PassFits(buf, u, s, last, i)
    requires var t := ParseUrlChar(s, buf[i]); !t.Dead? && FieldOf(t) == {}
    ensures PassFits(buf, u, ParseUrlChar(s, buf[i]), last, i + 1)
  {
    hide Tiles, ParseUrlChar, UrlFits, HostEnds;
    UrlTransitions(s, buf[i]);
    UrlDelimiter(buf, u, s, last, i);
    HostEndsDelimiter(buf, u, s, i);
  }

  lemma PassByte(buf: string, u: Url, s: State, last: set<Field>, i: nat, f: Field)
    requires i < |buf| && PassFits(buf, u, s, last, i)
    requires var t := ParseUrlChar(s, buf[i]); !t.Dead? && FieldOf(t) == {f}
    ensures var v := if last == {f} then Put(u, f, u.data[f].off, u.data[f].len + 1) else Put(u, f, i, 1);
            PassFits(buf, v, ParseUrlChar(s, buf[i]), {f}, i + 1)
  {
    hide Tiles, ParseUrlChar, UrlFits, HostEnds;
    UrlTransitions(s, buf[i]);
    UrlByte(buf, u, s, last, i, f);
    HostEndsByte(buf, u, s, i, f, if last == {f} then u.data[f].off else i);
    PlainField(ParseUrlChar(s, buf[i]));
  }

  lemma PlainField(s: State)
    ensures Userinfo !in FieldOf(s) && Port !in FieldOf(s)
  {
  }

  /** Where the first pass is: the fields so far, the state, the field set last, and whether there was
      an '@'. */
  datatype Pass = Pass(u: Url, s: State, last: set<Field>, at: bool)

  function TheField(s: State): Field {
    if s.ReqSchema? then Schema
    else if s.ReqServer? || s.ReqServerWithAt? then Host
    else if s.ReqPath? then Path
    else if s.ReqQuery? then Query
    else Fragment
  }

  /** The byte at i. */
  function Passed(x: Pass, ch: char, i: nat): (y: Pass)
    requires Total(x.u)
    ensures Total(y.u)
  {
    var t := ParseUrlChar(x.s, ch);
    if t.Dead? || FieldOf(t) == {} then x.(s := t)
    else
      var f := TheField(t);
      Pass(if x.last == {f} then Put(x.u, f, x.u.data[f].off, x.u.data[f].len + 1) else Put(x.u, f, i, 1),
           t, {f}, x.at || t.ReqServerWithAt?)
  }

  /** All bytes from i on. */
  function PassAll(x: Pass, buf: string, i: nat): (y: Pass)
    requires Total(x.u) && i <= |buf|
    ensures Total(y.u)
    decreases |buf| - i
  {
    if i == |buf| || x.s.Dead? then x else PassAll(Passed(x, buf[i], i), buf, i + 1)
  }

  function PassFrom(isConnect: bool): (x: Pass)
    ensures Total(x.u)
  {
    ZeroTotal();
    Pass(ZERO_URL, if isConnect then ReqServerStart else ReqSpacesBeforeUrl, {}, false)
  }

  /** The result of http_parser_parse_url, as a function. */
  function Parsed(buf: string, isConnect: bool): (r: Option<Url>)
    ensures r.Some? ==> Total(r.value)
  {
    var x := PassAll(PassFrom(isConnect), buf, 0);
    if x.s.Dead? then None
    else
      var r := if Schema !in x.u.fields && Host !in x.u.fields then Some(x.u)
               else if End(x.u, Host) > |buf| then None
               else HostParsed(buf, x.u, x.at);
      if r.None? || (isConnect && r.value.fields != {Host, Port}) then None
      else WithPort(buf, r.value)
  }

  /** The port read from its field, which must fit 16 bits. */
  function WithPort(buf: string, u: Url): (r: Option<Url>)
    requires Total(u)
    ensures r.Some? ==> Total(r.value)
  {
    if Port !in u.fields then Some(u)
    else if u.data[Port].off > |buf| || StrToUl(0, buf[u.data[Port].off..]) > 0xFFFF then None
    else Some(u.(port := StrToUl(0, buf[u.data[Port].off..])))
  }

  /** The first pass: schema, host part, path, query and fragment. */
  method SplitUrl(buf: string, isConnect: bool) returns (err: bool, u: Url, foundAt: bool, ghost s: State)
    ensures Total(u)
    ensures var x := PassAll(PassFrom(isConnect), buf, 0);
            x.s.Dead? == err && (!err ==> u == x.u && s == x.s && foundAt == x.at)
    ensures !err ==> exists last :: PassFits(buf, u, s, last, |buf|)
  {
    hide ParseUrlChar, PassFits;
    PassStart(buf, isConnect);
    ZeroTotal();
    u, foundAt := ZERO_URL, false;
    var t := if isConnect then ReqServerStart else ReqSpacesBeforeUrl;
    var last: set<Field>, i := {}, 0;
    s := t;
    ghost var goal := PassAll(PassFrom(isConnect), buf, 0);
    while i < |buf|
      invariant i <= |buf| && Total(u) && s == t && !t.Dead? && PassFits(buf, u, t, last, i)
      invariant PassAll(Pass(u, t, last, foundAt), buf, i) == goal
    {
      t := ParseUrlChar(t, buf[i]);
      if t.Dead? {
        return true, u, foundAt, s;
      }
      var uf := FieldOf(t);
      if uf == {} {
        PassDelimiter(buf, u, s, last, i);
      } else {
        var f := TheField(t);
        PassByte(buf, u, s, last, i, f);
        foundAt := foundAt || t.ReqServerWithAt?;
        u := if last == uf then Put(u, f, u.data[f].off, u.data[f].len + 1) else Put(u, f, i, 1);
        last := uf;
      }
      s, i := t, i + 1;
    }
    err := false;
  }

  /** http_parser_parse_url, on a zeroed result and for a buffer whose offsets fit 16 bits. */
  method ParseUrl(buf: string, isConnect: bool) returns (err: bool, u: Url)
    requires |buf| <= 0xFFFF
    ensures Total(u) && Parsed(buf, isConnect) == if err then None else Some(u)
    ensures !err ==> Decomposed(buf, isConnect, u)
  {
    hide Tiles, PassAll, HostAll, HostParsed, StrToUl;
    var foundAt;
    ghost var s;
    err, u, foundAt, s := SplitUrl(buf, isConnect);
    if err {
      return;
    }
    if Schema in u.fields || Host in u.fields {
      ghost var u0 := u;
      TilesInside(buf, u, 0, |buf|);
      err, u := ParseHost(buf, u, foundAt);
      if err {
        return;
      }
      TilesRefine(buf, u0, u);
      if Port in u.fields {
        PortRead(buf, u, s, u0);
      }
    }
    if isConnect && u.fields != {Host, Port} {
      return true, u;
    }
    if Port in u.fields {
      var v := StrToUl(0, buf[u.data[Port].off..]);
      if v > 0xFFFF {
        return true, u;
      }
      TilesPort(buf, u, v);
      u := u.(port := v);
    }
    err := false;
  }

  lemma TilesPort(buf: string, u: Url, v: nat)
    requires Total(u) && Tiles(buf, u, 0, |buf|)
    ensures Tiles(buf, u.(port := v), 0, |buf|)
  {
    forall i | 0 <= i < |buf| && !IsDelimiter(buf[i])
      ensures Covered(u.(port := v), i)
    {
      var f: Field :| Covers(u, f, i);
      assert Covers(u.(port := v), f, i);
    }
    assert forall f: Field :: End(u.(port := v), f) == End(u, f);
  }
}
