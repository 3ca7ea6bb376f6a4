/** Whole sessions of http_parser_execute calls: however a stream is cut into buffers, and
    wherever callbacks pause the parser, the result is that of one unpaused call on all of it.  Only
    the header byte counter gets ahead, by one for each header byte in front of which the parser was
    paused; so where the header size limit makes a difference is known exactly. */
module HttpSession {
  import opened HttpTypes
  import opened HttpRun
  import opened HttpParser
  import opened HttpTrace

  /** A parser between two calls: its fields, the merged history, and how much of the stream it
      has consumed. */
  datatype Point = Point(p: Parser, nread: nat, log: Log, pos: nat)

  /** A call on the buffer stream[a.pos..a.pos + len] that leads from a to b without an error and
      without leaving HTTP: it ends with e, OK or paused. */
  ghost predicate Continues(noBody: NoBody, stream: string, a: Point, len: nat, e: Errno, b: Point) {
    && 0 < len && a.pos + len <= |stream| && a.pos <= b.pos
    && (e.OK? || e.Paused?)
    && (var data := stream[a.pos..a.pos + len];
        && Executed(noBody, a.p, a.nread, a.log, data, b.p, b.nread, b.log, e, b.pos - a.pos)
        && RunBytes(noBody, a.p, a.nread, a.log, data) != Run(b.p, b.nread, b.log, b.pos - a.pos, Upgraded))
  }

  /** Between a and b, the parser was paused in front of a byte that it has counted and begun. */
  ghost predicate Held(noBody: NoBody, stream: string, a: Point, b: Point) {
    && a.pos <= b.pos && a.pos <= |stream|
    && ComesBy(noBody, a.p, a.nread, a.log, stream[a.pos..], b.pos - a.pos, true, b.p, b.nread, b.log)
  }

  /** Being held is not the same as standing between two bytes. */
  lemma HeldIsNotBetween(noBody: NoBody, p: Parser, nread: nat, log: Log, data: string, i: nat, q: Parser, n: nat,
                         l: Log)
    requires ComesBy(noBody, p, nread, log, data, i, true, q, n, l)
    ensures !ComesBy(noBody, p, nread, log, data, i, false, q, n, l)
  {
    hide Within, RunBytes;
    var r := RunBytes(noBody, p, nread, log, data[..i]);
    WithinBite(noBody, r.p, n, r.log, data[i], q, l);
  }

  /** A call leaves the parser somewhere on the run over the rest of the stream. */
  lemma CallComesBy(noBody: NoBody, stream: string, a: Point, len: nat, e: Errno, b: Point)
    requires Continues(noBody, stream, a, len, e, b)
    ensures b.pos <= a.pos + len && a.pos + len <= |stream|
    ensures ComesBy(noBody, a.p, a.nread, a.log, stream[a.pos..], b.pos - a.pos, Held(noBody, stream, a, b), b.p,
                    b.nread, b.log)
    ensures b.pos == a.pos ==> Held(noBody, stream, a, b)
  {
    hide RunBytes, Within;
    var data, used := stream[a.pos..a.pos + len], b.pos - a.pos;
    assert e.OK? ==> data[..|data|] == data;
    RunSplit(noBody, a.p, a.nread, a.log, data, "");
    assert used <= |data| && stream[a.pos..][..used] == data[..used];
  }

  // ----- one call more

  /** How much further the counter gets ahead when the parser goes on from a point. */
  function Recount(held: bool, s: State): nat { if held && ParsingHeader(s) then 1 else 0 }

  /** The run from the start over what a call consumes is a run from where the call starts, with
      the counter set back. */
  lemma Resume(noBody: NoBody, first: Point, stream: string, a: Point, held: bool, ahead: nat, next: string)
    requires ahead <= a.nread && next != "" && a.pos + |next| <= |stream| && stream[a.pos..a.pos + |next|] == next
    requires ComesBy(noBody, first.p, first.nread, first.log, stream, a.pos, held, a.p, a.nread - ahead, a.log)
    ensures ahead + Recount(held, a.p.state) <= a.nread
    ensures RunBytes(noBody, first.p, first.nread, first.log, stream[..a.pos + |next|])
         == Later(RunBytes(noBody, a.p, a.nread - ahead - Recount(held, a.p.state), a.log, next), a.pos)
  {
    hide Within, Bite;
    var r := RunBytes(noBody, first.p, first.nread, first.log, stream[..a.pos]);
    RunSplit(noBody, first.p, first.nread, first.log, stream[..a.pos], next);
    assert stream[..a.pos + |next|] == stream[..a.pos] + next;
    if held {
      assert stream[a.pos] == next[0];
      WithinBite(noBody, r.p, a.nread - ahead, r.log, next[0], a.p, a.log);
    }
  }

  /** A call from a to b, in the run from the start: what the counter was ahead, and what it gets
      ahead by going on from a held point, stays until the counter is cleared. */
  lemma CallTracks(noBody: NoBody, first: Point, stream: string, a: Point, heldA: bool, ahead: nat, b: Point,
                   heldB: bool)
    requires a.pos <= b.pos && a.pos <= |stream| && ahead <= a.nread && (a.pos == b.pos ==> heldB)
    requires ComesBy(noBody, first.p, first.nread, first.log, stream, a.pos, heldA, a.p, a.nread - ahead, a.log)
    requires ComesBy(noBody, a.p, a.nread, a.log, stream[a.pos..], b.pos - a.pos, heldB, b.p, b.nread, b.log)
    ensures b.pos <= |stream|
    ensures var cleared := Cleared(noBody, a.p, a.log, stream[a.pos..b.pos]);
            var ahead' := if cleared then 0 else ahead + Recount(heldA, a.p.state);
            && ahead' <= b.nread
            && ComesBy(noBody, first.p, first.nread, first.log, stream, b.pos, heldB, b.p, b.nread - ahead', b.log)
  {
    hide Within, RunBytes, Cleared, ParsingHeader;
    var next := stream[a.pos..b.pos];
    assert stream[a.pos..][..b.pos - a.pos] == next;
    if next == "" {
      AgainTracks(noBody, first, stream, a, heldA, ahead, b);
    } else {
      Resume(noBody, first, stream, a, heldA, ahead, next);
      hide Recount;
      RunCount(noBody, a.p, a.nread - ahead - Recount(heldA, a.p.state), a.nread, a.log, next);
    }
  }

  /** Going on from a and stopping in the middle of the very next byte. */
  lemma AgainTracks(noBody: NoBody, first: Point, stream: string, a: Point, heldA: bool, ahead: nat, b: Point)
    requires a.pos == b.pos <= |stream| && ahead <= a.nread
    requires ComesBy(noBody, first.p, first.nread, first.log, stream, a.pos, heldA, a.p, a.nread - ahead, a.log)
    requires ComesBy(noBody, a.p, a.nread, a.log, stream[a.pos..], 0, true, b.p, b.nread, b.log)
    ensures var ahead' := ahead + Recount(heldA, a.p.state);
            && !Cleared(noBody, a.p, a.log, "") && ahead' <= b.nread
            && ComesBy(noBody, first.p, first.nread, first.log, stream, b.pos, true, b.p, b.nread - ahead', b.log)
  {
    hide Within;
    var r := RunBytes(noBody, first.p, first.nread, first.log, stream[..a.pos]);
    if heldA {
      WithinBite(noBody, r.p, a.nread - ahead, r.log, stream[a.pos], a.p, a.log);
      WithinTrans(noBody, r.p, r.log, stream[a.pos], a.p, a.log, b.p, b.log);
    }
  }

  // ----- sessions

  /** A session: points connected by calls, each of which sees some of the stream that its
      predecessors have not consumed. */
  ghost predicate Session(noBody: NoBody, stream: string, points: seq<Point>, lens: seq<nat>, errnos: seq<Errno>) {
    && |points| == |lens| + 1 == |errnos| + 1
    && forall i :: 0 <= i < |lens| ==> Continues(noBody, stream, points[i], lens[i], errnos[i], points[i + 1])
  }

  ghost predicate EndsHeld(noBody: NoBody, stream: string, points: seq<Point>) {
    |points| > 1 && Held(noBody, stream, points[|points| - 2], points[|points| - 1])
  }

  /** How many times the parser has gone on from a pause in front of a header byte, since its counter
      was last cleared. */
  ghost function Ahead(noBody: NoBody, stream: string, points: seq<Point>): nat
    decreases |points|, 0
  {
    if |points| <= 1 then 0
    else
      var a, b := points[|points| - 2], points[|points| - 1];
      if a.pos <= b.pos <= |stream| && Cleared(noBody, a.p, a.log, stream[a.pos..b.pos]) then 0
      else Resumed(noBody, stream, points[..|points| - 1])
  }

  /** The same, once it goes on from the last point. */
  ghost function Resumed(noBody: NoBody, stream: string, points: seq<Point>): nat
    requires |points| > 0
    decreases |points|, 1
  {
    Ahead(noBody, stream, points) + Recount(EndsHeld(noBody, stream, points), points[|points| - 1].p.state)
  }

  /** Where one run from the start of the session comes by, with its counter, the parser is at the last
      point; its counter is ahead by as much as Ahead says. */
  ghost predicate Tracks(noBody: NoBody, stream: string, points: seq<Point>) {
    |points| > 0 &&
    var first, last, ahead := points[0], points[|points| - 1], Ahead(noBody, stream, points);
    && last.pos <= |stream| && ahead <= last.nread
    && ComesBy(noBody, first.p, first.nread, first.log, stream, last.pos, EndsHeld(noBody, stream, points),
               last.p, last.nread - ahead, last.log)
  }

  lemma TracksIs(noBody: NoBody, stream: string, points: seq<Point>)
    requires |points| > 0
    ensures var first, last, ahead := points[0], points[|points| - 1], Ahead(noBody, stream, points);
            Tracks(noBody, stream, points) <==>
            && last.pos <= |stream| && ahead <= last.nread
            && ComesBy(noBody, first.p, first.nread, first.log, stream, last.pos, EndsHeld(noBody, stream, points),
                       last.p, last.nread - ahead, last.log)
  {
    hide Ahead, ComesBy, EndsHeld;
  }

  /** One call more, with the last two points spelled out. */
  lemma NextPoint(noBody: NoBody, stream: string, before: seq<Point>, a: Point, b: Point)
    requires |before| > 0 && before[|before| - 1] == a && a.pos <= b.pos <= |stream|
    ensures var points := before + [b];
            && EndsHeld(noBody, stream, points) == Held(noBody, stream, a, b)
            && Ahead(noBody, stream, points)
               == if Cleared(noBody, a.p, a.log, stream[a.pos..b.pos]) then 0
                  else Ahead(noBody, stream, before) + Recount(EndsHeld(noBody, stream, before), a.p.state)
  {
    hide Held, Cleared, Recount;
    assert (before + [b])[..|before|] == before;
  }

  lemma TracksNext(noBody: NoBody, stream: string, before: seq<Point>, a: Point, len: nat, e: Errno, b: Point)
    requires |before| > 0 && Tracks(noBody, stream, before)
    requires before[|before| - 1] == a && Continues(noBody, stream, a, len, e, b)
    ensures Tracks(noBody, stream, before + [b])
  {
    hide *;
    TracksIs(noBody, stream, before);
    Forward(noBody, stream, a, len, e, b);
    CallComesBy(noBody, stream, a, len, e, b);
    CallTracks(noBody, before[0], stream, a, EndsHeld(noBody, stream, before), Ahead(noBody, stream, before),
               b, Held(noBody, stream, a, b));
    NextPoint(noBody, stream, before, a, b);
    TracksIs(noBody, stream, before + [b]);
  }

  /** At each point of a session, the parser is where one run from its start comes by, with the
      fields and the merged history of that run; its counter is that of the run and one for each
      pause in front of a header byte since the counter was last cleared. */
  lemma {:induction false} SessionTracks(noBody: NoBody, stream: string, points: seq<Point>, lens: seq<nat>,
                                         errnos: seq<Errno>)
    requires Session(noBody, stream, points, lens, errnos) && points[0].pos == 0
    ensures Tracks(noBody, stream, points)
    decreases |lens|
  {
    hide Continues, Held;
    var n := |lens|;
    if n == 0 {
      RunEmpty(noBody, points[0].p, points[0].nread, points[0].log, stream[..0], 0);
    } else {
      hide Tracks;
      var before := points[..n];
      SessionTracks(noBody, stream, before, lens[..n - 1], errnos[..n - 1]);
      TracksNext(noBody, stream, before, points[n - 1], lens[n - 1], errnos[n - 1], points[n]);
      assert before + [points[n]] == points;
    }
  }

  lemma Forward(noBody: NoBody, stream: string, a: Point, len: nat, e: Errno, b: Point)
    requires Continues(noBody, stream, a, len, e, b)
    ensures a.pos <= b.pos && a.pos <= |stream|
  {
  }

  /** Split and pause invariance: a session that consumes the whole stream has the fields and the
      merged callback trace of one unpaused call on the whole stream, which then meets neither an
      error nor the header size limit; what its counter is ahead is known. */
  lemma SessionIsOneRun(noBody: NoBody, stream: string, points: seq<Point>, lens: seq<nat>, errnos: seq<Errno>)
    requires Session(noBody, stream, points, lens, errnos)
    requires points[0].pos == 0 && points[|points| - 1].pos == |stream|
    ensures var first, last := points[0], points[|points| - 1];
            var ahead := Ahead(noBody, stream, points);
            && ahead <= last.nread
            && RunBytes(noBody, first.p, first.nread, first.log, stream)
            == Run(last.p, last.nread - ahead, last.log, |stream|, Ran)
  {
    hide Continues, Ahead, RunBytes, Within;
    SessionTracks(noBody, stream, points, lens, errnos);
    assert stream[..|stream|] == stream;
  }

  // ----- the call that ends a session

  /** The next len bytes of the stream. */
  function Buffer(stream: string, a: Point, len: nat): string {
    if a.pos + len <= |stream| then stream[a.pos..a.pos + len] else ""
  }

  /** A call at the end of a session that is not paused, on the next len bytes. */
  ghost predicate Ends(noBody: NoBody, stream: string, a: Point, len: nat, e: Errno, b: Point) {
    && 0 < len && a.pos + len <= |stream| && a.pos <= b.pos && !e.Paused?
    && Executed(noBody, a.p, a.nread, a.log, stream[a.pos..a.pos + len], b.p, b.nread, b.log, e, b.pos - a.pos)
  }

  lemma ResumedIs(noBody: NoBody, stream: string, points: seq<Point>, lens: seq<nat>, errnos: seq<Errno>)
    requires Session(noBody, stream, points, lens, errnos)
    ensures |points| > 0
    ensures Resumed(noBody, stream, points)
         == Ahead(noBody, stream, points) + Recount(EndsHeld(noBody, stream, points), points[|points| - 1].p.state)
  {
  }

  /** The one run over all that the session and this call have seen. */
  lemma OneRunOn(noBody: NoBody, stream: string, points: seq<Point>, lens: seq<nat>, errnos: seq<Errno>, len: nat)
    requires Session(noBody, stream, points, lens, errnos) && points[0].pos == 0
    requires 0 < len && points[|points| - 1].pos + len <= |stream|
    ensures var first, a := points[0], points[|points| - 1];
            var k := Resumed(noBody, stream, points);
            && k <= a.nread
            && RunBytes(noBody, first.p, first.nread, first.log, stream[..a.pos + len])
            == Later(RunBytes(noBody, a.p, a.nread - k, a.log, stream[a.pos..a.pos + len]), a.pos)
  {
    hide *;
    SessionTracks(noBody, stream, points, lens, errnos);
    ResumedIs(noBody, stream, points, lens, errnos);
    TracksIs(noBody, stream, points);
    var a, held, ahead := points[|points| - 1], EndsHeld(noBody, stream, points), Ahead(noBody, stream, points);
    Resume(noBody, points[0], stream, a, held, ahead, stream[a.pos..a.pos + len]);
  }

  /** A session whose next call fails, other than by the header size limit, fails where and how one
      unpaused call fails. */
  lemma SessionFailsLikeOneRun(noBody: NoBody, stream: string, points: seq<Point>, lens: seq<nat>, errnos: seq<Errno>,
                               len: nat, e: Errno, b: Point)
    requires Session(noBody, stream, points, lens, errnos) && points[0].pos == 0
    requires Ends(noBody, stream, points[|points| - 1], len, e, b) && !e.OK? && !e.HeaderOverflow?
    ensures var first, a := points[0], points[|points| - 1];
            var r := RunBytes(noBody, first.p, first.nread, first.log, stream);
            var data := Buffer(stream, a, len);
            var ahead := if Cleared(noBody, a.p, a.log, data) then 0 else Resumed(noBody, stream, points);
            && r == Run(b.p, r.nread, r.log, b.pos, Failed(e)) && r.nread + ahead == b.nread
            && a.pos <= b.pos && ButForOne(b.log, r.log, data, b.pos - a.pos)
  {
    hide Continues, RunBytes, Resumed, Cleared, ButForOne;
    var first, a := points[0], points[|points| - 1];
    var k := Resumed(noBody, stream, points);
    OneRunOn(noBody, stream, points, lens, errnos, len);
    RunCount(noBody, a.p, a.nread - k, a.nread, a.log, stream[a.pos..a.pos + len]);
    RunSplit(noBody, first.p, first.nread, first.log, stream[..a.pos + len], stream[a.pos + len..]);
    assert stream[..a.pos + len] + stream[a.pos + len..] == stream;
  }

  /** A held byte is as high a climb as the whole byte. */
  lemma HeldClimb(noBody: NoBody, p: Parser, nread: nat, log: Log, stream: string, i: nat, held: bool,
                  q: Parser, n: nat, l: Log, data: string)
    requires ComesBy(noBody, p, nread, log, stream, i, held, q, n, l) && data != "" && i < |stream|
    requires stream[i] == data[0]
    ensures var r := RunBytes(noBody, p, nread, log, stream[..i]);
            && r.stop.Ran? && n == r.nread + Recount(held, q.state)
            && Climb(noBody, r.p, r.log, data) == Climb(noBody, q, l, data)
  {
    hide Within, Bite, RunBytes;
    var r := RunBytes(noBody, p, nread, log, stream[..i]);
    if held {
      WithinBite(noBody, r.p, 1, r.log, data[0], q, l);
    }
  }

  /** The header size limit exactly: a session meets it with a call where one unpaused run does not,
      if and only if that run stays within the limit, but the header bytes it has counted, those the
      call counts before the counter is next cleared, and the pauses in front of header bytes since
      it was last cleared are together above the limit. */
  lemma LimitExact(noBody: NoBody, stream: string, points: seq<Point>, lens: seq<nat>, errnos: seq<Errno>,
                   len: nat, e: Errno, b: Point)
    requires Session(noBody, stream, points, lens, errnos) && points[0].pos == 0
    requires Ends(noBody, stream, points[|points| - 1], len, e, b)
    ensures var first, a := points[0], points[|points| - 1];
            var one := RunBytes(noBody, first.p, first.nread, first.log, stream[..a.pos + len]);
            var here := RunBytes(noBody, first.p, first.nread, first.log, stream[..a.pos]);
            var bytes := Climb(noBody, here.p, here.log, stream[a.pos..a.pos + len]);
            var high := Highest(noBody, first.p, first.nread, first.log, stream[..a.pos + len]);
            && here.stop.Ran? && here.used == a.pos
            && (e.HeaderOverflow? && one.stop != Failed(HeaderOverflow) <==>
                  bytes > 0 && high <= MAX_HEADER_SIZE < here.nread + bytes + Resumed(noBody, stream, points))
  {
    hide Continues, RunBytes, Climb, Highest, Ahead, EndsHeld, ComesBy, Cleared, ButForOne;
    var first, a := points[0], points[|points| - 1];
    var k, data := Resumed(noBody, stream, points), stream[a.pos..a.pos + len];
    SessionTracks(noBody, stream, points, lens, errnos);
    RunSplit(noBody, first.p, first.nread, first.log, stream[..a.pos], "");
    HeldClimb(noBody, first.p, first.nread, first.log, stream, a.pos, EndsHeld(noBody, stream, points),
              a.p, a.nread - Ahead(noBody, stream, points), a.log, data);
    OneRunOn(noBody, stream, points, lens, errnos, len);
    OverflowIsHigh(noBody, first.p, first.nread, first.log, stream[..a.pos + len]);
    OverflowIsHigh(noBody, a.p, a.nread - k, a.log, data);
    RunNread(noBody, a.p, a.nread - k, a.nread, a.log, data);
  }

  // ----- going on behind a change of protocol

  /** A run ends with a change of protocol only behind a byte, and only if the parser says so. */
  lemma {:induction false} UpgradedUsed(noBody: NoBody, p: Parser, nread: nat, log: Log, data: string)
    ensures var r := RunBytes(noBody, p, nread, log, data); r.stop.Upgraded? ==> 0 < r.used && r.p.upgrade
    decreases |data|
  {
    hide Bite;
    if data != "" && !Overflows(p.state, nread) {
      var n := Fetch(p.state, nread);
      BiteNoOverflow(noBody, p, n, log, data[0]);
      var b := Bite(noBody, p, n, log, data[0]);
      if b.next.Consume? {
        UpgradedUsed(noBody, b.p, b.nread, b.log, data[1..]);
      }
    }
  }

  /** A run by a caller that takes no notice of a change of protocol, and calls the parser again. */
  function Whole(noBody: NoBody, p: Parser, nread: nat, log: Log, data: string): Run
    decreases |data|
  {
    var r := RunBytes(noBody, p, nread, log, data);
    if r.stop.Upgraded? && 0 < r.used <= |data| then
      Later(Whole(noBody, r.p, r.nread, r.log, data[r.used..]), r.used)
    else r
  }

  lemma {:induction false} WholeSplit(noBody: NoBody, p: Parser, nread: nat, log: Log, a: string, b: string)
    ensures var r := Whole(noBody, p, nread, log, a);
            && r.used <= |a| && !r.stop.Upgraded?
            && (r.stop.Ran? ==>
                  && r.used == |a|
                  && Whole(noBody, p, nread, log, a + b) == Later(Whole(noBody, r.p, r.nread, r.log, b), |a|))
            && (r.stop.Failed? ==> Whole(noBody, p, nread, log, a + b) == r)
    decreases |a|
  {
    hide RunBytes;
    var r := RunBytes(noBody, p, nread, log, a);
    RunSplit(noBody, p, nread, log, a, b);
    UpgradedUsed(noBody, p, nread, log, a);
    if r.stop.Upgraded? {
      assert (a + b)[r.used..] == a[r.used..] + b;
      WholeSplit(noBody, r.p, r.nread, r.log, a[r.used..], b);
    } else if r.stop.Ran? {
      UpgradedUsed(noBody, r.p, r.nread, r.log, b);
      WholeLater(noBody, p, nread, log, a, b);
    }
  }

  lemma WholeLater(noBody: NoBody, p: Parser, nread: nat, log: Log, a: string, b: string)
    requires RunBytes(noBody, p, nread, log, a).stop.Ran?
    ensures var r := RunBytes(noBody, p, nread, log, a);
            Whole(noBody, p, nread, log, a + b) == Later(Whole(noBody, r.p, r.nread, r.log, b), |a|)
  {
    hide RunBytes;
    var r := RunBytes(noBody, p, nread, log, a);
    var s := RunBytes(noBody, r.p, r.nread, r.log, b);
    RunSplit(noBody, p, nread, log, a, b);
    RunSplit(noBody, r.p, r.nread, r.log, b, "");
    UpgradedUsed(noBody, r.p, r.nread, r.log, b);
    assert s.stop.Upgraded? ==> (a + b)[|a| + s.used..] == b[s.used..];
  }

  /** A call that leaves the parser between two bytes, as part of such a run. */
  lemma CallInWhole(noBody: NoBody, p: Parser, nread: nat, log: Log, data: string,
                    p': Parser, nread': nat, log': Log, e: Errno, used: nat)
    requires Executed(noBody, p, nread, log, data, p', nread', log', e, used) && data != ""
    requires e.OK? || (e.Paused? && Stands(noBody, p, nread, log, data, p', nread', log', used))
    ensures used <= |data| && Whole(noBody, p, nread, log, data[..used]) == Run(p', nread', log', used, Ran)
  {
    hide RunBytes, Within;
    RunSplit(noBody, p, nread, log, data, "");
    assert data[..|data|] == data;
    var r := RunBytes(noBody, p, nread, log, data);
    if r == Run(p', nread', log', used, Upgraded) {
      UpgradedUsed(noBody, p, nread, log, data);
      RunSplit(noBody, p, nread, log, data[..used], data[used..]);
      assert data[..used] + data[used..] == data;
      var a := RunBytes(noBody, p, nread, log, data[..used]);
      UpgradedUsed(noBody, a.p, a.nread, a.log, data[used..]);
      assert a == r;
      RunEmpty(noBody, p', nread', log', data[..used], used);
      assert Whole(noBody, p', nread', log', data[..used][used..]) == Run(p', nread', log', 0, Ran);
    }
  }

  // ----- a caller that cuts and resumes

  /** The parser between two calls. */
  ghost function PointOf(parser: HttpParser, pos: nat): Point
    reads parser
  {
    Point(parser.p, parser.nread, Canon(parser.calls), pos)
  }

  lemma CallContinues(noBody: NoBody, stream: string, a: Point, len: nat, e: Errno, b: Point)
    requires 0 < len && a.pos + len <= |stream| && a.pos <= b.pos && (e.OK? || e.Paused?) && !b.p.upgrade
    requires Executed(noBody, a.p, a.nread, a.log, stream[a.pos..a.pos + len], b.p, b.nread, b.log, e, b.pos - a.pos)
    ensures Continues(noBody, stream, a, len, e, b)
  {
    hide RunBytes, Executed;
    UpgradedUsed(noBody, a.p, a.nread, a.log, stream[a.pos..a.pos + len]);
  }

  lemma SessionMore(noBody: NoBody, stream: string, points: seq<Point>, lens: seq<nat>, errnos: seq<Errno>,
                    len: nat, e: Errno, b: Point)
    requires Session(noBody, stream, points, lens, errnos)
    requires Continues(noBody, stream, points[|points| - 1], len, e, b)
    ensures Session(noBody, stream, points + [b], lens + [len], errnos + [e])
  {
    hide Continues;
  }

  /** What the calls so far have done to the parser. */
  ghost predicate InSession(noBody: NoBody, stream: string, first: Point, points: seq<Point>, lens: seq<nat>,
                            errnos: seq<Errno>, now: Point)
  {
    && Session(noBody, stream, points, lens, errnos)
    && points[0] == first && points[|points| - 1] == now && now.pos <= |stream|
  }

  lemma InSessionStart(noBody: NoBody, stream: string, first: Point)
    requires first.pos <= |stream|
    ensures InSession(noBody, stream, first, [first], [], [], first)
  {
  }

  lemma InSessionMore(noBody: NoBody, stream: string, first: Point, points: seq<Point>, lens: seq<nat>,
                      errnos: seq<Errno>, a: Point, len: nat, e: Errno, b: Point)
    requires InSession(noBody, stream, first, points, lens, errnos, a)
    requires 0 < len && a.pos + len <= |stream| && a.pos <= b.pos && (e.OK? || e.Paused?) && !b.p.upgrade
    requires Executed(noBody, a.p, a.nread, a.log, stream[a.pos..a.pos + len], b.p, b.nread, b.log, e, b.pos - a.pos)
    ensures InSession(noBody, stream, first, points + [b], lens + [len], errnos + [e], b)
  {
    hide Continues, Executed;
    CallContinues(noBody, stream, a, len, e, b);
    SessionMore(noBody, stream, points, lens, errnos, len, e, b);
    CallComesBy(noBody, stream, a, len, e, b);
  }

  /** One call on the next len bytes, after which a paused parser is told to go on. */
  method CallOn(parser: HttpParser, stream: string, pos: nat, len: nat) returns (next: nat, ghost e: Errno)
    requires parser.Valid() && parser.errno.OK? && 0 < len && pos + len <= |stream|
    modifies parser
    ensures parser.Valid() && pos <= next <= |stream| && parser.errno == if e.Paused? then OK else e
    ensures var a, b := old(PointOf(parser, pos)), PointOf(parser, next);
            Executed(parser.app.noBody, a.p, a.nread, a.log, stream[pos..pos + len], b.p, b.nread, b.log, e, next - pos)
  {
    hide HttpParser.Valid, Executed, Canon, Stands;
    var used := parser.Execute(stream[pos..pos + len]);
    e := parser.errno;
    next := pos + used;
    if parser.errno.Paused? {
      parser.Pause(false);
    }
  }

  /** A caller that gives the parser a stream in pieces of any size and, whenever it is paused, tells it
      to go on and gives it the rest again; it stops at an error or when the protocol changes.  Its
      calls are a session, so that all of the above applies to it. */
  method Drive(parser: HttpParser, stream: string, cuts: seq<nat>)
    returns (pos: nat, ghost points: seq<Point>, ghost lens: seq<nat>, ghost errnos: seq<Errno>, ghost len: nat)
    requires parser.Valid() && parser.errno.OK?
    modifies parser
    ensures parser.Valid() && Session(parser.app.noBody, stream, points, lens, errnos)
    ensures points[0] == old(PointOf(parser, 0)) && points[|points| - 1].pos <= |stream|
    ensures parser.errno.OK? && !parser.p.upgrade ==> points[|points| - 1] == PointOf(parser, pos)
    ensures !parser.errno.OK? ==>
              Ends(parser.app.noBody, stream, points[|points| - 1], len, parser.errno, PointOf(parser, pos))
    ensures parser.errno.OK? && !parser.p.upgrade && pos == |stream| ==>
              var ahead := Ahead(parser.app.noBody, stream, points);
              && ahead <= parser.nread
              && RunBytes(parser.app.noBody, old(parser.p), old(parser.nread), old(Canon(parser.calls)), stream)
              == Run(parser.p, parser.nread - ahead, Canon(parser.calls), |stream|, Ran)
    ensures old(InPhase(parser.p, PhaseOf(parser.calls))) ==> PhaseOf(parser.calls) != Wrong
  {
    hide HttpParser.Valid, Executed, Session, Canon, RunBytes, Ahead, InPhase, PhaseOf;
    ghost var inOrder := InPhase(parser.p, PhaseOf(parser.calls));
    PhaseOfCalls(parser.calls);
    ghost var first, noBody := PointOf(parser, 0), parser.app.noBody;
    pos, points, lens, errnos, len := 0, [first], [], [], 0;
    InSessionStart(noBody, stream, first);
    var k := 0;
    while k < |cuts| && pos < |stream| && !parser.p.upgrade
      invariant k <= |cuts| && parser.Valid() && parser.errno.OK?
      invariant InSession(noBody, stream, first, points, lens, errnos, PointOf(parser, pos))
      invariant inOrder ==> InPhase(parser.p, PhaseOf(Canon(parser.calls)))
    {
      var n := if cuts[k] < |stream| - pos then cuts[k] else |stream| - pos;
      k := k + 1;
      if n > 0 {
        ghost var a, e := PointOf(parser, pos), OK;
        pos, e := CallOn(parser, stream, pos, n);
        len := n;
        PhaseOfCalls(parser.calls);
        if inOrder {
          CallInOrder(noBody, a.p, a.nread, a.log, stream[a.pos..a.pos + n],
                      parser.p, parser.nread, Canon(parser.calls), e, pos - a.pos);
        }
        if !parser.errno.OK? || parser.p.upgrade {
          return;
        }
        ghost var b := PointOf(parser, pos);
        InSessionMore(noBody, stream, first, points, lens, errnos, a, n, e, b);
        points, lens, errnos := points + [b], lens + [n], errnos + [e];
      }
    }
    PhaseOfCalls(parser.calls);
    if inOrder {
      InPhaseRight(parser.p, PhaseOf(parser.calls));
    }
    if pos == |stream| {
      SessionIsOneRun(noBody, stream, points, lens, errnos);
    }
  }
}
