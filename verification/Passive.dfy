/** The extraction mode of the passive program: the two directions of a connection are parsed in turn.
    While one waits for the end of the other's message, its parser is paused and what it has read
    stays in its buffer. */
module Passive {
  import opened HttpTypes
  import opened HttpRun
  import HP = HttpParser
  import HS = HttpSession

  const BUFFER_SIZE: nat := 1024

  /** How many messages have been completed. */
  function Ends(calls: seq<Call>): nat {
    if calls == [] then 0
    else Ends(calls[..|calls| - 1]) + if calls[|calls| - 1] == Notify(MessageComplete) then 1 else 0
  }

  /** The application pauses the parser at the end of a message, and only then. */
  ghost predicate PausesAtEnd(app: HP.App) {
    forall calls :: app.pauses(calls) <==> HP.EndsMessage(calls)
  }

  /** So a call of the parser completes a message exactly if it pauses the parser, and then just one. */
  lemma {:induction false} OneEnd(app: HP.App, before: seq<Call>, after: seq<Call>, e: Errno)
    requires PausesAtEnd(app) && HP.PauseFits(app, before, after, e)
    ensures Ends(after) == Ends(before) + if e.Paused? then 1 else 0
    decreases |after|
  {
    if |after| == |before| {
      assert after == before;
    } else {
      var prev := after[..|after| - 1];
      assert before <= prev;
      forall j | |before| < j < |prev|
        ensures !app.pauses(prev[..j])
      {
        assert prev[..j] == after[..j];
      }
      assert |before| < |prev| ==> !app.pauses(prev);
      OneEnd(app, before, prev, OK);
      assert HP.EndsMessage(after) == app.pauses(after);
    }
  }

  /** The parser, with callbacks heard, is where one parse of the bytes fed to it from those got leaves
      it; or that parse failed there, and all is heard but at most its last report. */
  ghost predicate OneParse(noBody: NoBody, kind: Kind, got: string, fed: string, p: Parser, nread: nat,
                           heard: seq<Call>, failed: Errno)
  {
    if failed.OK? then HS.Whole(noBody, Init(kind), 0, [], fed) == Run(p, nread, Canon(heard), |fed|, Ran)
    else
      var r := HS.Whole(noBody, Init(kind), 0, [], got);
      r == Run(p, nread, r.log, |fed|, Failed(failed)) && HP.ButForOne(Canon(heard), r.log, got, |fed|)
  }

  /** A call of the parser goes on with the parse. */
  lemma ParseOn(noBody: NoBody, kind: Kind, fed: string, p: Parser, nread: nat, heard: seq<Call>, data: string,
                p': Parser, nread': nat, heard': seq<Call>, e: Errno, used: nat)
    requires OneParse(noBody, kind, fed, fed, p, nread, heard, OK) && data != "" && used <= |data|
    requires HP.Executed(noBody, p, nread, Canon(heard), data, p', nread', Canon(heard'), e, used)
    requires e.Paused? ==> HP.Stands(noBody, p, nread, Canon(heard), data, p', nread', Canon(heard'), used)
    ensures OneParse(noBody, kind, fed + data, fed + data[..used], p', nread', heard', if e.Paused? then OK else e)
  {
    hide RunBytes, HP.Stands, Canon, HS.Whole;
    if e.OK? || e.Paused? {
      HS.CallInWhole(noBody, p, nread, Canon(heard), data, p', nread', Canon(heard'), e, used);
      HS.WholeSplit(noBody, Init(kind), 0, [], fed, data[..used]);
    } else {
      HS.WholeSplit(noBody, Init(kind), 0, [], fed, data);
      FailedWhole(noBody, p, nread, Canon(heard), data);
      ButForOneLater(Canon(heard'), RunBytes(noBody, p, nread, Canon(heard), data).log, fed, data, used);
    }
  }

  lemma FailedWhole(noBody: NoBody, p: Parser, nread: nat, log: Log, data: string)
    requires RunBytes(noBody, p, nread, log, data).stop.Failed?
    ensures HS.Whole(noBody, p, nread, log, data) == RunBytes(noBody, p, nread, log, data)
  {
  }

  lemma ButForOneLater(log: Log, full: Log, fed: string, data: string, used: nat)
    requires HP.ButForOne(log, full, data, used)
    ensures HP.ButForOne(log, full, fed + data, |fed| + used)
  {
    var d, k: nat :| k <= used && full == Grown(log, d, data[k..used]);
    assert (fed + data)[|fed| + k..|fed| + used] == data[k..used];
  }

  /** What is read later does not matter to what was parsed. */
  lemma GotMore(noBody: NoBody, kind: Kind, got: string, more: string, fed: string, p: Parser, nread: nat,
                heard: seq<Call>, failed: Errno)
    requires OneParse(noBody, kind, got, fed, p, nread, heard, failed)
    ensures OneParse(noBody, kind, got + more, fed, p, nread, heard, failed)
  {
    hide HS.Whole, Canon;
    if !failed.OK? {
      HS.WholeSplit(noBody, Init(kind), 0, [], got, more);
      var full := HS.Whole(noBody, Init(kind), 0, [], got).log;
      var d, k: nat :| k <= |fed| && full == Grown(Canon(heard), d, got[k..|fed|]);
      assert (got + more)[k..|fed|] == got[k..|fed|];
    }
  }

  lemma OkParse(noBody: NoBody, kind: Kind, got: string, fed: string, p: Parser, nread: nat, heard: seq<Call>)
    requires OneParse(noBody, kind, got, fed, p, nread, heard, OK)
    ensures OneParse(noBody, kind, fed, fed, p, nread, heard, OK)
  {
  }

  /** A call is paused at the end of a message only. */
  lemma PausedAtEnd(app: HP.App, before: seq<Call>, after: seq<Call>, e: Errno)
    requires PausesAtEnd(app) && HP.PauseFits(app, before, after, e)
    ensures e.Paused? ==> HP.EndsMessage(after)
  {
  }

  /** The end of the stream pauses the parser if it completes a message. */
  lemma EofPauses(app: HP.App, s: State, before: seq<Call>, after: seq<Call>, e: Errno)
    requires PausesAtEnd(app) && HP.PauseFits(app, before, after, e)
    requires exists n: nat :: HP.AtEof(s, before, after, e, n)
    ensures e.Paused? == s.BodyIdentityEof?
  {
    assert s.BodyIdentityEof? ==> HP.EndsMessage(after);
  }

  /** http_parser_execute on bytes that follow those fed to the parser so far. */
  method CallParser(parser: HP.HttpParser, ghost kind: Kind, ghost fed: string, data: string) returns (used: nat)
    requires parser.Valid() && parser.errno.OK? && PausesAtEnd(parser.app) && data != ""
    requires OneParse(parser.app.noBody, kind, fed, fed, parser.p, parser.nread, parser.calls, OK)
    modifies parser
    ensures parser.Valid() && used <= |data| && (parser.errno.OK? || parser.errno.Paused? ==> used > 0)
    ensures Ends(parser.calls) == Ends(old(parser.calls)) + if parser.errno.Paused? then 1 else 0
    ensures OneParse(parser.app.noBody, kind, fed + data, fed + data[..used], parser.p, parser.nread, parser.calls,
                     if parser.errno.Paused? then OK else parser.errno)
  {
    hide HP.HttpParser.Valid, HP.Executed, HP.Stands, OneParse, Ends, Canon;
    ghost var before, p, nread := parser.calls, parser.p, parser.nread;
    used := parser.Execute(data);
    OneEnd(parser.app, before, parser.calls, parser.errno);
    PausedAtEnd(parser.app, before, parser.calls, parser.errno);
    ParseOn(parser.app.noBody, kind, fed, p, nread, before, data, parser.p, parser.nread, parser.calls, parser.errno,
            used);
  }

  /** struct connection_context */
  class Conn {
    const parser: HP.HttpParser
    const buffer: array<char>
    var count: nat
    var index: nat
    var watching: bool
    ghost var got: string  // all that was read from the socket
    ghost var fed: string  // all that the parser consumed
    ghost const kind: Kind
    ghost var heard: seq<Call>  // the callbacks made while parsing
    ghost var failed: Errno     // the error that ended the parsing, or OK
    ghost var over: bool        // the parser was told of the end of the stream

    /** The callbacks are those of one parse of the bytes consumed, but for what the end of the stream
        adds to them. */
    ghost predicate Heard()
      reads this`got, this`fed, this`heard, this`failed, this`over, parser
    {
      && OneParse(parser.app.noBody, kind, got, fed, parser.p, parser.nread, heard, failed)
      && if over then parser.calls == heard || parser.calls == heard + [Notify(MessageComplete)]
         else
           && parser.calls == heard
           && if failed.OK? then parser.errno.OK? || parser.errno.Paused? else parser.errno == failed && !failed.Paused?
    }

    /** What was read and not yet parsed is in the buffer, in one piece. */
    ghost predicate Valid()
      reads this`count, this`index, this`got, this`fed, this`heard, this`failed, this`over, buffer, parser
    {
      && Heard()
      && parser.Valid() && PausesAtEnd(parser.app)
      && buffer.Length == BUFFER_SIZE && index < buffer.Length && index + count <= buffer.Length
      && got == fed + buffer[index..index + count]
    }

    /** create_conn */
    constructor (kind: Kind, noBody: NoBody)
      ensures Valid() && count == 0 && !watching && got == "" && !over && this.kind == kind && fresh(buffer)
      ensures fresh(parser)
      ensures parser.errno.OK? && parser.p == Init(kind) && parser.calls == []
    {
      parser := new HP.HttpParser(kind, HP.App(calls => HP.EndsMessage(calls), noBody));
      buffer := new char[BUFFER_SIZE](_ => '\0');
      count, index, watching, got, fed := 0, 0, false, "", "";
      this.kind, heard, failed, over := kind, [], OK, false;
    }

    /** The bytes that the parser takes leave the buffer. */
    ghost method Consume(used: nat)
      requires used <= count && index + count <= buffer.Length && got == fed + buffer[index..index + count]
      modifies this`fed
      ensures got == fed + buffer[index + used..index + count] && fed == old(fed) + buffer[index..index + used]
    {
      assert buffer[index..index + count] == buffer[index..index + used] + buffer[index + used..index + count];
      fed := fed + buffer[index..index + used];
    }

    /** Give the parser what is in the buffer. */
    method Feed() returns (used: nat)
      requires Valid() && count > 0 && parser.errno.OK? && !over
      modifies this`fed, this`heard, this`failed, parser
      ensures Heard() && parser.Valid() && used <= count && got == fed + buffer[index + used..index + count]
      ensures parser.errno.OK? || parser.errno.Paused? ==> used > 0
      ensures Ends(parser.calls) == Ends(old(parser.calls)) + if parser.errno.Paused? then 1 else 0
    {
      hide HP.HttpParser.Valid, OneParse, Ends, PausesAtEnd;
      var n := if count < buffer.Length - index then count else buffer.Length - index;
      var data := buffer[index..index + n];
      OkParse(parser.app.noBody, kind, got, fed, parser.p, parser.nread, heard);
      used := CallParser(parser, kind, fed, data);
      assert data[..used] == buffer[index..index + used] && fed + data == got;
      Consume(used);
      heard, failed := parser.calls, if parser.errno.Paused? then OK else parser.errno;
    }

    /** The body of the loop in passive_extract_parse_buffer. */
    method ParseOnce()
      requires Valid() && count > 0 && parser.errno.OK? && !over
      modifies this`count, this`index, this`fed, this`heard, this`failed, parser
      ensures Valid() && count <= old(count) && (parser.errno.OK? || parser.errno.Paused? ==> count < old(count))
      ensures Ends(parser.calls) == Ends(old(parser.calls)) + if parser.errno.Paused? then 1 else 0
    {
      hide HP.HttpParser.Valid, OneParse, Ends, PausesAtEnd;
      var used := Feed();
      count := count - used;
      index := index + used;
      if index == buffer.Length {
        index := 0;
      }
    }

    /** passive_extract_parse_buffer: parse until the buffer is empty or the parser stops. */
    method ParseBuffer()
      requires Valid() && !over
      modifies this`count, this`index, this`fed, this`heard, this`failed, parser
      ensures Valid() && count <= old(count) && (parser.errno.OK? ==> count == 0)
      ensures !old(parser.errno).OK? || old(count) == 0 ==>
                && count == old(count) && parser.errno == old(parser.errno)
                && parser.calls == old(parser.calls) && parser.p == old(parser.p)
      ensures old(parser.errno).OK? ==>
                Ends(parser.calls) == Ends(old(parser.calls)) + if parser.errno.Paused? then 1 else 0
      ensures old(parser.errno).OK? && parser.errno.Paused? ==> count < old(count)
    {
      hide HP.HttpParser.Valid, Ends, PausesAtEnd, OneParse;
      while count > 0 && parser.errno.OK?
        invariant Valid() && count <= old(count)
        invariant !old(parser.errno).OK? || old(count) == 0 ==>
          && count == old(count) && parser.errno == old(parser.errno)
          && parser.calls == old(parser.calls) && parser.p == old(parser.p)
        invariant old(parser.errno).OK? ==>
          Ends(parser.calls) == Ends(old(parser.calls)) + if parser.errno.Paused? then 1 else 0
        invariant old(parser.errno).OK? && parser.errno.Paused? ==> count < old(count)
        decreases count, parser.errno.OK?
      {
        ParseOnce();
      }
    }

    /** Read into the empty buffer, as much as fits behind the index. */
    method Read(bytes: string) returns (n: nat)
      requires Valid() && count == 0
      modifies this`count, this`got, buffer
      ensures Valid() && n <= |bytes| && (bytes != "" ==> n > 0) && count == n && got == old(got) + bytes[..n]
    {
      hide HP.HttpParser.Valid, PausesAtEnd, OneParse;
      n := if |bytes| < buffer.Length - index then |bytes| else buffer.Length - index;
      forall k | 0 <= k < n {
        buffer[index + k] := bytes[k];
      }
      count := n;
      GotMore(parser.app.noBody, kind, got, bytes[..n], fed, parser.p, parser.nread, heard, failed);
      got := got + bytes[..n];
      assert buffer[index..index + n] == bytes[..n];
    }

    /** Whether the parser may be told to go on, and is doing nothing until then. */
    ghost predicate Waits()
      reads this`count, parser
    {
      parser.errno.Paused? || (parser.errno.OK? && count == 0 && (parser.p.state.StartReq? || parser.p.state.StartRes?))
    }

    /** http_parser_pause with 0 */
    method Unpause()
      requires Valid() && Waits() && !over
      modifies parser`errno
      ensures Valid() && parser.errno.OK?
    {
      hide PausesAtEnd, OneParse;
      parser.Pause(false);
    }

    /** The parser is in use, in a message that the end of the stream completes. */
    predicate EndsAtEof()
      reads parser
    {
      parser.errno.OK? && parser.p.state.BodyIdentityEof?
    }

    /** Deliver the end of the stream, on which no work is done unless the parser is in use. */
    method Eof()
      requires Valid() && !over
      modifies parser, this`over
      ensures Valid() && over
      ensures Ends(parser.calls)
           == Ends(old(parser.calls)) + if old(EndsAtEof()) then 1 else 0
      ensures old(parser.errno).OK? ==> parser.errno.Paused? == old(EndsAtEof())
    {
      hide HP.HttpParser.Valid, Ends, OneParse;
      ghost var before := parser.calls;
      over := true;
      var _ := parser.Execute("");
      if old(parser.errno).OK? {
        OneEnd(parser.app, before, parser.calls, parser.errno);
        EofPauses(parser.app, old(parser.p.state), before, parser.calls, parser.errno);
      }
    }
  }

  /** Requests and responses are completed in turn. */
  predicate Alternates(done: seq<Kind>) {
    forall k :: 0 <= k < |done| ==> done[k] == if k % 2 == 0 then Request else Response
  }

  /** The two directions of a connection. */
  class Pair {
    const req: Conn
    const resp: Conn
    var done: seq<Kind>  // the messages completed, in order
    var closed: bool

    ghost predicate Apart()
    {
      req != resp && req.parser != resp.parser && req.buffer != resp.buffer
    }

    /** All that holds at any time: the messages were completed in turn. */
    ghost predicate Sound()
      reads this`done, req`count, req`index, req`got, req`fed, req`heard, req`failed, req`over,
            resp`count, resp`index, resp`got, resp`fed, resp`heard, resp`failed, resp`over,
            req.parser, resp.parser, req.buffer, resp.buffer
    {
      && Apart() && req.Valid() && resp.Valid() && req.kind == Request && resp.kind == Response && Alternates(done)
      && Ends(req.parser.calls) == (|done| + 1) / 2 && Ends(resp.parser.calls) == |done| / 2
    }

    predicate Roles(conn: Conn, peer: Conn)
    {
      (conn == req && peer == resp) || (conn == resp && peer == req)
    }

    /** The next message to be completed is of this direction. */
    predicate TurnOf(conn: Conn)
      reads this`done
    {
      if |done| % 2 == 0 then conn == req else conn == resp
    }

    /** It is conn's turn, its watcher is the one that is started, and the peer waits. */
    ghost predicate Going(conn: Conn, peer: Conn)
      reads this, req, resp, req.parser, resp.parser, req.buffer, resp.buffer
    {
      && Sound() && Roles(conn, peer) && TurnOf(conn) && !closed && !conn.over && !peer.over
      && conn.watching && !peer.watching && conn.parser.errno.OK? && peer.Waits()
    }

    /** Between callbacks: moreover, nothing is left in conn's buffer. */
    ghost predicate Ready(conn: Conn, peer: Conn)
      reads this, req, resp, req.parser, resp.parser, req.buffer, resp.buffer
    {
      Going(conn, peer) && conn.count == 0
    }

    constructor (noBody: NoBody)
      ensures Ready(req, resp) && done == [] && fresh(req) && fresh(resp)
    {
      hide PausesAtEnd, OneParse, HP.HttpParser.Valid;
      req := new Conn(Request, noBody);
      resp := new Conn(Response, noBody);
      done, closed := [], false;
      new;
      req.watching := true;
    }

    function KindOf(conn: Conn): Kind
    {
      if conn == req then Request else Response
    }

    /** Parse what is in conn's buffer, and note if that completes a message. */
    method Parse(conn: Conn, peer: Conn)
      requires Sound() && Roles(conn, peer) && TurnOf(conn) && conn.parser.errno.OK? && !conn.over
      modifies this`done, conn`count, conn`index, conn`fed, conn`heard, conn`failed, conn.parser
      ensures Sound() && (if conn.parser.errno.Paused? then TurnOf(peer) else TurnOf(conn))
      ensures done == if conn.parser.errno.Paused? then old(done) + [KindOf(conn)] else old(done)
      ensures conn.count <= old(conn.count) && (conn.parser.errno.OK? ==> conn.count == 0)
      ensures conn.parser.errno.Paused? ==> conn.count < old(conn.count)
      ensures old(conn.count) == 0 ==> conn.parser.errno == old(conn.parser.errno)
    {
      hide Ends, PausesAtEnd, OneParse, HP.HttpParser.Valid;
      conn.ParseBuffer();
      if conn.parser.errno.Paused? {
        done := done + [KindOf(conn)];
      }
    }

    /** Tell conn's parser of the end, and note if that completes a message. */
    method End(conn: Conn, peer: Conn)
      requires Sound() && Roles(conn, peer) && (TurnOf(conn) || !conn.parser.errno.OK? || conn.Waits()) && !conn.over
      modifies this`done, conn.parser, conn`over
      ensures Sound() && conn.over && done == old(done) + if old(conn.EndsAtEof()) then [KindOf(conn)] else []
    {
      hide Ends, PausesAtEnd, OneParse, HP.HttpParser.Valid;
      var was := conn.parser.errno;
      conn.Eof();
      if was.OK? && conn.parser.errno.Paused? {
        done := done + [KindOf(conn)];
      }
    }

    /** The end: both parsers are told of it. */
    method Shutdown(conn: Conn, peer: Conn)
      requires Sound() && Roles(conn, peer) && !closed && !conn.over && !peer.over
      requires (TurnOf(conn) || conn.parser.errno.Paused?) && (!peer.parser.errno.OK? || peer.Waits())
      modifies this`done, this`closed, conn`watching, conn`over, peer`watching, peer`over, conn.parser, peer.parser
      ensures Sound() && closed && conn.over && peer.over && !conn.watching && !peer.watching
      ensures done == old(done) + if old(conn.EndsAtEof()) then [KindOf(conn)] else []
    {
      hide Conn.Valid, Ends;
      End(conn, peer);
      End(peer, conn);
      conn.watching, peer.watching, closed := false, false, true;
    }

    /** The turn passes to the peer, which parses what it has. */
    method Continue(peer: Conn, conn: Conn)
      requires Sound() && Roles(conn, peer) && TurnOf(peer) && peer.Waits() && !peer.over
      modifies this`done, peer`count, peer`index, peer`fed, peer`heard, peer`failed, peer.parser
      ensures Sound() && (if peer.parser.errno.Paused? then TurnOf(conn) else TurnOf(peer))
      ensures done == if peer.parser.errno.Paused? then old(done) + [KindOf(peer)] else old(done)
      ensures peer.parser.errno.OK? ==> peer.count == 0
    {
      hide Conn.Valid, Ends;
      peer.Unpause();
      Parse(peer, conn);
    }

    /** Some parser has failed. */
    ghost predicate Broke()
      reads req`failed, resp`failed
    {
      !req.failed.OK? || !resp.failed.OK?
    }

    /** Until the end of the stream, a parser that failed shows it. */
    lemma BrokeShows()
      requires Sound() && !req.over && !resp.over
      ensures !Broke() <==> && (req.parser.errno.OK? || req.parser.errno.Paused?)
                            && (resp.parser.errno.OK? || resp.parser.errno.Paused?)
    {
      hide Ends, PausesAtEnd, OneParse, HP.HttpParser.Valid;
    }

    /** A round of the loop in passive_extract_cb; more: whether there is another one.  Either conn's
        message goes on, or it is completed and the peer's goes on, or both are completed; or one fails. */
    method Cycle(conn: Conn, peer: Conn) returns (more: bool)
      requires Going(conn, peer)
      modifies this`done, this`closed, conn`count, conn`index, conn`fed, conn`heard, conn`failed, peer`count,
               peer`index, peer`fed, peer`heard, peer`failed,
               conn`watching, peer`watching, conn`over, peer`over, conn.parser, peer.parser
      ensures Sound() && (closed ==> !more) && conn.count <= old(conn.count) && closed == Broke()
      ensures closed ==> done == old(done) || done == old(done) + [KindOf(conn)]
      ensures !closed ==>
                || (!more && done == old(done) && Ready(conn, peer))
                || (!more && done == old(done) + [KindOf(conn)] && Ready(peer, conn))
                || (done == old(done) + [KindOf(conn), KindOf(peer)] && Going(conn, peer)
                    && conn.count < old(conn.count) && more == (conn.count > 0))
    {
      hide Conn.Valid, Ends;
      more := false;
      BrokeShows();
      Parse(conn, peer);
      BrokeShows();
      if conn.parser.errno.OK? {
        return;
      }
      if !conn.parser.errno.Paused? {
        Shutdown(conn, peer);
        return;
      }
      Continue(peer, conn);
      BrokeShows();
      if peer.parser.errno.OK? {
        conn.watching, peer.watching := false, true;
      } else if !peer.parser.errno.Paused? {
        Shutdown(conn, peer);
      } else {
        conn.Unpause();
        more := conn.count > 0;
      }
    }

    /** passive_extract_cb: bytes is what the socket has; broken: it cannot be read, or has a hole. */
    method ExtractCb(conn: Conn, peer: Conn, broken: bool, bytes: string) returns (n: nat)
      requires Ready(conn, peer)
      modifies this`done, this`closed, conn`count, conn`index, conn`fed, conn`heard, conn`failed, conn`got,
               peer`count, peer`index, peer`fed, peer`heard, peer`failed,
               conn`watching, peer`watching, conn`over, peer`over, conn.parser, peer.parser, conn.buffer
      ensures Sound() && closed == (broken || Broke())
      ensures closed || Ready(conn, peer) || Ready(peer, conn)
      ensures old(done) <= done
      ensures broken ==> done == old(done) + if old(conn.EndsAtEof()) then [KindOf(conn)] else []
      ensures n <= |bytes| && conn.got == old(conn.got) + bytes[..n] && peer.got == old(peer.got)
      ensures n == 0 <==> broken || bytes == ""
    {
      hide Conn.Valid, Ends;
      n := 0;
      if broken {
        Shutdown(conn, peer);
        return;
      }
      BrokeShows();
      n := ReadTo(conn, peer, bytes);
      var more := true;
      while more
        invariant Sound() && old(done) <= done && (closed ==> !more) && closed == Broke()
        invariant !closed && more ==> Going(conn, peer)
        invariant !closed && !more ==> Ready(conn, peer) || Ready(peer, conn)
        invariant conn.got == old(conn.got) + bytes[..n] && peer.got == old(peer.got)
        decreases conn.count, more
      {
        more := Cycle(conn, peer);
      }
    }

    method ReadTo(conn: Conn, peer: Conn, bytes: string) returns (n: nat)
      requires Ready(conn, peer)
      modifies conn`count, conn`got, conn.buffer
      ensures Going(conn, peer) && n <= |bytes| && conn.got == old(conn.got) + bytes[..n]
      ensures n == 0 <==> bytes == ""
    {
      hide Ends, PausesAtEnd, OneParse, HP.HttpParser.Valid;
      n := conn.Read(bytes);
    }

    /** Any sequence of callbacks: the one watcher that is started is called with what its socket has.
        read: what was taken of each input, and in which direction. */
    method Serve(inputs: seq<(bool, string)>) returns (read: seq<(Kind, string)>)
      requires Ready(req, resp)
      modifies this`done, this`closed, req, resp, req.parser, resp.parser, req.buffer, resp.buffer
      ensures Sound() && (closed || Ready(req, resp) || Ready(resp, req)) && old(done) <= done
      ensures |read| <= |inputs| && (|read| < |inputs| ==> closed)
      ensures closed <==> (exists k :: 0 <= k < |read| && inputs[k].0) || Broke()
      ensures forall k :: 0 <= k < |read| ==> TakenOf(inputs[k], read[k].1)
      ensures req.got == old(req.got) + Joined(read, Request) && resp.got == old(resp.got) + Joined(read, Response)
    {
      hide Conn.Valid, Ends, Sound, Ready;
      read := [];
      NotBroke();
      while |read| < |inputs| && !closed
        invariant |read| <= |inputs| && Sound() && (closed || Ready(req, resp) || Ready(resp, req)) && old(done) <= done
        invariant closed <==> (exists k :: 0 <= k < |read| && inputs[k].0) || Broke()
        invariant forall k :: 0 <= k < |read| ==> TakenOf(inputs[k], read[k].1)
        invariant req.got == old(req.got) + Joined(read, Request) && resp.got == old(resp.got) + Joined(read, Response)
        decreases |inputs| - |read|
      {
        var r := ServeOne(inputs[|read|]);
        JoinedMore(read, r);
        read := read + [r];
      }
    }

    lemma NotBroke()
      requires Ready(req, resp) || Ready(resp, req)
      ensures !Broke() && Sound() && !closed
    {
      hide Conn.Valid, Ends;
      BrokeShows();
    }

    /** One callback. */
    method ServeOne(input: (bool, string)) returns (r: (Kind, string))
      requires Ready(req, resp) || Ready(resp, req)
      modifies this`done, this`closed, req, resp, req.parser, resp.parser, req.buffer, resp.buffer
      ensures Sound() && (closed || Ready(req, resp) || Ready(resp, req)) && old(done) <= done
      ensures closed == (input.0 || Broke()) && TakenOf(input, r.1)
      ensures req.got == old(req.got) + if r.0 == Request then r.1 else ""
      ensures resp.got == old(resp.got) + if r.0 == Response then r.1 else ""
    {
      hide Conn.Valid, Ends;
      var (broken, bytes) := input;
      if req.watching {
        var n := ExtractCb(req, resp, broken, bytes);
        r := (Request, bytes[..n]);
      } else {
        var n := ExtractCb(resp, req, broken, bytes);
        r := (Response, bytes[..n]);
      }
    }
  }

  lemma JoinedMore(read: seq<(Kind, string)>, r: (Kind, string))
    ensures forall kind :: Joined(read + [r], kind) == Joined(read, kind) + if r.0 == kind then r.1 else ""
  {
    assert (read + [r])[..|read|] == read;
  }

  /** Of what the socket has, some is taken unless it cannot be read. */
  predicate TakenOf(input: (bool, string), taken: string) {
    taken <= input.1 && (taken == "" <==> input.0 || input.1 == "")
  }

  /** All that was read in one direction. */
  function Joined(read: seq<(Kind, string)>, kind: Kind): string {
    if read == [] then "" else
      Joined(read[..|read| - 1], kind) + if read[|read| - 1].0 == kind then read[|read| - 1].1 else ""
  }
}
