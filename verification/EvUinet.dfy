/** How sockets of the user-space stack reach the event loop: upcalls from stack threads put a socket
    on a pending list and send the loop an async event; the loop drains the list, inhibits the upcalls
    of the sockets it found there while their watchers run, and enables them again before it next
    waits.  The threads' steps interleave in any order.  A step is one access to data that threads
    share; what touches only the loop's own data is merged with the step before it. */
module EvUinet {

  datatype Side = Rcv | Snd

  /** struct ev_uinet; events are the sides it waits for. */
  datatype Watcher = Watcher(id: nat, events: set<Side>)

  /** A socket and its struct ev_uinet_ctx.  pend_flags are pending, inhibited and events. */
  datatype Ctx = Ctx(
    ready: set<Side>,            // readable, writable
    installed: set<Side>,        // the upcalls set
    pending: bool,
    inhibited: bool,
    events: set<Side>,
    readers: nat,
    writers: nat,
    head: seq<Watcher>)

  function Num(c: Ctx, d: Side): nat { if d.Rcv? then c.readers else c.writers }

  /** The three parts of uinet_socket_events, all under uinet_pend_lock. */
  datatype Part = Insert | Announce | Mark(added: bool)

  /** Where a stack thread is that wakes a side of a socket. */
  datatype WakePc =
    | Arrive              // take the lock of the socket buffer, and look for an upcall
    | Filter              // in the upcall: check readiness
    | Post(part: Part)

  datatype Wake = Wake(so: nat, side: Side, pc: WakePc)

  /** Where the loop goes on after it started or stopped a watcher, or dealt with a socket. */
  datatype Back = ToPrepare(reenabled: bool) | ToInvoke(scanned: bool) | ToRevisit(rest: seq<nat>)

  datatype LoopPc =
    | Prepare(reenabled: bool)   // before the wait; callbacks may run
    | Waiting
    | Invoke(scanned: bool)      // after the wait; callbacks may run, pipecb once
    | Arm(so: nat, sides: seq<Side>, look: bool, found: set<Side>, back: Back)
    | Report(so: nat, found: set<Side>, part: Part, back: Back)
    | Disarm(so: nat, sides: seq<Side>, w: Watcher, back: Back)
    | Unlink(so: nat, w: Watcher, back: Back)
    | Swap
    | Visit(rest: seq<nat>)
    | Quell(so: nat, sides: seq<Side>, rest: seq<nat>)
    | Deliver(so: nat, rest: seq<nat>)
    | Revisit(rest: seq<nat>)

  datatype Lock = Free | ByWake(tid: nat) | ByBatch | ByLoop

  datatype Feed = Feed(so: nat, w: Watcher, events: set<Side>)

  datatype State = State(
    socks: map<nat, Ctx>,
    pend: seq<nat>,
    prev: seq<nat>,
    lock: Lock,
    inBatch: nat,
    sent: bool,                  // the async event is sent
    queued: bool,                // the async watcher is pending in the loop
    wakes: map<nat, Wake>,
    loop: LoopPc,
    fed: seq<Feed>)

  const NOTHING := Ctx({}, {}, false, false, {}, 0, 0, [])

  ghost predicate Start(s: State) {
    && (forall so <- s.socks :: s.socks[so] == NOTHING.(ready := s.socks[so].ready))
    && s.pend == [] && s.prev == [] && s.lock == Free && s.inBatch == 0 && !s.sent && !s.queued
    && s.wakes == map[] && s.loop == Prepare(false) && s.fed == []
  }

  // ----- steps

  datatype Step =
    | Wakeup(tid: nat, so: nat, side: Side, ready: bool)
    | Unready(so: nat, side: Side)
    | WakeGo(tid: nat)
    | BatchStart | BatchFinish | BatchSend
    | Reenable | Wait | Polled | Scan | Drain | Iterate
    | StartWatcher(so: nat, w: Watcher) | StopWatcher(so: nat, k: nat)
    | LoopGo

  /** No upcall of this side is running. */
  ghost predicate SideFree(s: State, so: nat, d: Side) {
    forall t <- s.wakes :: s.wakes[t].so == so && s.wakes[t].side == d ==> s.wakes[t].pc.Arrive?
  }

  predicate Resting(l: LoopPc) { l.Prepare? || l.Invoke? }

  function BackOf(l: LoopPc): Back
    requires Resting(l)
  {
    if l.Prepare? then ToPrepare(l.reenabled) else ToInvoke(l.scanned)
  }

  function Return(b: Back): LoopPc {
    match b
    case ToPrepare(reenabled) => Prepare(reenabled)
    case ToInvoke(scanned) => Invoke(scanned)
    case ToRevisit(rest) => Revisit(rest)
  }

  /** The sides in order, Rcv first, that satisfy a condition. */
  function Sides(rcv: bool, snd: bool): seq<Side> {
    (if rcv then [Rcv] else []) + (if snd then [Snd] else [])
  }

  function With(s: State, so: nat, c: Ctx): State { s.(socks := s.socks[so := c]) }

  ghost predicate WakeEnabled(s: State, tid: nat) {
    tid in s.wakes && s.wakes[tid].so in s.socks &&
    var x := s.wakes[tid];
    match x.pc
    case Arrive => SideFree(s, x.so, x.side)
    case Filter => true
    case Post(part) => part.Insert? ==> s.lock.Free?
  }

  function Advance(s: State, tid: nat, pc: WakePc): State
    requires tid in s.wakes
  {
    s.(wakes := s.wakes[tid := s.wakes[tid].(pc := pc)])
  }

  function Inserted(s: State, tid: nat): State
    requires tid in s.wakes && s.wakes[tid].so in s.socks
  {
    var so := s.wakes[tid].so;
    if s.socks[so].pending then Advance(s, tid, Post(Mark(false))).(lock := ByWake(tid))
    else Advance(s, tid, Post(Announce)).(lock := ByWake(tid), pend := [so] + s.pend)
  }

  function Announced(s: State, tid: nat): State
    requires tid in s.wakes
  {
    Advance(s, tid, Post(Mark(true))).(sent := s.sent || s.inBatch == 0)
  }

  function Marked(s: State, tid: nat, added: bool): State
    requires tid in s.wakes && s.wakes[tid].so in s.socks
  {
    var x := s.wakes[tid];
    var c := s.socks[x.so];
    With(s, x.so, c.(pending := c.pending || added, events := c.events + {x.side})).(
      lock := Free, wakes := s.wakes - {tid})
  }

  /** One step of a stack thread. */
  function WakeStep(s: State, tid: nat): (r: State)
    requires tid in s.wakes && s.wakes[tid].so in s.socks
    ensures r.fed == s.fed && r.inBatch == s.inBatch
  {
    var x := s.wakes[tid];
    var c := s.socks[x.so];
    if x.pc.Arrive? then if x.side in c.installed then Advance(s, tid, Filter) else s.(wakes := s.wakes - {tid})
    else if x.pc.Filter? then if x.side in c.ready then Advance(s, tid, Post(Insert)) else s.(wakes := s.wakes - {tid})
    else if x.pc.part.Insert? then Inserted(s, tid)
    else if x.pc.part.Announce? then Announced(s, tid)
    else Marked(s, tid, x.pc.part.added)
  }

  /** The first element of the list taken out, where it occurs. */
  function Minus(list: seq<nat>, so: nat): seq<nat> {
    if list == [] then [] else if list[0] == so then list[1..] else [list[0]] + Minus(list[1..], so)
  }

  function Dropped(head: seq<Watcher>, w: Watcher): seq<Watcher> {
    if head == [] then [] else if head[0] == w then head[1..] else [head[0]] + Dropped(head[1..], w)
  }

  /** What the watchers of a socket are fed. */
  function Feeds(so: nat, head: seq<Watcher>, events: set<Side>): seq<Feed> {
    if head == [] then []
    else
      var hit := head[0].events * events;
      (if hit != {} then [Feed(so, head[0], hit)] else []) + Feeds(so, head[1..], events)
  }

  /** The socket that the loop is dealing with. */
  predicate HasSocket(l: LoopPc) {
    l.Arm? || l.Report? || l.Disarm? || l.Unlink? || l.Quell? || l.Deliver?
  }

  ghost predicate LoopEnabled(s: State) {
    var l := s.loop;
    && !Resting(l) && !l.Waiting?
    && (HasSocket(l) ==> l.so in s.socks)
    && (l.Visit? || l.Revisit? ==> l.rest != [] ==> l.rest[0] in s.socks)
    && ((l.Arm? && !l.look) || l.Disarm? || l.Quell? ==> l.sides != [] ==> SideFree(s, l.so, l.sides[0]))
    && ((l.Report? && l.part.Insert?) || l.Unlink? || l.Swap? ==> s.lock.Free?)
  }

  /** Set the upcall of a side, then look whether it is ready. */
  function ArmStep(s: State): (r: State)
    requires s.loop.Arm? && s.loop.so in s.socks
    ensures r.fed == s.fed && r.inBatch == s.inBatch
  {
    var l, c := s.loop, s.socks[s.loop.so];
    if l.sides == [] then s.(loop := if l.found == {} then Return(l.back) else Report(l.so, l.found, Insert, l.back))
    else if !l.look then
      With(s, l.so, c.(installed := c.installed + {l.sides[0]})).(loop := Arm(l.so, l.sides, true, l.found, l.back))
    else
      var found := l.found + if l.sides[0] in c.ready then {l.sides[0]} else {};
      s.(loop := Arm(l.so, l.sides[1..], false, found, l.back))
  }

  /** uinet_socket_events in the loop's thread. */
  function ReportStep(s: State): (r: State)
    requires s.loop.Report? && s.loop.so in s.socks
    ensures r.fed == s.fed && r.inBatch == s.inBatch
  {
    var l, c := s.loop, s.socks[s.loop.so];
    match l.part
    case Insert =>
      if c.pending then s.(lock := ByLoop, loop := Report(l.so, l.found, Mark(false), l.back))
      else s.(lock := ByLoop, pend := [l.so] + s.pend, loop := Report(l.so, l.found, Announce, l.back))
    case Announce => s.(sent := s.sent || s.inBatch == 0, loop := Report(l.so, l.found, Mark(true), l.back))
    case Mark(added) =>
      With(s, l.so, c.(pending := c.pending || added, events := c.events + l.found)).(
        lock := Free, loop := Return(l.back))
  }

  /** Clear the upcalls of a watcher that is stopped. */
  function DisarmStep(s: State): (r: State)
    requires s.loop.Disarm? && s.loop.so in s.socks
    ensures r.fed == s.fed && r.inBatch == s.inBatch
  {
    var l, c := s.loop, s.socks[s.loop.so];
    if l.sides == [] then s.(loop := Unlink(l.so, l.w, l.back))
    else With(s, l.so, c.(installed := c.installed - {l.sides[0]})).(loop := Disarm(l.so, l.sides[1..], l.w, l.back))
  }

  /** Take the watcher off the socket's list, and with the last one the socket off the loop's lists. */
  function UnlinkStep(s: State): (r: State)
    requires s.loop.Unlink? && s.loop.so in s.socks
    ensures r.fed == s.fed && r.inBatch == s.inBatch
  {
    var l, c := s.loop, s.socks[s.loop.so];
    var head := Dropped(c.head, l.w);
    if head != [] then With(s, l.so, c.(head := head)).(loop := Return(l.back))
    else
      With(s, l.so, c.(head := [], pending := false, inhibited := false, events := {})).(
        prev := if c.inhibited then Minus(s.prev, l.so) else s.prev,
        pend := if !c.inhibited && c.pending then Minus(s.pend, l.so) else s.pend,
        loop := Return(l.back))
  }

  /** uinet_process_pending_list: take the next socket, clear its upcalls, and feed its watchers. */
  function DrainStep(s: State): (r: State)
    requires s.loop.Swap? || s.loop.Visit? || s.loop.Quell? || s.loop.Deliver?
    requires (s.loop.Quell? || s.loop.Deliver? ==> s.loop.so in s.socks)
    requires s.loop.Visit? && s.loop.rest != [] ==> s.loop.rest[0] in s.socks
    ensures s.fed <= r.fed && r.inBatch == s.inBatch
  {
    var l := s.loop;
    if l.Swap? then s.(pend := s.prev, prev := s.pend, loop := Visit(s.pend))
    else if l.Visit? then
      if l.rest == [] then s.(loop := Invoke(true))
      else
        var c := s.socks[l.rest[0]];
        s.(loop := Quell(l.rest[0], Sides(c.readers > 0, c.writers > 0), l.rest[1..]))
    else if l.Quell? then
      var c := s.socks[l.so];
      if l.sides == [] then s.(loop := Deliver(l.so, l.rest))
      else With(s, l.so, c.(installed := c.installed - {l.sides[0]})).(loop := Quell(l.so, l.sides[1..], l.rest))
    else
      var c := s.socks[l.so];
      With(s, l.so, c.(pending := false, inhibited := true, events := {})).(
        fed := s.fed + Feeds(l.so, c.head, c.events), loop := Visit(l.rest))
  }

  /** uinet_reenable_upcalls: take the next socket. */
  function RevisitStep(s: State): (r: State)
    requires s.loop.Revisit? && (s.loop.rest != [] ==> s.loop.rest[0] in s.socks)
    ensures r.fed == s.fed && r.inBatch == s.inBatch
  {
    var l := s.loop;
    if l.rest == [] then s.(loop := Prepare(true))
    else
      var c := s.socks[l.rest[0]];
      With(s, l.rest[0], c.(pending := false, inhibited := false, events := {})).(
        prev := l.rest[1..],
        loop := Arm(l.rest[0], Sides(c.readers > 0, c.writers > 0), false, {}, ToRevisit(l.rest[1..])))
  }

  /** One step of the loop inside one of its operations. */
  ghost function LoopStep(s: State): State
    requires LoopEnabled(s)
  {
    if s.loop.Arm? then ArmStep(s)
    else if s.loop.Report? then ReportStep(s)
    else if s.loop.Disarm? then DisarmStep(s)
    else if s.loop.Unlink? then UnlinkStep(s)
    else if s.loop.Revisit? then RevisitStep(s)
    else DrainStep(s)
  }

  /** ev_uinet_start up to the first upcall set. */
  function Started(s: State, so: nat, w: Watcher): State
    requires so in s.socks && Resting(s.loop)
  {
    var c := s.socks[so];
    var todo := Sides(Rcv in w.events && !c.inhibited && c.readers == 0,
                      Snd in w.events && !c.inhibited && c.writers == 0);
    With(s, so, c.(head := [w] + c.head,
                   readers := c.readers + if Rcv in w.events then 1 else 0,
                   writers := c.writers + if Snd in w.events then 1 else 0)).(
      loop := Arm(so, todo, false, {}, BackOf(s.loop)))
  }

  /** ev_uinet_stop up to the first upcall cleared. */
  function Stopped(s: State, so: nat, w: Watcher): State
    requires so in s.socks && Resting(s.loop)
    requires (Rcv in w.events ==> s.socks[so].readers > 0) && (Snd in w.events ==> s.socks[so].writers > 0)
  {
    var c := s.socks[so];
    var readers: nat := c.readers - if Rcv in w.events then 1 else 0;
    var writers: nat := c.writers - if Snd in w.events then 1 else 0;
    var todo := Sides(Rcv in w.events && !c.inhibited && readers == 0, Snd in w.events && !c.inhibited && writers == 0);
    With(s, so, c.(readers := readers, writers := writers)).(loop := Disarm(so, todo, w, BackOf(s.loop)))
  }

  /** The stack wakes a side of a socket, which may have become ready before. */
  function Woken(s: State, tid: nat, so: nat, side: Side, ready: bool): State
    requires so in s.socks
  {
    var c := s.socks[so];
    With(s, so, c.(ready := if ready then c.ready + {side} else c.ready)).(
      wakes := s.wakes[tid := Wake(so, side, Arrive)])
  }

  /** The steps between iterations and between the parts of one. */
  function ControlStep(s: State, step: Step): State {
    if step.Reenable? then s.(loop := Revisit(s.prev))
    else if step.Wait? then s.(loop := Waiting)
    else if step.Polled? then s.(loop := Invoke(false))
    else if step.Scan? then s.(loop := Invoke(true), sent := false, queued := s.queued || s.sent)
    else if step.Drain? then s.(loop := Swap, queued := false)
    else if step.Iterate? then s.(loop := Prepare(false))
    else s
  }

  predicate ControlEnabled(s: State, step: Step) {
    if step.Reenable? then s.loop == Prepare(false)
    else if step.Wait? then s.loop == Prepare(true)
    else if step.Polled? then s.loop.Waiting?
    else if step.Scan? then s.loop == Invoke(false)
    else if step.Drain? then s.loop.Invoke? && s.queued
    else step.Iterate? && s.loop.Invoke? && !s.queued
  }

  predicate BatchEnabled(s: State, step: Step) {
    if step.BatchStart? then s.lock.Free?
    else if step.BatchFinish? then s.lock.Free? && s.inBatch > 0
    else step.BatchSend? && s.lock.ByBatch?
  }

  /** uinet_batch_event_handler; the end of a batch always sends the async event. */
  function BatchStep(s: State, step: Step): State
    requires BatchEnabled(s, step)
  {
    if step.BatchStart? then s.(inBatch := s.inBatch + 1)
    else if step.BatchFinish? then s.(inBatch := s.inBatch - 1, lock := ByBatch)
    else s.(sent := true, lock := Free)
  }

  predicate StopEnabled(s: State, so: nat, k: nat) {
    Resting(s.loop) && so in s.socks && k < |s.socks[so].head| &&
    var w := s.socks[so].head[k];
    (Rcv in w.events ==> s.socks[so].readers > 0) && (Snd in w.events ==> s.socks[so].writers > 0)
  }

  ghost predicate Enabled(s: State, step: Step) {
    if step.Wakeup? then step.tid !in s.wakes && step.so in s.socks
    else if step.Unready? then step.so in s.socks
    else if step.WakeGo? then WakeEnabled(s, step.tid)
    else if step.StartWatcher? then
      Resting(s.loop) && step.so in s.socks && step.w.events != {} && step.w !in s.socks[step.so].head
    else if step.StopWatcher? then StopEnabled(s, step.so, step.k)
    else if step.LoopGo? then LoopEnabled(s)
    else if step.BatchStart? || step.BatchFinish? || step.BatchSend? then BatchEnabled(s, step)
    else ControlEnabled(s, step)
  }

  ghost function Next(s: State, step: Step): State
    requires Enabled(s, step)
  {
    if step.Wakeup? then Woken(s, step.tid, step.so, step.side, step.ready)
    else if step.Unready? then With(s, step.so, s.socks[step.so].(ready := s.socks[step.so].ready - {step.side}))
    else if step.WakeGo? then WakeStep(s, step.tid)
    else if step.StartWatcher? then Started(s, step.so, step.w)
    else if step.StopWatcher? then Stopped(s, step.so, s.socks[step.so].head[step.k])
    else if step.LoopGo? then LoopStep(s)
    else if step.BatchStart? || step.BatchFinish? || step.BatchSend? then BatchStep(s, step)
    else ControlStep(s, step)
  }
}
