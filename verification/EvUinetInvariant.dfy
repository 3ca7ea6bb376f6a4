/** The invariant of the upcall protocol, and its proof for every step. */
module EvUinetInvariant {
  import opened EvUinet

  // ----- invariants: threads and locks

  predicate Holds(pc: WakePc) { pc.Post? && !pc.part.Insert? }

  /** The thread is at a known socket; past Arrive its upcall is installed; and it has uinet_pend_lock
      exactly in the later parts of uinet_socket_events. */
  ghost predicate ThreadOk(s: State, t: nat) {
    t in s.wakes &&
    var x := s.wakes[t];
    && x.so in s.socks
    && (!x.pc.Arrive? ==> x.side in s.socks[x.so].installed)
    && (Holds(x.pc) <==> s.lock == ByWake(t))
    && (x.pc == Post(Mark(false)) ==> s.socks[x.so].pending)
  }

  ghost predicate Threads(s: State) {
    && (forall t <- s.wakes :: ThreadOk(s, t))
    && (s.lock.ByWake? ==> s.lock.tid in s.wakes)
    && (s.lock.ByLoop? <==> s.loop.Report? && !s.loop.part.Insert?)
  }

  /** A side's upcall runs in one thread at a time. */
  ghost predicate Alone(s: State) {
    forall t <- s.wakes, u <- s.wakes ::
      t != u && s.wakes[t].so == s.wakes[u].so && s.wakes[t].side == s.wakes[u].side ==>
        s.wakes[t].pc.Arrive? || s.wakes[u].pc.Arrive?
  }

  // ----- invariants: upcalls and counts

  function Of(sides: seq<Side>): set<Side> { set d | d in sides }

  /** The upcalls that are to be installed when the loop is not busy with the socket. */
  function Default(c: Ctx): set<Side> {
    if c.inhibited then {} else Of(Sides(c.readers > 0, c.writers > 0))
  }

  function Expected(s: State, so: nat): set<Side>
    requires so in s.socks
  {
    var l, c := s.loop, s.socks[so];
    if !HasSocket(l) || l.so != so || l.Report? || l.Unlink? then Default(c)
    else if l.Arm? then Default(c) - Of(if l.look && l.sides != [] then l.sides[1..] else l.sides)
    else if l.Disarm? then Default(c) + Of(l.sides)
    else if l.Quell? then Of(l.sides)
    else {}
  }

  ghost predicate Armed(s: State, so: nat)
    requires so in s.socks
  {
    s.socks[so].installed == Expected(s, so)
  }

  predicate Orderly(sides: seq<Side>) { sides == [] || sides == [Rcv] || sides == [Snd] || sides == [Rcv, Snd] }

  function CountOf(head: seq<Watcher>, d: Side): nat {
    if head == [] then 0 else (if d in head[0].events then 1 else 0) + CountOf(head[1..], d)
  }

  ghost predicate NoTwice<T>(list: seq<T>) { forall i, j :: 0 <= i < j < |list| ==> list[i] != list[j] }

  /** The watchers of the socket, without the one that is being stopped. */
  function Remaining(s: State, so: nat): seq<Watcher>
    requires so in s.socks
  {
    if (s.loop.Disarm? || s.loop.Unlink?) && s.loop.so == so then Dropped(s.socks[so].head, s.loop.w)
    else s.socks[so].head
  }

  ghost predicate Counted(s: State, so: nat)
    requires so in s.socks
  {
    var c := s.socks[so];
    && c.readers == CountOf(Remaining(s, so), Rcv) && c.writers == CountOf(Remaining(s, so), Snd)
    && NoTwice(c.head) && (forall w <- c.head :: w.events != {})
  }

  // ----- invariants: lists

  /** The sockets that the drain has yet to inhibit. */
  function DrainTodo(l: LoopPc): seq<nat> {
    if l.Visit? then l.rest else if l.Quell? || l.Deliver? then [l.so] + l.rest else []
  }

  /** The socket that is on the pending list already and has yet to be marked so. */
  function Adding(s: State): set<nat> {
    if s.lock.ByWake? && s.lock.tid in s.wakes && s.wakes[s.lock.tid].pc.Post?
        && Added(s.wakes[s.lock.tid].pc.part) then
      {s.wakes[s.lock.tid].so}
    else if s.lock.ByLoop? && s.loop.Report? && Added(s.loop.part) then {s.loop.so}
    else {}
  }

  predicate Added(part: Part) { part.Announce? || part == Mark(true) }

  ghost predicate Placed(s: State, so: nat)
    requires so in s.socks
  {
    var c, todo := s.socks[so], so in DrainTodo(s.loop);
    && (so in s.prev <==> c.inhibited || todo)
    && (so in s.pend <==> (c.pending && !todo) || so in Adding(s))
    && (todo ==> c.pending && !c.inhibited)
    && (c.inhibited ==> !c.pending)
    && (so in Adding(s) ==> !c.pending && !c.inhibited && !todo)
  }

  ghost predicate Lists(s: State) {
    && NoTwice(s.pend) && NoTwice(s.prev) && NoTwice(DrainTodo(s.loop))
    && (forall so <- s.pend :: so in s.socks) && (forall so <- s.prev :: so in s.socks)
    && (forall so <- DrainTodo(s.loop) :: so in s.socks)
  }

  // ----- invariants: the loop

  /** What the loop holds on to while it deals with a socket. */
  ghost predicate Shape(s: State) {
    var l := s.loop;
    && (HasSocket(l) ==> l.so in s.socks)
    && (l.Arm? || l.Disarm? || l.Quell? ==> Orderly(l.sides))
    && (l.Arm? ==>
          && (l.look ==> l.sides != []) && Of(l.sides) <= Default(s.socks[l.so])
          && l.found <= Default(s.socks[l.so]) - Of(l.sides))
    && (l.Report? ==>
          && l.found != {} && l.found <= Default(s.socks[l.so])
          && (l.part == Mark(false) ==> s.socks[l.so].pending))
    && (l.Disarm? ==> Of(l.sides) !! Default(s.socks[l.so]) && !l.back.ToRevisit? && l.w in s.socks[l.so].head)
    && (l.Disarm? && l.sides != [] ==> !s.socks[l.so].inhibited)
    && (l.Unlink? ==> !l.back.ToRevisit? && l.w in s.socks[l.so].head)
    && (l.Quell? ==> Of(l.sides) <= Default(s.socks[l.so]))
    && (l.Revisit? ==> l.rest == s.prev)
    && ((l.Arm? || l.Report?) && l.back.ToRevisit? ==> l.back.rest == s.prev)
  }

  /** Where in its cycle the loop is, seen through an operation that it is in. */
  function Phase(l: LoopPc): LoopPc {
    if l.Arm? || l.Report? || l.Disarm? || l.Unlink? then Return(l.back) else l
  }

  /** The previous list is empty before the drain, and the drain happens once in a cycle. */
  ghost predicate Cycle(s: State) {
    var p := Phase(s.loop);
    && (p == Invoke(false) || p == Prepare(true) || p.Waiting? || p.Swap? || (p == Invoke(true) && s.queued) ==>
          s.prev == [])
    && (s.queued ==> p == Invoke(true))
  }

  // ----- invariants: nothing is missed

  /** Someone will drain the pending list. */
  ghost predicate Told(s: State) {
    || s.sent || s.queued || s.inBatch > 0 || s.loop.Swap? || s.lock.ByBatch?
    || (s.lock.ByWake? && s.lock.tid in s.wakes && s.wakes[s.lock.tid].pc == Post(Announce))
    || (s.lock.ByLoop? && s.loop.Report? && s.loop.part.Announce?)
  }

  /** A thread is on its way with this side of the socket. */
  ghost predicate WakeFor(s: State, so: nat, d: Side) {
    exists t <- s.wakes :: s.wakes[t].so == so && s.wakes[t].side == d
  }

  /** The loop is about to notice, or has noticed, that this side is ready. */
  predicate LoopWill(l: LoopPc, so: nat, d: Side) {
    || (l.Arm? && l.so == so && ((l.look && l.sides != [] && l.sides[0] == d) || d in l.found))
    || (l.Report? && l.so == so && d in l.found)
  }

  ghost predicate Heard(s: State, so: nat, d: Side)
    requires so in s.socks
  {
    d in s.socks[so].ready && d in s.socks[so].installed ==>
      (s.socks[so].pending && d in s.socks[so].events) || WakeFor(s, so, d) || LoopWill(s.loop, so, d)
  }

  ghost predicate AllHeard(s: State) { forall so <- s.socks, d: Side :: Heard(s, so, d) }

  ghost predicate AllArmed(s: State) { forall so <- s.socks :: Armed(s, so) }

  ghost predicate AllCounted(s: State) { forall so <- s.socks :: Counted(s, so) }

  ghost predicate AllPlaced(s: State) { forall so <- s.socks :: Placed(s, so) }

  /** The part of the invariant that is about the loop, its lists and its counts. */
  ghost predicate Core(s: State) {
    Shape(s) && Lists(s) && Cycle(s) && AllArmed(s) && AllCounted(s) && AllPlaced(s)
  }

  ghost predicate Inv(s: State) {
    Threads(s) && Alone(s) && Core(s) && AllHeard(s) && (s.pend != [] ==> Told(s))
  }

  lemma StartInv(s: State)
    requires Start(s)
    ensures Inv(s)
  {
  }

  // ----- steps that leave the loop and the lists alone

  ghost predicate SameCore(s: State, s': State) {
    && s'.loop == s.loop && s'.pend == s.pend && s'.prev == s.prev && s'.queued == s.queued && Adding(s') == Adding(s)
    && s'.socks.Keys == s.socks.Keys
    && forall so <- s.socks :: s'.socks[so] == s.socks[so].(ready := s'.socks[so].ready)
  }

  lemma CoreFrame(s: State, s': State)
    requires Core(s) && SameCore(s, s')
    ensures Core(s')
  {
    ArmsFrame(s, s');
    PlacedFrame(s, s');
    ShapeFrame(s, s');
    hide AllArmed, AllCounted, AllPlaced, NoTwice, Shape, Cycle;
  }

  /** What the loop holds on to stays as long as nothing becomes less pending. */
  lemma ShapeFrame(s: State, s': State)
    requires Shape(s) && Cycle(s) && SameArms(s, s') && s'.prev == s.prev && s'.queued == s.queued
    requires forall so <- s.socks :: s.socks[so].pending ==> s'.socks[so].pending
    ensures Shape(s') && Cycle(s')
  {
    hide Orderly, Of;
    if HasSocket(s.loop) {
      assert Default(s'.socks[s.loop.so]) == Default(s.socks[s.loop.so]);
      hide Default;
    }
  }

  lemma PlacedFrame(s: State, s': State)
    requires AllPlaced(s) && SameCore(s, s')
    ensures AllPlaced(s')
  {
    hide Adding;
    forall so <- s'.socks
      ensures Placed(s', so)
    {
      assert Placed(s, so);
    }
  }

  /** With the same threads and the same lock, the threads' invariants depend on what is installed and
      pending only. */
  lemma ThreadsFrame(s: State, s': State)
    requires Threads(s) && Alone(s) && s'.wakes == s.wakes && s'.socks.Keys == s.socks.Keys
    requires forall so <- s.socks ::
               s'.socks[so].installed >= s.socks[so].installed && (s.socks[so].pending ==> s'.socks[so].pending)
    requires forall t :: s'.lock == ByWake(t) <==> s.lock == ByWake(t)
    requires s'.lock.ByLoop? <==> s'.loop.Report? && !s'.loop.part.Insert?
    ensures Threads(s') && Alone(s')
  {
    forall t <- s'.wakes
      ensures ThreadOk(s', t)
    {
      assert ThreadOk(s, t);
    }
    assert s'.lock.ByWake? ==> s.lock == ByWake(s'.lock.tid);
  }

  lemma WokenInv(s: State, tid: nat, so: nat, side: Side, ready: bool)
    requires Inv(s) && tid !in s.wakes && so in s.socks
    ensures Inv(Woken(s, tid, so, side, ready))
  {
    hide Core;
    var s' := Woken(s, tid, so, side, ready);
    assert Adding(s') == Adding(s);
    CoreFrame(s, s');
    forall t <- s'.wakes
      ensures ThreadOk(s', t)
    {
      assert t != tid ==> ThreadOk(s, t);
    }
    forall o <- s'.socks, d: Side
      ensures Heard(s', o, d)
    {
      assert Heard(s, o, d);
      if WakeFor(s, o, d) {
        var t :| t in s.wakes && s.wakes[t].so == o && s.wakes[t].side == d;
        assert s'.wakes[t] == s.wakes[t];
      }
      assert s'.wakes[tid] == Wake(so, side, Arrive);
    }
  }

  lemma UnreadyInv(s: State, so: nat, side: Side)
    requires Inv(s) && so in s.socks
    ensures Inv(With(s, so, s.socks[so].(ready := s.socks[so].ready - {side})))
  {
    hide Core;
    var s' := With(s, so, s.socks[so].(ready := s.socks[so].ready - {side}));
    CoreFrame(s, s');
    ThreadsFrame(s, s');
    hide Threads, Alone;
    forall o <- s'.socks, d: Side
      ensures Heard(s', o, d)
    {
      assert Heard(s, o, d);
    }
  }

  lemma BatchInv(s: State, step: Step)
    requires Inv(s) && BatchEnabled(s, step)
    ensures Inv(BatchStep(s, step))
  {
    hide Core;
    var s' := BatchStep(s, step);
    CoreFrame(s, s');
    ThreadsFrame(s, s');
    hide Threads, Alone;
    forall so <- s'.socks, d: Side
      ensures Heard(s', so, d)
    {
      assert Heard(s, so, d);
    }
  }

  // ----- stack threads

  lemma WakeAlone(s: State, tid: nat)
    requires Alone(s) && WakeEnabled(s, tid)
    ensures Alone(WakeStep(s, tid))
  {
  }

  lemma WakeThreads(s: State, tid: nat)
    requires Threads(s) && WakeEnabled(s, tid)
    ensures Threads(WakeStep(s, tid))
  {
    assert ThreadOk(s, tid);
    WakeSelf(s, tid);
    forall t <- WakeStep(s, tid).wakes
      ensures ThreadOk(WakeStep(s, tid), t)
    {
      if t != tid {
        assert t in s.wakes;
        WakeOther(s, tid, t);
      }
    }
    hide WakeStep, WakeEnabled, ThreadOk;
  }

  lemma WakeSelf(s: State, tid: nat)
    requires WakeEnabled(s, tid) && ThreadOk(s, tid) && (s.lock.ByLoop? <==> s.loop.Report? && !s.loop.part.Insert?)
    requires s.lock.ByWake? ==> s.lock.tid in s.wakes
    ensures var s' := WakeStep(s, tid);
            && s'.loop == s.loop && (s'.lock.ByLoop? <==> s.loop.Report? && !s.loop.part.Insert?)
            && (s'.lock.ByWake? ==> s'.lock.tid in s'.wakes) && (tid in s'.wakes ==> ThreadOk(s', tid))
  {
    hide SideFree;
  }

  lemma WakeOther(s: State, tid: nat, t: nat)
    requires WakeEnabled(s, tid) && ThreadOk(s, tid) && ThreadOk(s, t) && t != tid
    ensures ThreadOk(WakeStep(s, tid), t)
  {
    hide SideFree;
  }

  lemma WakeHeard(s: State, tid: nat)
    requires AllHeard(s) && WakeEnabled(s, tid) && ThreadOk(s, tid)
    ensures AllHeard(WakeStep(s, tid))
  {
    var s' := WakeStep(s, tid);
    forall so <- s'.socks, d: Side
      ensures Heard(s', so, d)
    {
      assert Heard(s, so, d);
      if WakeFor(s, so, d) {
        var t :| t in s.wakes && s.wakes[t].so == so && s.wakes[t].side == d;
        if t != tid {
          assert s'.wakes[t] == s.wakes[t];
        } else if tid in s'.wakes {
          assert s'.wakes[tid].so == so && s'.wakes[tid].side == d;
        }
      }
    }
  }

  lemma WakeTold(s: State, tid: nat)
    requires ThreadOk(s, tid) && WakeEnabled(s, tid) && (s.pend != [] ==> Told(s))
    ensures WakeStep(s, tid).pend != [] ==> Told(WakeStep(s, tid))
  {
  }

  /** The steps of a thread that do not change lists or flags. */
  lemma WakeLight(s: State, tid: nat)
    requires ThreadOk(s, tid) && Core(s) && WakeEnabled(s, tid)
    requires var pc := s.wakes[tid].pc;
             pc.Post? ==> pc.part.Announce? || (pc.part.Insert? && s.socks[s.wakes[tid].so].pending)
    ensures Core(WakeStep(s, tid))
  {
    hide Core;
    CoreFrame(s, WakeStep(s, tid));
  }

  lemma PutFirst(list: seq<nat>, so: nat)
    requires NoTwice(list) && so !in list
    ensures NoTwice([so] + list) && forall x :: x in [so] + list <==> x == so || x in list
  {
  }

  /** A socket with an upcall installed is not inhibited. */
  lemma InstalledNotInhibited(s: State, so: nat, d: Side)
    requires so in s.socks && Armed(s, so) && Shape(s) && Placed(s, so) && d in s.socks[so].installed
    ensures !s.socks[so].inhibited
  {
  }

  lemma InsertLists(s: State, s': State, so: nat)
    requires Lists(s) && AllPlaced(s) && so in s.socks && !s.socks[so].pending && !s.socks[so].inhibited
    requires Adding(s) == {} && Adding(s') == {so} && s'.pend == [so] + s.pend && s'.prev == s.prev
    requires s'.socks == s.socks && DrainTodo(s'.loop) == DrainTodo(s.loop)
    ensures Lists(s') && AllPlaced(s')
  {
    assert Placed(s, so);
    PutFirst(s.pend, so);
    hide NoTwice, Adding, DrainTodo;
    forall o <- s'.socks
      ensures Placed(s', o)
    {
      assert Placed(s, o);
    }
  }

  lemma WakeInsert(s: State, tid: nat)
    requires ThreadOk(s, tid) && Core(s) && s.lock.Free?
    requires s.wakes[tid].pc == Post(Insert) && !s.socks[s.wakes[tid].so].pending
    ensures Core(Inserted(s, tid))
  {
    var s', so := Inserted(s, tid), s.wakes[tid].so;
    assert Armed(s, so) && Placed(s, so);
    InstalledNotInhibited(s, so, s.wakes[tid].side);
    hide Shape, Cycle, AllArmed, AllCounted, AllPlaced, Lists;
    InsertLists(s, s', so);
    ArmsFrame(s, s');
    ShapeFrame(s, s');
  }

  /** Setting the pending flag of a socket that has just been added, or that had it already. */
  lemma MarkLists(s: State, s': State, so: nat)
    requires Lists(s) && AllPlaced(s) && so in s.socks && (s.socks[so].pending || so in Adding(s))
    requires Adding(s') == {} && Adding(s) <= {so} && s'.pend == s.pend && s'.prev == s.prev
    requires DrainTodo(s'.loop) == DrainTodo(s.loop) && s'.socks.Keys == s.socks.Keys && s'.socks[so].pending
    requires s'.socks[so].inhibited == s.socks[so].inhibited
    requires forall o <- s.socks :: o != so ==> s'.socks[o] == s.socks[o]
    ensures Lists(s') && AllPlaced(s')
  {
    hide NoTwice, Adding, DrainTodo;
    forall o <- s'.socks
      ensures Placed(s', o)
    {
      assert Placed(s, o);
    }
  }

  lemma WakeMark(s: State, tid: nat, added: bool)
    requires ThreadOk(s, tid) && Core(s) && s.wakes[tid].pc == Post(Mark(added))
    ensures Core(Marked(s, tid, added))
  {
    hide Shape, Cycle, AllArmed, AllCounted, AllPlaced, Lists;
    var s', so := Marked(s, tid, added), s.wakes[tid].so;
    MarkLists(s, s', so);
    ArmsFrame(s, s');
    ShapeFrame(s, s');
  }

  lemma WakeInv(s: State, tid: nat)
    requires Inv(s) && WakeEnabled(s, tid)
    ensures Inv(WakeStep(s, tid))
  {
    var pc := s.wakes[tid].pc;
    assert ThreadOk(s, tid);
    WakeAlone(s, tid);
    WakeThreads(s, tid);
    WakeHeard(s, tid);
    WakeTold(s, tid);
    hide Inserted, Announced, Marked, Threads, Alone, Core, Told, AllHeard;
    if pc.Post? && pc.part.Mark? {
      WakeMark(s, tid, pc.part.added);
    } else if pc == Post(Insert) && !s.socks[s.wakes[tid].so].pending {
      WakeInsert(s, tid);
    } else {
      WakeLight(s, tid);
    }
  }

  /** The loop, and of the sockets what upcalls and counts depend on, is the same. */
  ghost predicate SameArms(s: State, s': State) {
    && s'.loop == s.loop && s'.socks.Keys == s.socks.Keys
    && forall so <- s.socks :: s'.socks[so] ==
         s.socks[so].(ready := s'.socks[so].ready, pending := s'.socks[so].pending, events := s'.socks[so].events)
  }

  lemma ArmsFrame(s: State, s': State)
    requires AllArmed(s) && AllCounted(s) && SameArms(s, s')
    ensures AllArmed(s') && AllCounted(s')
  {
    hide NoTwice, CountOf, Dropped;
    forall so <- s'.socks
      ensures Armed(s', so) && Counted(s', so)
    {
      assert Armed(s, so) && Counted(s, so);
    }
  }

  // ----- the loop: what a step at one socket leaves alone

  /** Only the socket so may change, and the loop is busy with no other. */
  ghost predicate OnlyAt(s: State, s': State, so: nat) {
    && s'.wakes == s.wakes && so in s.socks && s'.socks.Keys == s.socks.Keys
    && (forall o <- s.socks :: o != so ==> s'.socks[o] == s.socks[o])
    && (HasSocket(s.loop) ==> s.loop.so == so) && (HasSocket(s'.loop) ==> s'.loop.so == so)
  }

  /** All invariants about upcalls, counts and readiness, at one socket. */
  ghost predicate Fine(s: State, so: nat)
    requires so in s.socks
  {
    Armed(s, so) && Counted(s, so) && forall d: Side :: Heard(s, so, d)
  }

  ghost predicate AllFine(s: State) { AllArmed(s) && AllCounted(s) && AllHeard(s) }

  lemma OthersFine(s: State, s': State, so: nat)
    requires AllFine(s) && OnlyAt(s, s', so) && Fine(s', so)
    ensures AllFine(s')
  {
    hide Default, NoTwice, CountOf, Dropped;
    forall o <- s'.socks
      ensures Armed(s', o) && Counted(s', o)
    {
      assert Armed(s, o) && Counted(s, o);
    }
    forall o <- s'.socks, d: Side
      ensures Heard(s', o, d)
    {
      assert Heard(s, o, d);
      SameWakes(s, s', o, d);
    }
  }

  lemma SameWakes(s: State, s': State, so: nat, d: Side)
    requires s'.wakes == s.wakes
    ensures WakeFor(s', so, d) == WakeFor(s, so, d)
  {
  }

  /** The threads do not notice a step that clears only upcalls that do not run, and flags of sockets
      without such. */
  lemma ThreadsStay(s: State, s': State, so: nat)
    requires Threads(s) && Alone(s) && OnlyAt(s, s', so)
    requires forall d <- s.socks[so].installed :: d in s'.socks[so].installed || SideFree(s, so, d)
    requires s.socks[so].pending && s.socks[so].installed != {} ==> s'.socks[so].pending
    requires forall t :: s'.lock == ByWake(t) <==> s.lock == ByWake(t)
    requires s'.lock.ByLoop? <==> s'.loop.Report? && !s'.loop.part.Insert?
    ensures Threads(s') && Alone(s')
  {
    forall t <- s'.wakes
      ensures ThreadOk(s', t)
    {
      assert ThreadOk(s, t);
    }
    assert s'.lock.ByWake? ==> s.lock == ByWake(s'.lock.tid);
  }

  /** Lists and flags are as they were. */
  lemma ListsStay(s: State, s': State)
    requires Lists(s) && AllPlaced(s) && s'.pend == s.pend && s'.prev == s.prev && Adding(s') == Adding(s)
    requires DrainTodo(s'.loop) == DrainTodo(s.loop) && s'.socks.Keys == s.socks.Keys
    requires forall so <- s.socks ::
               s'.socks[so].pending == s.socks[so].pending && s'.socks[so].inhibited == s.socks[so].inhibited
    ensures Lists(s') && AllPlaced(s')
  {
    hide NoTwice, Adding, DrainTodo;
    forall o <- s'.socks
      ensures Placed(s', o)
    {
      assert Placed(s, o);
    }
  }

  lemma FineAt(s: State, so: nat)
    requires AllFine(s) && so in s.socks
    ensures Fine(s, so)
  {
  }

  lemma Tail(sides: seq<Side>)
    requires Orderly(sides) && sides != []
    ensures Orderly(sides[1..]) && Of(sides) == {sides[0]} + Of(sides[1..]) && sides[0] !in Of(sides[1..])
  {
  }

  // ----- starting: Arm

  lemma ArmArmed(s: State)
    requires s.loop.Arm? && Shape(s) && Armed(s, s.loop.so)
    ensures Armed(ArmStep(s), s.loop.so)
  {
    if s.loop.sides != [] {
      Tail(s.loop.sides);
    }
    assert Default(ArmStep(s).socks[s.loop.so]) == Default(s.socks[s.loop.so]);
    hide Of, Orderly, Default;
  }

  lemma ArmHeard(s: State, d: Side)
    requires s.loop.Arm? && s.loop.so in s.socks && Heard(s, s.loop.so, d)
    ensures Heard(ArmStep(s), s.loop.so, d)
  {
    SameWakes(s, ArmStep(s), s.loop.so, d);
    hide WakeFor;
  }

  lemma ArmFine(s: State)
    requires s.loop.Arm? && Shape(s) && Fine(s, s.loop.so)
    ensures Fine(ArmStep(s), s.loop.so)
  {
    var s', so := ArmStep(s), s.loop.so;
    ArmArmed(s);
    hide NoTwice, CountOf, Dropped, Armed, Heard;
    forall d: Side
      ensures Heard(s', so, d)
    {
      ArmHeard(s, d);
    }
  }

  lemma ArmShape(s: State)
    requires s.loop.Arm? && Shape(s) && Cycle(s)
    ensures Shape(ArmStep(s)) && Cycle(ArmStep(s))
  {
    if s.loop.sides != [] {
      Tail(s.loop.sides);
    }
    hide Of, Orderly;
  }

  lemma ArmThreads(s: State)
    requires s.loop.Arm? && LoopEnabled(s) && Threads(s) && Alone(s)
    ensures Threads(ArmStep(s)) && Alone(ArmStep(s)) && OnlyAt(s, ArmStep(s), s.loop.so)
  {
    ThreadsStay(s, ArmStep(s), s.loop.so);
    hide ThreadOk, Alone;
  }

  lemma ArmLists(s: State)
    requires s.loop.Arm? && LoopEnabled(s) && !s.lock.ByLoop? && Lists(s) && AllPlaced(s) && (s.pend != [] ==> Told(s))
    ensures var s' := ArmStep(s); Lists(s') && AllPlaced(s') && (s'.pend != [] ==> Told(s'))
  {
    hide Lists, AllPlaced;
    ListsStay(s, ArmStep(s));
  }

  lemma NotByLoop(s: State)
    requires Threads(s) && !(s.loop.Report? && !s.loop.part.Insert?)
    ensures !s.lock.ByLoop?
  {
  }

  lemma ArmInv(s: State)
    requires Inv(s) && s.loop.Arm? && LoopEnabled(s)
    ensures Inv(ArmStep(s))
  {
    hide ArmStep, Shape, Cycle, Threads, Alone, Lists, AllPlaced, AllArmed, AllCounted, AllHeard, Fine, Told, OnlyAt;
    FineAt(s, s.loop.so);
    NotByLoop(s);
    ArmShape(s);
    ArmFine(s);
    ArmThreads(s);
    ArmLists(s);
    OthersFine(s, ArmStep(s), s.loop.so);
  }

  // ----- starting: Report

  lemma ReportFine(s: State)
    requires s.loop.Report? && Shape(s) && Fine(s, s.loop.so)
    ensures Fine(ReportStep(s), s.loop.so)
  {
    var s', so := ReportStep(s), s.loop.so;
    hide NoTwice, CountOf, Dropped, Default, WakeFor;
    forall d: Side
      ensures Heard(s', so, d)
    {
      assert Heard(s, so, d);
      SameWakes(s, s', so, d);
    }
  }

  lemma ReportShape(s: State)
    requires s.loop.Report? && Shape(s) && Cycle(s)
    ensures Shape(ReportStep(s)) && Cycle(ReportStep(s))
  {
    hide Of, Orderly;
  }

  lemma ReportThreads(s: State)
    requires s.loop.Report? && LoopEnabled(s) && Threads(s) && Alone(s)
    ensures Threads(ReportStep(s)) && Alone(ReportStep(s)) && OnlyAt(s, ReportStep(s), s.loop.so)
  {
    ThreadsStay(s, ReportStep(s), s.loop.so);
    hide ThreadOk, Alone;
  }

  lemma ReportTold(s: State)
    requires s.loop.Report? && LoopEnabled(s) && Threads(s) && (s.pend != [] ==> Told(s))
    ensures ReportStep(s).pend != [] ==> Told(ReportStep(s))
  {
  }

  lemma ReportLists(s: State)
    requires s.loop.Report? && LoopEnabled(s) && Threads(s) && Shape(s) && Lists(s) && AllPlaced(s)
    ensures Lists(ReportStep(s)) && AllPlaced(ReportStep(s))
  {
    hide Lists, AllPlaced, ThreadOk;
    var l, s' := s.loop, ReportStep(s);
    if l.part.Insert? && !s.socks[l.so].pending {
      InsertLists(s, s', l.so);
    } else if l.part.Mark? {
      MarkLists(s, s', l.so);
    } else {
      ListsStay(s, s');
    }
  }

  lemma ReportInv(s: State)
    requires Inv(s) && s.loop.Report? && LoopEnabled(s)
    ensures Inv(ReportStep(s))
  {
    hide ReportStep, Shape, Cycle, Threads, Alone, Lists, AllPlaced, AllArmed, AllCounted, AllHeard, Fine, Told, OnlyAt;
    FineAt(s, s.loop.so);
    ReportShape(s);
    ReportFine(s);
    ReportThreads(s);
    ReportTold(s);
    ReportLists(s);
    OthersFine(s, ReportStep(s), s.loop.so);
  }

  // ----- stopping: Disarm

  lemma DropOne(base: set<Side>, all: set<Side>, rest: set<Side>, x: Side)
    requires all == {x} + rest && x !in rest && x !in base
    ensures (base + all) - {x} == base + rest
  {
  }

  lemma DisarmArmed(s: State)
    requires s.loop.Disarm? && Shape(s) && Armed(s, s.loop.so)
    ensures Armed(DisarmStep(s), s.loop.so)
  {
    assert Of([]) == {};
    hide Of, Orderly, Sides;
    var l, c := s.loop, s.socks[s.loop.so];
    if l.sides != [] {
      Tail(l.sides);
      DropOne(Default(c), Of(l.sides), Of(l.sides[1..]), l.sides[0]);
    }
  }

  lemma DisarmFine(s: State)
    requires s.loop.Disarm? && Shape(s) && Fine(s, s.loop.so)
    ensures Fine(DisarmStep(s), s.loop.so)
  {
    var s', so := DisarmStep(s), s.loop.so;
    DisarmArmed(s);
    hide NoTwice, CountOf, Dropped, Armed, WakeFor, Shape;
    forall d: Side
      ensures Heard(s', so, d)
    {
      assert Heard(s, so, d);
      SameWakes(s, s', so, d);
    }
  }

  lemma DisarmShape(s: State)
    requires s.loop.Disarm? && Shape(s) && Cycle(s)
    ensures Shape(DisarmStep(s)) && Cycle(DisarmStep(s))
  {
    if s.loop.sides != [] {
      Tail(s.loop.sides);
    }
    hide Of, Orderly, Default;
  }

  lemma DisarmThreads(s: State)
    requires s.loop.Disarm? && LoopEnabled(s) && Threads(s) && Alone(s)
    ensures Threads(DisarmStep(s)) && Alone(DisarmStep(s)) && OnlyAt(s, DisarmStep(s), s.loop.so)
  {
    ThreadsStay(s, DisarmStep(s), s.loop.so);
    hide ThreadOk, Alone;
  }

  lemma DisarmLists(s: State)
    requires s.loop.Disarm? && LoopEnabled(s) && !s.lock.ByLoop? && Lists(s) && AllPlaced(s)
    requires (s.pend != [] ==> Told(s))
    ensures var s' := DisarmStep(s); Lists(s') && AllPlaced(s') && (s'.pend != [] ==> Told(s'))
  {
    hide Lists, AllPlaced;
    ListsStay(s, DisarmStep(s));
  }

  lemma DisarmInv(s: State)
    requires Inv(s) && s.loop.Disarm? && LoopEnabled(s)
    ensures Inv(DisarmStep(s))
  {
    hide DisarmStep, Shape, Cycle, Threads, Alone, Lists, AllPlaced, AllArmed, AllCounted, AllHeard, Fine, Told, OnlyAt;
    FineAt(s, s.loop.so);
    NotByLoop(s);
    DisarmShape(s);
    DisarmFine(s);
    DisarmThreads(s);
    DisarmLists(s);
    OthersFine(s, DisarmStep(s), s.loop.so);
  }

  // ----- stopping: Unlink

  lemma {:induction false} DroppedHas(head: seq<Watcher>, w: Watcher, x: Watcher)
    requires NoTwice(head)
    ensures x in Dropped(head, w) <==> x in head && x != w
    decreases |head|
  {
    if head != [] {
      assert head == [head[0]] + head[1..];
      assert NoTwice(head[1..]);
      if head[0] == w {
        assert forall k :: 1 <= k < |head| ==> head[k] != w;
      } else {
        DroppedHas(head[1..], w, x);
      }
    }
  }

  lemma {:induction false} DroppedNoTwice(head: seq<Watcher>, w: Watcher)
    requires NoTwice(head)
    ensures NoTwice(Dropped(head, w))
    decreases |head|
  {
    if head != [] && head[0] != w {
      assert NoTwice(head[1..]);
      DroppedNoTwice(head[1..], w);
      var rest := Dropped(head[1..], w);
      forall k | 0 <= k < |rest|
        ensures rest[k] != head[0]
      {
        DroppedHas(head[1..], w, rest[k]);
      }
    }
  }

  lemma {:induction false} DroppedCount(head: seq<Watcher>, w: Watcher, d: Side)
    requires w in head
    ensures CountOf(head, d) == CountOf(Dropped(head, w), d) + if d in w.events then 1 else 0
    decreases |head|
  {
    if head[0] != w {
      assert head == [head[0]] + head[1..];
      DroppedCount(head[1..], w, d);
    }
  }

  lemma {:induction false} MinusHas(list: seq<nat>, so: nat)
    requires NoTwice(list)
    ensures NoTwice(Minus(list, so)) && forall x :: x in Minus(list, so) <==> x in list && x != so
    decreases |list|
  {
    if list != [] {
      assert list == [list[0]] + list[1..];
      assert NoTwice(list[1..]);
      assert forall k :: 1 <= k < |list| ==> list[k] != list[0];
      MinusHas(list[1..], so);
      if list[0] != so {
        PutFirst(Minus(list[1..], so), list[0]);
      }
    }
  }

  /** Without watchers, no upcall is installed. */
  lemma NoWatchers(s: State)
    requires s.loop.Unlink? && s.loop.so in s.socks && Armed(s, s.loop.so) && Counted(s, s.loop.so)
    requires Dropped(s.socks[s.loop.so].head, s.loop.w) == []
    ensures var c := s.socks[s.loop.so]; c.readers == 0 && c.writers == 0 && c.installed == {}
  {
  }

  lemma UnlinkCounted(s: State)
    requires s.loop.Unlink? && s.loop.so in s.socks && Counted(s, s.loop.so)
    ensures Counted(UnlinkStep(s), s.loop.so)
  {
    var c := s.socks[s.loop.so];
    DroppedNoTwice(c.head, s.loop.w);
    forall w <- Dropped(c.head, s.loop.w)
      ensures w.events != {}
    {
      DroppedHas(c.head, s.loop.w, w);
    }
    hide NoTwice, Dropped, CountOf, Minus;
  }

  lemma UnlinkArmed(s: State)
    requires s.loop.Unlink? && s.loop.so in s.socks && Armed(s, s.loop.so) && Counted(s, s.loop.so)
    ensures Armed(UnlinkStep(s), s.loop.so)
  {
    if Dropped(s.socks[s.loop.so].head, s.loop.w) == [] {
      NoWatchers(s);
    }
    hide Counted, Dropped, CountOf, Minus;
  }

  lemma UnlinkFine(s: State)
    requires s.loop.Unlink? && s.loop.so in s.socks && Fine(s, s.loop.so)
    ensures Fine(UnlinkStep(s), s.loop.so)
  {
    var s', so := UnlinkStep(s), s.loop.so;
    UnlinkCounted(s);
    UnlinkArmed(s);
    if Dropped(s.socks[so].head, s.loop.w) == [] {
      NoWatchers(s);
    }
    hide Counted, Armed, Dropped, WakeFor, Minus;
    forall d: Side
      ensures Heard(s', so, d)
    {
      assert Heard(s, so, d);
      SameWakes(s, s', so, d);
    }
  }

  lemma UnlinkShape(s: State)
    requires s.loop.Unlink? && Shape(s) && Cycle(s)
    ensures Shape(UnlinkStep(s)) && Cycle(UnlinkStep(s))
  {
    hide Of, Orderly, Default;
  }

  lemma UnlinkThreads(s: State)
    requires s.loop.Unlink? && LoopEnabled(s) && Threads(s) && Alone(s) && Armed(s, s.loop.so) && Counted(s, s.loop.so)
    ensures Threads(UnlinkStep(s)) && Alone(UnlinkStep(s)) && OnlyAt(s, UnlinkStep(s), s.loop.so)
  {
    if Dropped(s.socks[s.loop.so].head, s.loop.w) == [] {
      NoWatchers(s);
    }
    hide Dropped, CountOf, NoTwice, Default;
    ThreadsStay(s, UnlinkStep(s), s.loop.so);
    hide ThreadOk, Alone;
  }

  /** A socket that loses its flags leaves the list it is on. */
  lemma DropLists(s: State, s': State, so: nat)
    requires Lists(s) && AllPlaced(s) && so in s.socks && Adding(s) == {} && Adding(s') == {}
    requires DrainTodo(s.loop) == [] && DrainTodo(s'.loop) == [] && s'.socks.Keys == s.socks.Keys
    requires s'.prev == if s.socks[so].inhibited then Minus(s.prev, so) else s.prev
    requires s'.pend == if !s.socks[so].inhibited && s.socks[so].pending then Minus(s.pend, so) else s.pend
    requires !s'.socks[so].pending && !s'.socks[so].inhibited
    requires forall o <- s.socks :: o != so ==> s'.socks[o] == s.socks[o]
    ensures Lists(s') && AllPlaced(s') && (s'.pend != [] ==> s.pend != [])
  {
    MinusHas(s.prev, so);
    MinusHas(s.pend, so);
    hide Minus, NoTwice, Adding, DrainTodo;
    assert Placed(s, so);
    forall o <- s'.socks
      ensures Placed(s', o)
    {
      assert Placed(s, o);
    }
  }

  lemma UnlinkLists(s: State)
    requires s.loop.Unlink? && LoopEnabled(s) && Lists(s) && AllPlaced(s) && (s.pend != [] ==> Told(s))
    ensures var s' := UnlinkStep(s); Lists(s') && AllPlaced(s') && (s'.pend != [] ==> Told(s'))
  {
    hide Lists, AllPlaced, Dropped, Minus;
    var s', so := UnlinkStep(s), s.loop.so;
    if Dropped(s.socks[so].head, s.loop.w) == [] {
      DropLists(s, s', so);
    } else {
      ListsStay(s, s');
    }
  }

  lemma UnlinkInv(s: State)
    requires Inv(s) && s.loop.Unlink? && LoopEnabled(s)
    ensures Inv(UnlinkStep(s))
  {
    hide UnlinkStep, Shape, Cycle, Threads, Alone, Lists, AllPlaced, AllArmed, AllCounted, AllHeard, Told, OnlyAt;
    FineAt(s, s.loop.so);
    UnlinkShape(s);
    UnlinkFine(s);
    UnlinkThreads(s);
    UnlinkLists(s);
    hide Fine;
    OthersFine(s, UnlinkStep(s), s.loop.so);
  }

  // ----- a step of the loop that changes no socket

  /** The loop moves on between places where it is busy with no socket, or with one in the default state. */
  lemma MoveFine(s: State, s': State)
    requires AllFine(s) && s'.socks == s.socks && s'.wakes == s.wakes && !HasSocket(s.loop) && !HasSocket(s'.loop)
    ensures AllFine(s')
  {
    hide Default, NoTwice, CountOf, Dropped;
    forall o <- s'.socks
      ensures Armed(s', o) && Counted(s', o)
    {
      assert Armed(s, o) && Counted(s, o);
    }
    forall o <- s'.socks, d: Side
      ensures Heard(s', o, d)
    {
      assert Heard(s, o, d);
      SameWakes(s, s', o, d);
    }
  }

  lemma MoveThreads(s: State, s': State)
    requires Threads(s) && Alone(s) && s'.socks == s.socks && s'.wakes == s.wakes && s'.lock == s.lock
    requires !s.loop.Report? && !s'.loop.Report?
    ensures Threads(s') && Alone(s')
  {
    forall t <- s'.wakes
      ensures ThreadOk(s', t)
    {
      assert ThreadOk(s, t);
    }
  }

  lemma MoveInv(s: State, s': State)
    requires Inv(s) && s' == s.(loop := s'.loop, sent := s'.sent, queued := s'.queued)
    requires !HasSocket(s.loop) && !HasSocket(s'.loop) && DrainTodo(s.loop) == [] && DrainTodo(s'.loop) == []
    requires Shape(s') && Cycle(s') && (Told(s) ==> Told(s'))
    ensures Inv(s')
  {
    hide Threads, Alone, Lists, AllPlaced, AllArmed, AllCounted, AllHeard, Shape, Cycle, Told;
    NotByLoop(s);
    MoveThreads(s, s');
    MoveFine(s, s');
    ListsStay(s, s');
  }

  lemma ControlInv(s: State, step: Step)
    requires Inv(s) && ControlEnabled(s, step)
    ensures Inv(ControlStep(s, step))
  {
    hide Threads, Alone, Lists, AllPlaced, AllArmed, AllCounted, AllHeard, Default, Orderly;
    MoveInv(s, ControlStep(s, step));
  }

  // ----- the drain

  lemma SwapInv(s: State)
    requires Inv(s) && s.loop.Swap? && LoopEnabled(s)
    ensures Inv(DrainStep(s))
  {
    var s' := DrainStep(s);
    assert s.prev == [] && !s.queued;
    assert Shape(s') && Cycle(s') by {
      hide Threads, Alone, Lists, AllPlaced, AllArmed, AllCounted, AllHeard, Default, Orderly;
    }
    hide Threads, Alone, AllArmed, AllCounted, AllHeard, Shape, Cycle;
    MoveThreads(s, s');
    MoveFine(s, s');
    hide NoTwice;
    forall o <- s'.socks
      ensures Placed(s', o)
    {
      assert Placed(s, o);
    }
  }

  lemma VisitDone(s: State)
    requires Inv(s) && s.loop.Visit? && s.loop.rest == []
    ensures Inv(DrainStep(s))
  {
    var s' := DrainStep(s);
    assert Shape(s') && Cycle(s') by {
      hide Threads, Alone, Lists, AllPlaced, AllArmed, AllCounted, AllHeard, Default, Orderly;
    }
    hide Threads, Alone, Lists, AllPlaced, AllArmed, AllCounted, AllHeard, Shape, Cycle;
    NotByLoop(s);
    MoveThreads(s, s');
    MoveFine(s, s');
    ListsStay(s, s');
  }

  lemma SidesOrderly(rcv: bool, snd: bool)
    ensures Orderly(Sides(rcv, snd)) && (Sides(rcv, snd) == [] <==> !rcv && !snd)
    ensures Of(Sides(rcv, snd)) == (if rcv then {Rcv} else {}) + (if snd then {Snd} else {})
  {
  }

  lemma VisitNextFine(s: State)
    requires s.loop.Visit? && s.loop.rest != [] && s.loop.rest[0] in s.socks && Fine(s, s.loop.rest[0])
    requires !s.socks[s.loop.rest[0]].inhibited
    ensures Fine(DrainStep(s), s.loop.rest[0])
  {
    var s', so := DrainStep(s), s.loop.rest[0];
    hide NoTwice, CountOf, Dropped, WakeFor;
    forall d: Side
      ensures Heard(s', so, d)
    {
      assert Heard(s, so, d);
      SameWakes(s, s', so, d);
    }
  }

  lemma VisitNextShape(s: State)
    requires s.loop.Visit? && s.loop.rest != [] && s.loop.rest[0] in s.socks && Shape(s) && Cycle(s)
    requires !s.socks[s.loop.rest[0]].inhibited
    ensures Shape(DrainStep(s)) && Cycle(DrainStep(s))
  {
    var c := s.socks[s.loop.rest[0]];
    SidesOrderly(c.readers > 0, c.writers > 0);
    hide Of, Orderly, Sides;
  }

  lemma VisitNextLists(s: State)
    requires s.loop.Visit? && s.loop.rest != [] && s.loop.rest[0] in s.socks && !s.lock.ByLoop?
    requires Lists(s) && AllPlaced(s) && (s.pend != [] ==> Told(s))
    ensures var s' := DrainStep(s); Lists(s') && AllPlaced(s') && (s'.pend != [] ==> Told(s'))
  {
    hide Lists, AllPlaced, Sides;
    assert DrainTodo(DrainStep(s).loop) == s.loop.rest;
    ListsStay(s, DrainStep(s));
  }

  /** The socket that the drain takes next is pending and not inhibited. */
  lemma NextInDrain(s: State)
    requires Lists(s) && AllPlaced(s) && s.loop.Visit? && s.loop.rest != []
    ensures s.loop.rest[0] in s.socks && s.socks[s.loop.rest[0]].pending && !s.socks[s.loop.rest[0]].inhibited
  {
    var so := s.loop.rest[0];
    assert so in DrainTodo(s.loop);
    assert Placed(s, so);
  }

  lemma VisitNext(s: State)
    requires Inv(s) && s.loop.Visit? && s.loop.rest != []
    ensures s.loop.rest[0] in s.socks && Inv(DrainStep(s))
  {
    hide Shape, Cycle, Threads, Alone, Lists, AllPlaced, AllArmed, AllCounted, AllHeard, Fine, Told, Sides;
    NextInDrain(s);
    var so, s' := s.loop.rest[0], DrainStep(s);
    FineAt(s, so);
    NotByLoop(s);
    VisitNextShape(s);
    VisitNextFine(s);
    VisitNextLists(s);
    MoveThreads(s, s');
    OthersFine(s, s', so);
  }

  lemma QuellArmed(s: State)
    requires s.loop.Quell? && Shape(s) && Armed(s, s.loop.so)
    ensures Armed(DrainStep(s), s.loop.so)
  {
    if s.loop.sides != [] {
      Tail(s.loop.sides);
    }
    hide Orderly, Default;
  }

  lemma QuellFine(s: State)
    requires s.loop.Quell? && Shape(s) && Fine(s, s.loop.so)
    ensures Fine(DrainStep(s), s.loop.so)
  {
    var s', so := DrainStep(s), s.loop.so;
    QuellArmed(s);
    hide NoTwice, CountOf, Dropped, Armed, WakeFor, Shape;
    forall d: Side
      ensures Heard(s', so, d)
    {
      assert Heard(s, so, d);
      SameWakes(s, s', so, d);
    }
  }

  lemma QuellShape(s: State)
    requires s.loop.Quell? && Shape(s) && Cycle(s)
    ensures Shape(DrainStep(s)) && Cycle(DrainStep(s))
  {
    if s.loop.sides != [] {
      Tail(s.loop.sides);
      assert Default(DrainStep(s).socks[s.loop.so]) == Default(s.socks[s.loop.so]);
    }
    hide Of, Orderly, Default;
  }

  lemma QuellThreads(s: State)
    requires s.loop.Quell? && LoopEnabled(s) && Threads(s) && Alone(s)
    ensures Threads(DrainStep(s)) && Alone(DrainStep(s)) && OnlyAt(s, DrainStep(s), s.loop.so)
  {
    ThreadsStay(s, DrainStep(s), s.loop.so);
    hide ThreadOk, Alone;
  }

  lemma QuellLists(s: State)
    requires s.loop.Quell? && LoopEnabled(s) && !s.lock.ByLoop? && Lists(s) && AllPlaced(s)
    requires (s.pend != [] ==> Told(s))
    ensures var s' := DrainStep(s); Lists(s') && AllPlaced(s') && (s'.pend != [] ==> Told(s'))
  {
    hide Lists, AllPlaced;
    ListsStay(s, DrainStep(s));
  }

  lemma QuellInv(s: State)
    requires Inv(s) && s.loop.Quell? && LoopEnabled(s)
    ensures Inv(DrainStep(s))
  {
    hide DrainStep, Shape, Cycle, Threads, Alone, Lists, AllPlaced, AllArmed, AllCounted, AllHeard, Fine, Told, OnlyAt;
    FineAt(s, s.loop.so);
    NotByLoop(s);
    QuellShape(s);
    QuellFine(s);
    QuellThreads(s);
    QuellLists(s);
    OthersFine(s, DrainStep(s), s.loop.so);
  }

  lemma DeliverFine(s: State)
    requires s.loop.Deliver? && Shape(s) && Fine(s, s.loop.so)
    ensures Fine(DrainStep(s), s.loop.so) && s.socks[s.loop.so].installed == {}
  {
    hide NoTwice, CountOf, Dropped, WakeFor, Feeds;
  }

  lemma DeliverThreads(s: State)
    requires s.loop.Deliver? && s.loop.so in s.socks && Threads(s) && Alone(s) && s.socks[s.loop.so].installed == {}
    ensures Threads(DrainStep(s)) && Alone(DrainStep(s)) && OnlyAt(s, DrainStep(s), s.loop.so)
  {
    hide Feeds;
    ThreadsStay(s, DrainStep(s), s.loop.so);
    hide ThreadOk, Alone;
  }

  lemma DeliverLists(s: State)
    requires s.loop.Deliver? && s.loop.so in s.socks && !s.lock.ByLoop? && Lists(s) && AllPlaced(s)
    requires (s.pend != [] ==> Told(s))
    ensures var s' := DrainStep(s); Lists(s') && AllPlaced(s') && (s'.pend != [] ==> Told(s'))
  {
    hide Feeds;
    var s', so, rest := DrainStep(s), s.loop.so, s.loop.rest;
    assert Adding(s') == Adding(s);
    var todo := DrainTodo(s.loop);
    assert todo[1..] == rest && todo[0] == so;
    assert NoTwice(rest) && so !in rest;
    hide NoTwice, Adding;
    forall o <- s'.socks
      ensures Placed(s', o)
    {
      assert Placed(s, o);
    }
  }

  lemma DeliverShape(s: State)
    requires s.loop.Deliver? && Shape(s) && Cycle(s)
    ensures s.loop.so in s.socks && Shape(DrainStep(s)) && Cycle(DrainStep(s))
  {
    hide Feeds, Default, Orderly;
  }

  lemma DeliverInv(s: State)
    requires Inv(s) && s.loop.Deliver?
    ensures s.loop.so in s.socks && Inv(DrainStep(s))
  {
    DeliverShape(s);
    hide DrainStep, Shape, Cycle, Threads, Alone, Lists, AllPlaced, AllArmed, AllCounted, AllHeard, Fine, Told, OnlyAt;
    FineAt(s, s.loop.so);
    NotByLoop(s);
    DeliverFine(s);
    DeliverThreads(s);
    DeliverLists(s);
    OthersFine(s, DrainStep(s), s.loop.so);
  }

  // ----- enabling the upcalls again

  lemma RevisitDone(s: State)
    requires Inv(s) && s.loop.Revisit? && s.loop.rest == []
    ensures Inv(RevisitStep(s))
  {
    hide Threads, Alone, Lists, AllPlaced, AllArmed, AllCounted, AllHeard, Default, Orderly;
    MoveInv(s, RevisitStep(s));
  }

  /** The socket that is enabled next is inhibited and on no other list. */
  lemma NextInRevisit(s: State)
    requires Lists(s) && AllPlaced(s) && Shape(s) && s.loop.Revisit? && s.loop.rest != []
    ensures var so := s.loop.rest[0]; so in s.socks && so in s.prev && s.socks[so].inhibited && Placed(s, so)
    ensures s.prev == s.loop.rest && NoTwice(s.prev[1..]) && s.loop.rest[0] !in s.prev[1..]
  {
    var so := s.loop.rest[0];
    assert so in s.prev;
    assert Placed(s, so);
  }

  lemma RevisitFine(s: State)
    requires s.loop.Revisit? && s.loop.rest != [] && s.loop.rest[0] in s.socks && Fine(s, s.loop.rest[0])
    requires s.socks[s.loop.rest[0]].inhibited
    ensures Fine(RevisitStep(s), s.loop.rest[0]) && s.socks[s.loop.rest[0]].installed == {}
  {
    hide NoTwice, CountOf, Dropped, WakeFor;
  }

  lemma RevisitShape(s: State)
    requires s.loop.Revisit? && s.loop.rest != [] && s.loop.rest[0] in s.socks && Shape(s) && Cycle(s)
    ensures Shape(RevisitStep(s)) && Cycle(RevisitStep(s))
  {
    var c := s.socks[s.loop.rest[0]];
    SidesOrderly(c.readers > 0, c.writers > 0);
    hide Of, Orderly, Sides;
  }

  lemma RevisitThreads(s: State)
    requires s.loop.Revisit? && s.loop.rest != [] && s.loop.rest[0] in s.socks && Threads(s) && Alone(s)
    requires s.socks[s.loop.rest[0]].installed == {}
    ensures Threads(RevisitStep(s)) && Alone(RevisitStep(s)) && OnlyAt(s, RevisitStep(s), s.loop.rest[0])
  {
    hide Sides;
    ThreadsStay(s, RevisitStep(s), s.loop.rest[0]);
    hide ThreadOk, Alone;
  }

  lemma RevisitLists(s: State)
    requires s.loop.Revisit? && s.loop.rest != [] && Shape(s) && Lists(s) && AllPlaced(s) && !s.lock.ByLoop?
    requires s.pend != [] ==> Told(s)
    ensures s.loop.rest[0] in s.socks
    ensures var s' := RevisitStep(s); Lists(s') && AllPlaced(s') && (s'.pend != [] ==> Told(s'))
  {
    NextInRevisit(s);
    hide Sides;
    var s', so := RevisitStep(s), s.loop.rest[0];
    assert Adding(s') == Adding(s);
    assert forall o :: o in s.prev <==> o == so || o in s.prev[1..];
    hide NoTwice, Adding, Shape;
    forall o <- s'.socks
      ensures Placed(s', o)
    {
      assert Placed(s, o);
    }
  }

  lemma RevisitNext(s: State)
    requires Inv(s) && s.loop.Revisit? && s.loop.rest != []
    ensures s.loop.rest[0] in s.socks && Inv(RevisitStep(s))
  {
    hide RevisitStep, Shape, Cycle, Threads, Alone, Lists, AllPlaced, AllArmed, AllCounted, AllHeard, Fine, Told,
         OnlyAt;
    NextInRevisit(s);
    FineAt(s, s.loop.rest[0]);
    NotByLoop(s);
    RevisitShape(s);
    RevisitFine(s);
    RevisitThreads(s);
    RevisitLists(s);
    OthersFine(s, RevisitStep(s), s.loop.rest[0]);
  }

  // ----- starting and stopping watchers

  lemma PutWatcher(head: seq<Watcher>, w: Watcher)
    requires NoTwice(head) && w !in head && w.events != {} && forall x <- head :: x.events != {}
    ensures var all := [w] + head; NoTwice(all) && forall x <- all :: x.events != {}
    ensures forall d: Side :: CountOf([w] + head, d) == CountOf(head, d) + if d in w.events then 1 else 0
  {
    var all := [w] + head;
    assert all[1..] == head;
    assert forall x <- all :: x == w || x in head;
  }

  lemma StartedCounted(s: State, so: nat, w: Watcher)
    requires Resting(s.loop) && so in s.socks && w.events != {} && w !in s.socks[so].head && Counted(s, so)
    ensures Counted(Started(s, so, w), so)
  {
    PutWatcher(s.socks[so].head, w);
    hide Sides, NoTwice, CountOf;
  }

  lemma StartedFine(s: State, so: nat, w: Watcher)
    requires Resting(s.loop) && so in s.socks && w.events != {} && w !in s.socks[so].head && Fine(s, so)
    ensures Fine(Started(s, so, w), so)
  {
    var s' := Started(s, so, w);
    StartedCounted(s, so, w);
    hide Counted, WakeFor;
    forall d: Side
      ensures Heard(s', so, d)
    {
      assert Heard(s, so, d);
      SameWakes(s, s', so, d);
    }
  }

  lemma StartedShape(s: State, so: nat, w: Watcher)
    requires Resting(s.loop) && so in s.socks && Shape(s) && Cycle(s)
    ensures Shape(Started(s, so, w)) && Cycle(Started(s, so, w))
  {
    var c := s.socks[so];
    SidesOrderly(Rcv in w.events && !c.inhibited && c.readers == 0, Snd in w.events && !c.inhibited && c.writers == 0);
  }

  lemma StartedThreads(s: State, so: nat, w: Watcher)
    requires Resting(s.loop) && so in s.socks && Threads(s) && Alone(s)
    ensures Threads(Started(s, so, w)) && Alone(Started(s, so, w)) && OnlyAt(s, Started(s, so, w), so)
  {
    hide Sides;
    ThreadsStay(s, Started(s, so, w), so);
    hide ThreadOk, Alone;
  }

  lemma StartedLists(s: State, so: nat, w: Watcher)
    requires Resting(s.loop) && so in s.socks && !s.lock.ByLoop? && Lists(s) && AllPlaced(s)
    requires (s.pend != [] ==> Told(s))
    ensures var s' := Started(s, so, w); Lists(s') && AllPlaced(s') && (s'.pend != [] ==> Told(s'))
  {
    hide Lists, AllPlaced, Sides;
    ListsStay(s, Started(s, so, w));
  }

  lemma StartedInv(s: State, so: nat, w: Watcher)
    requires Inv(s) && Resting(s.loop) && so in s.socks && w.events != {} && w !in s.socks[so].head
    ensures Inv(Started(s, so, w))
  {
    hide Started, Shape, Cycle, Threads, Alone, Lists, AllPlaced, AllArmed, AllCounted, AllHeard, Fine, Told, OnlyAt;
    FineAt(s, so);
    NotByLoop(s);
    StartedShape(s, so, w);
    StartedFine(s, so, w);
    StartedThreads(s, so, w);
    StartedLists(s, so, w);
    OthersFine(s, Started(s, so, w), so);
  }

  /** Whoever has a watcher for a side is counted for it. */
  lemma StopIsEnabled(s: State, so: nat, k: nat)
    requires AllFine(s) && Resting(s.loop) && so in s.socks && k < |s.socks[so].head|
    ensures StopEnabled(s, so, k)
  {
    var w := s.socks[so].head[k];
    assert Counted(s, so);
    DroppedCount(s.socks[so].head, w, Rcv);
    DroppedCount(s.socks[so].head, w, Snd);
  }

  lemma StoppedFine(s: State, so: nat, k: nat)
    requires StopEnabled(s, so, k) && Fine(s, so)
    ensures Fine(Stopped(s, so, s.socks[so].head[k]), so)
  {
    var c := s.socks[so];
    var w := c.head[k];
    var s' := Stopped(s, so, w);
    DroppedCount(c.head, w, Rcv);
    DroppedCount(c.head, w, Snd);
    hide NoTwice, CountOf, Dropped, WakeFor;
    forall d: Side
      ensures Heard(s', so, d)
    {
      assert Heard(s, so, d);
      SameWakes(s, s', so, d);
    }
  }

  lemma DefaultIs(c: Ctx)
    ensures Default(c) == if c.inhibited then {}
                          else (if c.readers > 0 then {Rcv} else {}) + (if c.writers > 0 then {Snd} else {})
  {
  }

  lemma StoppedSides(s: State, so: nat, k: nat)
    requires StopEnabled(s, so, k)
    ensures var s' := Stopped(s, so, s.socks[so].head[k]);
            && Orderly(s'.loop.sides) && Of(s'.loop.sides) !! Default(s'.socks[so])
            && (s'.loop.sides != [] ==> !s'.socks[so].inhibited)
  {
    var c, w := s.socks[so], s.socks[so].head[k];
    var readers := c.readers - if Rcv in w.events then 1 else 0;
    var writers := c.writers - if Snd in w.events then 1 else 0;
    SidesOrderly(Rcv in w.events && !c.inhibited && readers == 0, Snd in w.events && !c.inhibited && writers == 0);
    DefaultIs(Stopped(s, so, w).socks[so]);
    hide Default, Of, Orderly, Sides;
  }

  lemma StoppedShape(s: State, so: nat, k: nat)
    requires StopEnabled(s, so, k) && Shape(s) && Cycle(s)
    ensures var w := s.socks[so].head[k]; Shape(Stopped(s, so, w)) && Cycle(Stopped(s, so, w))
  {
    hide Default, Of, Orderly, Sides;
    StoppedSides(s, so, k);
  }

  lemma StoppedThreads(s: State, so: nat, k: nat)
    requires StopEnabled(s, so, k) && Threads(s) && Alone(s)
    ensures var s' := Stopped(s, so, s.socks[so].head[k]); Threads(s') && Alone(s') && OnlyAt(s, s', so)
  {
    hide Sides;
    ThreadsStay(s, Stopped(s, so, s.socks[so].head[k]), so);
    hide ThreadOk, Alone;
  }

  lemma StoppedLists(s: State, so: nat, k: nat)
    requires StopEnabled(s, so, k) && !s.lock.ByLoop? && Lists(s) && AllPlaced(s) && (s.pend != [] ==> Told(s))
    ensures var s' := Stopped(s, so, s.socks[so].head[k]); Lists(s') && AllPlaced(s') && (s'.pend != [] ==> Told(s'))
  {
    hide Lists, AllPlaced, Sides;
    ListsStay(s, Stopped(s, so, s.socks[so].head[k]));
  }

  lemma StoppedInv(s: State, so: nat, k: nat)
    requires Inv(s) && StopEnabled(s, so, k)
    ensures Inv(Stopped(s, so, s.socks[so].head[k]))
  {
    hide Stopped, Shape, Cycle, Threads, Alone, Lists, AllPlaced, AllArmed, AllCounted, AllHeard, Fine, Told, OnlyAt;
    FineAt(s, so);
    NotByLoop(s);
    StoppedShape(s, so, k);
    StoppedFine(s, so, k);
    StoppedThreads(s, so, k);
    StoppedLists(s, so, k);
    OthersFine(s, Stopped(s, so, s.socks[so].head[k]), so);
  }

  // ----- all steps

  lemma LoopInv(s: State)
    requires Inv(s) && LoopEnabled(s)
    ensures Inv(LoopStep(s))
  {
    hide Inv, ArmStep, ReportStep, DisarmStep, UnlinkStep, DrainStep, RevisitStep;
    if s.loop.Arm? {
      ArmInv(s);
    } else if s.loop.Report? {
      ReportInv(s);
    } else if s.loop.Disarm? {
      DisarmInv(s);
    } else if s.loop.Unlink? {
      UnlinkInv(s);
    } else if s.loop.Revisit? {
      if s.loop.rest == [] { RevisitDone(s); } else { RevisitNext(s); }
    } else if s.loop.Swap? {
      SwapInv(s);
    } else if s.loop.Visit? {
      if s.loop.rest == [] { VisitDone(s); } else { VisitNext(s); }
    } else if s.loop.Quell? {
      QuellInv(s);
    } else {
      DeliverInv(s);
    }
  }

  lemma StepInv(s: State, step: Step)
    requires Inv(s) && Enabled(s, step)
    ensures Inv(Next(s, step))
  {
    hide Inv, Woken, WakeStep, Started, Stopped, LoopStep, BatchStep, ControlStep, LoopEnabled, WakeEnabled,
         StopEnabled,
         BatchEnabled, ControlEnabled;
    if step.Wakeup? {
      WokenInv(s, step.tid, step.so, step.side, step.ready);
    } else if step.Unready? {
      UnreadyInv(s, step.so, step.side);
    } else if step.WakeGo? {
      WakeInv(s, step.tid);
    } else if step.StartWatcher? {
      StartedInv(s, step.so, step.w);
    } else if step.StopWatcher? {
      StoppedInv(s, step.so, step.k);
    } else if step.LoopGo? {
      LoopInv(s);
    } else if step.BatchStart? || step.BatchFinish? || step.BatchSend? {
      BatchInv(s, step);
    } else {
      ControlInv(s, step);
    }
  }
}
