/** What the upcall protocol guarantees in every run. */
module EvUinetRuns {
  import opened EvUinet
  import opened EvUinetInvariant

  ghost predicate CanRun(s: State, steps: seq<Step>)
    decreases |steps|
  {
    steps == [] || (Enabled(s, steps[0]) && CanRun(Next(s, steps[0]), steps[1..]))
  }

  ghost function Run(s: State, steps: seq<Step>): State
    requires CanRun(s, steps)
    decreases |steps|
  {
    if steps == [] then s else Run(Next(s, steps[0]), steps[1..])
  }

  lemma {:induction false} RunInv(s: State, steps: seq<Step>)
    requires Inv(s) && CanRun(s, steps)
    ensures Inv(Run(s, steps))
    decreases |steps|
  {
    if steps != [] {
      hide Inv, Next, Enabled;
      StepInv(s, steps[0]);
      RunInv(Next(s, steps[0]), steps[1..]);
    }
  }

  lemma ReachableInv(start: State, steps: seq<Step>)
    requires Start(start) && CanRun(start, steps)
    ensures Inv(Run(start, steps))
  {
    hide Inv, CanRun, Run;
    StartInv(start);
    RunInv(start, steps);
  }

  // ----- batches

  /** The batches started, and those finished, in a run. */
  function Starts(steps: seq<Step>): nat
    decreases |steps|
  {
    if steps == [] then 0 else (if steps[0].BatchStart? then 1 else 0) + Starts(steps[1..])
  }

  function Finishes(steps: seq<Step>): nat
    decreases |steps|
  {
    if steps == [] then 0 else (if steps[0].BatchFinish? then 1 else 0) + Finishes(steps[1..])
  }

  lemma StepBatch(s: State, step: Step)
    requires Enabled(s, step)
    ensures Next(s, step).inBatch
         == s.inBatch + (if step.BatchStart? then 1 else 0) - (if step.BatchFinish? then 1 else 0)
  {
    if step.LoopGo? {
      LoopBatch(s);
    }
    hide LoopStep, WakeStep, Sides, LoopEnabled, WakeEnabled;
  }

  lemma LoopBatch(s: State)
    requires LoopEnabled(s)
    ensures LoopStep(s).inBatch == s.inBatch
  {
    hide SideFree, ArmStep, ReportStep, DisarmStep, UnlinkStep, RevisitStep, DrainStep;
  }

  lemma {:induction false} RunBatches(s: State, steps: seq<Step>)
    requires CanRun(s, steps)
    ensures Run(s, steps).inBatch == s.inBatch + Starts(steps) - Finishes(steps)
    decreases |steps|
  {
    if steps != [] {
      hide Next, Enabled;
      StepBatch(s, steps[0]);
      RunBatches(Next(s, steps[0]), steps[1..]);
    }
  }

  /** uinet_in_batch counts the batches that were started and not finished, so it is never negative:
      while uinet_pend_lock is free, one may be started, and one finished exactly if one is open. */
  lemma BatchesCounted(start: State, steps: seq<Step>)
    requires Start(start) && CanRun(start, steps)
    ensures Run(start, steps).inBatch == Starts(steps) - Finishes(steps)
    ensures Run(start, steps).lock.Free? ==>
              && Enabled(Run(start, steps), BatchStart)
              && (Enabled(Run(start, steps), BatchFinish) <==> Starts(steps) > Finishes(steps))
  {
    RunBatches(start, steps);
    hide CanRun, Run;
  }

  // ----- what holds in every run

  /** The loop is in an operation on this socket. */
  predicate BusyWith(l: LoopPc, so: nat) { HasSocket(l) && l.so == so }

  /** The loop is about to look whether this side is ready, is about to report that it is, or is in the
      drain with the socket, after which the upcalls are inhibited. */
  predicate LoopOnIt(l: LoopPc, so: nat, d: Side) {
    BusyWith(l, so) &&
    ((l.Arm? && (d in l.sides || d in l.found)) || (l.Report? && d in l.found) || l.Quell? || l.Deliver?)
  }

  /** No lost readiness: at any time, if a side of a socket is ready and has a watcher, the upcalls of
      the socket are not inhibited, and neither a thread nor the loop is on its way with it, then it is
      pending with that event, and on the pending list or the list being drained. */
  lemma NoLostReadiness(start: State, steps: seq<Step>, so: nat, d: Side)
    requires Start(start) && CanRun(start, steps)
    requires var s := Run(start, steps);
             && so in s.socks && d in s.socks[so].ready && Num(s.socks[so], d) > 0
             && !s.socks[so].inhibited && !WakeFor(s, so, d) && !LoopOnIt(s.loop, so, d)
    ensures var s := Run(start, steps);
            s.socks[so].pending && d in s.socks[so].events && (so in s.pend || so in DrainTodo(s.loop))
  {
    hide CanRun, Run;
    ReachableInv(start, steps);
    var s := Run(start, steps);
    hide Threads, Alone, Lists, Shape, Cycle, Told, AllArmed, AllPlaced, AllCounted, Heard, LoopOnIt, WakeFor,
         DrainTodo;
    ArmedOf(s, so);
    assert Heard(s, so, d);
    HeardOrOnIt(s, so, d);
  }

  lemma ArmedOf(s: State, so: nat)
    requires AllArmed(s) && AllPlaced(s) && so in s.socks
    ensures Armed(s, so) && Placed(s, so)
  {
  }

  lemma DefaultHas(c: Ctx, d: Side)
    ensures d in Default(c) <==> Num(c, d) > 0 && !c.inhibited
  {
  }

  lemma HeardOrOnIt(s: State, so: nat, d: Side)
    requires so in s.socks && Heard(s, so, d) && Armed(s, so) && Placed(s, so)
    requires d in s.socks[so].ready && Num(s.socks[so], d) > 0 && !s.socks[so].inhibited && !WakeFor(s, so, d)
    ensures LoopOnIt(s.loop, so, d) ||
            (s.socks[so].pending && d in s.socks[so].events && (so in s.pend || so in DrainTodo(s.loop)))
  {
    DefaultHas(s.socks[so], d);
    hide Default, Adding, DrainTodo, WakeFor, Num;
  }

  /** When the loop waits, no socket is inhibited, so nothing is missed at all: a side that is ready
      and has a watcher has a thread on its way, or is pending with that event; and unless a thread
      is at it, the loop has been sent the async event, or will be at the end of a batch. */
  lemma WaitMissesNothing(start: State, steps: seq<Step>, so: nat, d: Side)
    requires Start(start) && CanRun(start, steps)
    requires var s := Run(start, steps);
             s.loop.Waiting? && so in s.socks && d in s.socks[so].ready && Num(s.socks[so], d) > 0 && !WakeFor(s, so, d)
    ensures var s := Run(start, steps);
            && s.socks[so].pending && d in s.socks[so].events && so in s.pend
            && (s.lock.Free? ==> s.sent || Starts(steps) > Finishes(steps))
  {
    hide CanRun, Run, Starts, Finishes;
    ReachableInv(start, steps);
    BatchesCounted(start, steps);
    WaitingMissesNothing(Run(start, steps), so, d);
  }

  lemma WaitingMissesNothing(s: State, so: nat, d: Side)
    requires Inv(s) && s.loop.Waiting? && so in s.socks
    requires d in s.socks[so].ready && Num(s.socks[so], d) > 0 && !WakeFor(s, so, d)
    ensures s.socks[so].pending && d in s.socks[so].events && so in s.pend
    ensures s.lock.Free? ==> s.sent || s.inBatch > 0
  {
    assert Heard(s, so, d) && Armed(s, so) && Placed(s, so);
  }

  /** When no one holds uinet_pend_lock, a pending list that is not empty will be drained: the async
      event is sent or queued, more batches were started than finished, or the drain is about to take the list. */
  lemma PendingIsTold(start: State, steps: seq<Step>)
    requires Start(start) && CanRun(start, steps)
    requires var s := Run(start, steps); s.lock.Free? && s.pend != []
    ensures var s := Run(start, steps); s.sent || s.queued || Starts(steps) > Finishes(steps) || s.loop.Swap?
  {
    hide CanRun, Run, Starts, Finishes;
    ReachableInv(start, steps);
    BatchesCounted(start, steps);
  }

  /** At any time when uinet_pend_lock is free, for any socket that the loop is not in an operation on:
      it is pending exactly if it is on the pending list or on the list being drained, on the previous
      list exactly if it is inhibited or being drained, never twice on one of them; and an upcall is
      installed exactly if it has a watcher and is not inhibited. */
  lemma Membership(start: State, steps: seq<Step>, so: nat)
    requires Start(start) && CanRun(start, steps)
    requires var s := Run(start, steps); s.lock.Free? && so in s.socks && !BusyWith(s.loop, so)
    ensures var s := Run(start, steps);
            var c, todo := s.socks[so], so in DrainTodo(s.loop);
            && (c.pending <==> so in s.pend || todo) && (so in s.prev <==> c.inhibited || todo)
            && !(so in s.pend && so in s.prev) && !(c.pending && c.inhibited)
            && NoTwice(s.pend) && NoTwice(s.prev)
            && forall d: Side :: d in c.installed <==> Num(c, d) > 0 && !c.inhibited
  {
    hide *;
    ReachableInv(start, steps);
    var s := Run(start, steps);
    ListParts(s);
    ArmedOf(s, so);
    MemberOf(s, so);
  }

  lemma ListParts(s: State)
    requires Inv(s)
    ensures AllArmed(s) && AllPlaced(s) && NoTwice(s.pend) && NoTwice(s.prev)
  {
    hide AllArmed, AllPlaced, NoTwice, Threads, Alone, Shape, Cycle, AllCounted, AllHeard, Told;
  }

  lemma MemberOf(s: State, so: nat)
    requires so in s.socks && Armed(s, so) && Placed(s, so) && s.lock.Free? && !BusyWith(s.loop, so)
    ensures var c, todo := s.socks[so], so in DrainTodo(s.loop);
            && (c.pending <==> so in s.pend || todo) && (so in s.prev <==> c.inhibited || todo)
            && !(so in s.pend && so in s.prev) && !(c.pending && c.inhibited)
            && forall d: Side :: d in c.installed <==> Num(c, d) > 0 && !c.inhibited
  {
    hide Default, DrainTodo, Num;
    forall d: Side
      ensures d in Default(s.socks[so]) <==> Num(s.socks[so], d) > 0 && !s.socks[so].inhibited
    {
      DefaultHas(s.socks[so], d);
    }
  }

  /** The assertion at the start of the drain holds. */
  lemma PrevListEmpty(start: State, steps: seq<Step>)
    requires Start(start) && CanRun(start, steps) && Enabled(Run(start, steps), Step.Drain)
    ensures Run(start, steps).prev == []
  {
    hide CanRun, Run;
    ReachableInv(start, steps);
  }

  /** An upcall that is cleared is installed. */
  lemma ClearsInstalled(start: State, steps: seq<Step>)
    requires Start(start) && CanRun(start, steps)
    requires var l := Run(start, steps).loop; (l.Disarm? || l.Quell?) && l.sides != []
    ensures var s := Run(start, steps); s.loop.so in s.socks && s.loop.sides[0] in s.socks[s.loop.so].installed
  {
    hide CanRun, Run;
    ReachableInv(start, steps);
    var s := Run(start, steps);
    assert Armed(s, s.loop.so);
  }

  /** Where the loop writes a socket's flags without the lock, no upcall of the socket is running. */
  lemma NoRace(start: State, steps: seq<Step>, t: nat)
    requires Start(start) && CanRun(start, steps)
    requires var s := Run(start, steps);
             && t in s.wakes && !s.wakes[t].pc.Arrive?
             && (s.loop.Deliver? || (s.loop.Revisit? && s.loop.rest != []) || s.loop.Unlink?)
    ensures var s := Run(start, steps);
            && (s.loop.Deliver? ==> s.wakes[t].so != s.loop.so)
            && (s.loop.Revisit? ==> s.wakes[t].so != s.loop.rest[0])
            && (s.loop.Unlink? && s.wakes[t].so == s.loop.so ==>
                  s.loop.so in s.socks && Dropped(s.socks[s.loop.so].head, s.loop.w) != [])
  {
    hide CanRun, Run;
    ReachableInv(start, steps);
    var s := Run(start, steps);
    var so := s.wakes[t].so;
    assert ThreadOk(s, t);
    assert Armed(s, so) && Counted(s, so) && Placed(s, so);
    if s.loop.Revisit? {
      NextInRevisit(s);
    }
  }

  // ----- delivery

  /** The watcher w of the socket is in line to be fed the event d by the drain. */
  predicate InLine(s: State, so: nat, w: Watcher, d: Side) {
    so in DrainTodo(s.loop) && so in s.socks && w in s.socks[so].head && d in w.events && d in s.socks[so].events
  }

  predicate Got(fed: seq<Feed>, so: nat, w: Watcher, d: Side) {
    exists f <- fed :: f.so == so && f.w == w && d in f.events
  }

  lemma {:induction false} FeedsAll(so: nat, head: seq<Watcher>, events: set<Side>, w: Watcher, d: Side)
    requires w in head && d in w.events && d in events
    ensures Feed(so, w, w.events * events) in Feeds(so, head, events)
    decreases |head|
  {
    if head[0] == w {
      assert d in w.events * events;
    } else {
      assert head == [head[0]] + head[1..];
      FeedsAll(so, head[1..], events, w, d);
    }
  }

  /** No watcher is fed what it did not ask for, or what the socket did not have. */
  lemma {:induction false} FeedsOnly(so: nat, head: seq<Watcher>, events: set<Side>, f: Feed)
    requires f in Feeds(so, head, events)
    ensures f.so == so && f.w in head && f.events == f.w.events * events && f.events != {}
    decreases |head|
  {
    if f !in Feeds(so, head[1..], events) {
      assert f == Feed(so, head[0], head[0].events * events);
    } else {
      FeedsOnly(so, head[1..], events, f);
    }
  }

  lemma LoopInLine(s: State, so: nat, w: Watcher, d: Side)
    requires LoopEnabled(s) && InLine(s, so, w, d)
    ensures InLine(LoopStep(s), so, w, d) || Got(LoopStep(s).fed[|s.fed|..], so, w, d)
    ensures s.fed <= LoopStep(s).fed
  {
    hide Feeds, Sides;
    var s', l := LoopStep(s), s.loop;
    if l.Deliver? && l.so == so {
      var c := s.socks[so];
      FeedsAll(so, c.head, c.events, w, d);
      assert s'.fed[|s.fed|..] == Feeds(so, c.head, c.events);
      assert Feed(so, w, w.events * c.events) in s'.fed[|s.fed|..];
    } else if l.Visit? {
      assert DrainTodo(s'.loop) == l.rest;
    }
  }

  lemma WakeInLine(s: State, tid: nat, so: nat, w: Watcher, d: Side)
    requires WakeEnabled(s, tid) && InLine(s, so, w, d)
    ensures InLine(WakeStep(s, tid), so, w, d) && WakeStep(s, tid).fed == s.fed
  {
    hide SideFree;
  }

  /** No step but those of the drain itself takes a watcher out of the line. */
  lemma StepInLine(s: State, step: Step, so: nat, w: Watcher, d: Side)
    requires Enabled(s, step) && InLine(s, so, w, d)
    ensures InLine(Next(s, step), so, w, d) || Got(Next(s, step).fed[|s.fed|..], so, w, d)
    ensures s.fed <= Next(s, step).fed
  {
    hide LoopStep, LoopEnabled, WakeStep, WakeEnabled, Sides;
    if step.LoopGo? {
      LoopInLine(s, so, w, d);
    } else if step.WakeGo? {
      WakeInLine(s, step.tid, so, w, d);
    }
  }

  lemma StepFed(s: State, step: Step)
    requires Enabled(s, step)
    ensures s.fed <= Next(s, step).fed
  {
    hide ArmStep, ReportStep, DisarmStep, UnlinkStep, RevisitStep, DrainStep, WakeStep, WakeEnabled, SideFree, Sides;
  }

  lemma {:induction false} FedGrows(s: State, steps: seq<Step>)
    requires CanRun(s, steps)
    ensures s.fed <= Run(s, steps).fed
    decreases |steps|
  {
    if steps != [] {
      hide Next, Enabled;
      StepFed(s, steps[0]);
      FedGrows(Next(s, steps[0]), steps[1..]);
    }
  }

  lemma GotMore(a: seq<Feed>, b: seq<Feed>, n: nat, m: nat, so: nat, w: Watcher, d: Side)
    requires n <= m <= |a| <= |b| && a == b[..|a|] && Got(a[m..], so, w, d)
    ensures Got(b[n..], so, w, d)
  {
    var f :| f in a[m..] && f.so == so && f.w == w && d in f.events;
    var k :| 0 <= k < |a[m..]| && a[m..][k] == f;
    assert b[n..][k + m - n] == f;
  }

  /** The drain delivers: a watcher in line has been fed the event when the drain is done, whatever
      else happens in between. */
  lemma {:induction false} DrainDelivers(s: State, steps: seq<Step>, so: nat, w: Watcher, d: Side)
    requires CanRun(s, steps) && InLine(s, so, w, d) && DrainTodo(Run(s, steps).loop) == []
    ensures s.fed <= Run(s, steps).fed && Got(Run(s, steps).fed[|s.fed|..], so, w, d)
    decreases |steps|
  {
    assert steps != [];
    hide Next, Enabled, InLine, Got;
    var s', rest := Next(s, steps[0]), steps[1..];
    StepInLine(s, steps[0], so, w, d);
    FedGrows(s', rest);
    var t := Run(s', rest);
    if InLine(s', so, w, d) {
      DrainDelivers(s', rest, so, w, d);
      GotMore(t.fed, t.fed, |s.fed|, |s'.fed|, so, w, d);
    } else {
      GotMore(s'.fed, t.fed, |s.fed|, |s.fed|, so, w, d);
    }
  }

  // ----- nothing is made up

  /** A thread is about to report this side of the socket. */
  ghost predicate Posting(wakes: map<nat, Wake>, so: nat, d: Side) {
    exists t <- wakes :: wakes[t].so == so && wakes[t].side == d && wakes[t].pc.Post?
  }

  ghost predicate HasFed(fed: seq<Feed>, so: nat, d: Side) { exists f <- fed :: f.so == so && d in f.events }

  predicate HasEvent(s: State, so: nat, d: Side) { so in s.socks && d in s.socks[so].events }

  predicate HasFound(l: LoopPc, so: nat, d: Side) { (l.Arm? || l.Report?) && l.so == so && d in l.found }

  /** Someone says, or has said, that this side of the socket is ready. */
  ghost predicate Claimed(s: State, so: nat, d: Side) {
    HasEvent(s, so, d) || Posting(s.wakes, so, d) || HasFound(s.loop, so, d) || HasFed(s.fed, so, d)
  }

  predicate Ready(s: State, so: nat, d: Side) { so in s.socks && d in s.socks[so].ready }

  lemma WakePosts(s: State, tid: nat, so: nat, d: Side)
    requires WakeEnabled(s, tid) && Posting(WakeStep(s, tid).wakes, so, d)
    ensures Posting(s.wakes, so, d) || Ready(s, so, d)
  {
    hide SideFree;
    var s' := WakeStep(s, tid);
    var t :| t in s'.wakes && s'.wakes[t].so == so && s'.wakes[t].side == d && s'.wakes[t].pc.Post?;
    if t != tid {
      assert t in s.wakes && s.wakes[t] == s'.wakes[t];
    }
  }

  lemma WakeMarks(s: State, tid: nat, so: nat, d: Side)
    requires WakeEnabled(s, tid) && HasEvent(WakeStep(s, tid), so, d)
    ensures HasEvent(s, so, d) || Posting(s.wakes, so, d)
  {
    hide SideFree;
    if !HasEvent(s, so, d) {
      assert s.wakes[tid].so == so && s.wakes[tid].side == d && s.wakes[tid].pc.Post?;
    }
  }

  lemma WakeClaims(s: State, tid: nat, so: nat, d: Side)
    requires WakeEnabled(s, tid) && Claimed(WakeStep(s, tid), so, d)
    ensures Claimed(s, so, d) || Ready(s, so, d)
  {
    assert WakeStep(s, tid).loop == s.loop;
    if Posting(WakeStep(s, tid).wakes, so, d) {
      WakePosts(s, tid, so, d);
    }
    if HasEvent(WakeStep(s, tid), so, d) {
      WakeMarks(s, tid, so, d);
    }
    hide WakeStep, WakeEnabled, Posting, HasEvent, HasFed;
  }

  lemma DeliverClaims(s: State, so: nat, d: Side)
    requires s.loop.Deliver? && s.loop.so in s.socks && Claimed(DrainStep(s), so, d)
    ensures Claimed(s, so, d)
  {
    hide Posting;
    var s', c := DrainStep(s), s.socks[s.loop.so];
    if HasFed(s'.fed, so, d) && !HasFed(s.fed, so, d) {
      var f :| f in s'.fed && f.so == so && d in f.events;
      FeedsOnly(s.loop.so, c.head, c.events, f);
    }
    hide Feeds;
  }

  lemma ArmClaims(s: State, so: nat, d: Side)
    requires s.loop.Arm? && s.loop.so in s.socks && Claimed(ArmStep(s), so, d)
    ensures Claimed(s, so, d) || Ready(s, so, d)
  {
    hide Posting, HasFed;
  }

  lemma ReportClaims(s: State, so: nat, d: Side)
    requires s.loop.Report? && s.loop.so in s.socks && Claimed(ReportStep(s), so, d)
    ensures Claimed(s, so, d)
  {
    hide Posting, HasFed;
  }

  lemma StopClaims(s: State, so: nat, d: Side)
    requires (s.loop.Disarm? || s.loop.Unlink?) && s.loop.so in s.socks
    requires Claimed(if s.loop.Disarm? then DisarmStep(s) else UnlinkStep(s), so, d)
    ensures Claimed(s, so, d)
  {
    hide Posting, HasFed, Dropped, Minus;
  }

  lemma PassClaims(s: State, so: nat, d: Side)
    requires LoopEnabled(s) && (s.loop.Revisit? || s.loop.Swap? || s.loop.Visit? || s.loop.Quell?)
    requires Claimed(LoopStep(s), so, d)
    ensures Claimed(s, so, d)
  {
    hide Posting, HasFed, Sides, SideFree, Feeds;
  }

  lemma LoopClaims(s: State, so: nat, d: Side)
    requires LoopEnabled(s) && Claimed(LoopStep(s), so, d)
    ensures Claimed(s, so, d) || Ready(s, so, d)
  {
    hide Claimed, ArmStep, ReportStep, DisarmStep, UnlinkStep, RevisitStep, DrainStep, SideFree, Ready;
    if s.loop.Deliver? {
      DeliverClaims(s, so, d);
    } else if s.loop.Arm? {
      ArmClaims(s, so, d);
    } else if s.loop.Report? {
      ReportClaims(s, so, d);
    } else if s.loop.Disarm? || s.loop.Unlink? {
      StopClaims(s, so, d);
    } else {
      PassClaims(s, so, d);
    }
  }

  lemma StepClaims(s: State, step: Step, so: nat, d: Side)
    requires Enabled(s, step) && Claimed(Next(s, step), so, d)
    ensures Claimed(s, so, d) || Ready(s, so, d)
  {
    if step.LoopGo? {
      LoopClaims(s, so, d);
      hide *;
    } else if step.WakeGo? {
      WakeClaims(s, step.tid, so, d);
      hide *;
    } else {
      OtherClaims(s, step, so, d);
      hide *;
    }
  }

  lemma OtherClaims(s: State, step: Step, so: nat, d: Side)
    requires Enabled(s, step) && Claimed(Next(s, step), so, d) && !step.LoopGo? && !step.WakeGo?
    ensures Claimed(s, so, d)
  {
    hide HasFed, Sides;
    if step.Wakeup? {
      var s' := Next(s, step);
      if Posting(s'.wakes, so, d) {
        var t :| t in s'.wakes && s'.wakes[t].so == so && s'.wakes[t].side == d && s'.wakes[t].pc.Post?;
        assert t in s.wakes && s.wakes[t] == s'.wakes[t];
      }
    } else {
      hide Posting;
      assert Next(s, step).wakes == s.wakes;
    }
  }

  /** In every run, whatever is said to be ready has been ready. */
  lemma {:induction false} ClaimsAreTrue(s: State, steps: seq<Step>, so: nat, d: Side) returns (k: nat)
    requires CanRun(s, steps) && Claimed(Run(s, steps), so, d) && !Claimed(s, so, d)
    ensures k < |steps| && CanRun(s, steps[..k]) && Ready(Run(s, steps[..k]), so, d)
    decreases |steps|
  {
    hide Enabled, Next, Claimed, Ready;
    var s' := Next(s, steps[0]);
    if Claimed(s', so, d) {
      StepClaims(s, steps[0], so, d);
      k := 0;
      assert steps[..0] == [];
    } else {
      var j := ClaimsAreTrue(s', steps[1..], so, d);
      k := j + 1;
      assert steps[..k][1..] == steps[1..][..j];
    }
  }

  /** In every run, no watcher is fed an event that its socket has not had. */
  lemma NoFalseFeeds(start: State, steps: seq<Step>, f: Feed, d: Side) returns (k: nat)
    requires Start(start) && CanRun(start, steps) && f in Run(start, steps).fed && d in f.events
    ensures k < |steps| && CanRun(start, steps[..k]) && Ready(Run(start, steps[..k]), f.so, d)
  {
    hide CanRun, Run;
    k := ClaimsAreTrue(start, steps, f.so, d);
  }
}
