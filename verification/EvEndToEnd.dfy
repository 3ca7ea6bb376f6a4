/** The upcalls from the stack's sockets and the wakeup of the loop, put together: the async event that
    the upcalls send is one of the watchers that ev_async_send wakes the loop for.  The threads' steps
    interleave in any order; the loop's own steps, in callbacks and in its wait section, come one after
    the other.  What ev_async_send does behind its first statement is left to a sender that goes on by
    itself, also where the caller would wait for it; that only adds interleavings. */
module EvEndToEnd {
  import U = EvUinet
  import UI = EvUinetInvariant
  import UR = EvUinetRuns
  import K = EvWakeup

  /** The async watcher that the upcalls use. */
  const ITEM := K.Item(K.Async, 0)

  datatype State = State(u: U.State, k: K.State)

  datatype Step =
    | OfStack(s: U.Step)                // a stack thread or a batch
    | OfCallback(s: U.Step)             // the loop, inside a callback
    | Announce(s: U.Step, tid: nat)     // either, where it calls ev_async_send, as sender tid
    | OfSender(t: K.Step)               // a sender on its way, or one of another item
    | OfLoop(t: K.Step)                 // the loop, outside callbacks of sockets

  /** The watcher is started, and nothing else has happened. */
  ghost predicate Start(j: State) {
    U.Start(j.u) && exists k :: K.Start(k) && j.k == K.Next(k, K.AsyncStart(0))
  }

  /** This step calls ev_async_send. */
  ghost predicate Announces(u: U.State, s: U.Step) {
    || s.BatchSend?
    || (s.WakeGo? && s.tid in u.wakes && u.wakes[s.tid].pc == U.Post(U.Announce) && u.inBatch == 0)
    || (s.LoopGo? && u.loop.Report? && u.loop.part.Announce? && u.inBatch == 0)
  }

  predicate StackStep(s: U.Step) {
    s.Wakeup? || s.Unready? || s.WakeGo? || s.BatchStart? || s.BatchFinish? || s.BatchSend?
  }

  predicate CallbackStep(s: U.Step) {
    s.StartWatcher? || s.StopWatcher? || s.LoopGo? || s.Drain? || s.Reenable?
  }

  /** Where callbacks run. */
  predicate InCallbacks(l: K.LoopPc) { l.Want? || l.Invoke? }

  /** The loop is about to make the watcher pending. */
  predicate Feeding(k: K.State) {
    k.loop.Clear? && k.loop.kind.Async? && k.loop.i < |k.asyncs| && k.asyncs[k.loop.i] == ITEM.id
  }

  datatype Move = Still | Moves(s: U.Step)

  /** What a step of the loop in its wait section means for the sockets' side. */
  function MoveOf(k: K.State, s: K.Step): Move {
    if s.Again? then Moves(U.Iterate)
    else if s.LoopGo? && k.loop.Want? then Moves(U.Wait)
    else if s.LoopGo? && k.loop.Recheck? then Moves(U.Polled)
    else if s.LoopGo? && Feeding(k) then Moves(U.Scan)
    else Still
  }

  predicate LoopStep(s: K.Step) {
    && !s.Send? && !s.Go?
    && (s.AsyncStart? || s.AsyncStop? ==> s.id != ITEM.id)
  }

  ghost predicate Enabled(j: State, step: Step) {
    match step
    case OfStack(s) => StackStep(s) && U.Enabled(j.u, s) && !Announces(j.u, s)
    case OfCallback(s) => CallbackStep(s) && U.Enabled(j.u, s) && !Announces(j.u, s) && InCallbacks(j.k.loop)
    case Announce(s, tid) =>
      && (StackStep(s) || (CallbackStep(s) && InCallbacks(j.k.loop))) && U.Enabled(j.u, s) && Announces(j.u, s)
      && tid !in j.k.senders
    case OfSender(s) => (s.Go? || (s.Send? && s.item != ITEM)) && K.Enabled(j.k, s)
    case OfLoop(s) =>
      && LoopStep(s) && K.Enabled(j.k, s) && (U.Resting(j.u.loop) || j.u.loop.Waiting?)
      && (MoveOf(j.k, s).Moves? ==> U.Enabled(j.u, MoveOf(j.k, s).s))
  }

  ghost function Next(j: State, step: Step): State
    requires Enabled(j, step)
  {
    match step
    case OfStack(s) => j.(u := U.Next(j.u, s))
    case OfCallback(s) => j.(u := U.Next(j.u, s))
    case Announce(s, tid) => State(U.Next(j.u, s), K.Next(j.k, K.Send(tid, ITEM)))
    case OfSender(s) => j.(k := K.Next(j.k, s))
    case OfLoop(s) =>
      State(if MoveOf(j.k, s).Moves? then U.Next(j.u, MoveOf(j.k, s).s) else j.u, K.Next(j.k, s))
  }

  // ----- how the two sides are tied together

  datatype Part = Preparing | Waits | Invoking

  /** The part of its cycle the loop is in, seen from the sockets, */
  function PartOf(l: U.LoopPc): Part {
    var p := UI.Phase(l);
    if p.Prepare? || p.Revisit? then Preparing else if p.Waiting? then Waits else Invoking
  }

  /** and seen from the wait section. */
  function WaitPart(l: K.LoopPc): Part {
    if l.Want? then Preparing
    else if l.Decide? || l.Poll? || l.Unwant? || l.Recheck? then Waits
    else Invoking
  }

  /** pipecb has yet to come by the watcher in this iteration. */
  predicate Ahead(k: K.State) {
    || (k.loop.Invoke? && k.pipew.Fed?) || k.loop.Drain? || k.loop.Reset? || k.loop.Look? || k.loop.Lower?
    || ((k.loop.Scan? || k.loop.Clear?)
        && (k.loop.kind.Signal? || (K.Ahead(k.loop) <= |k.asyncs| && ITEM.id in k.asyncs[..K.Ahead(k.loop)])))
  }

  predicate InPipecb(l: K.LoopPc) { WaitPart(l).Invoking? && !l.Invoke? }

  ghost predicate Tied(j: State) {
    && (j.u.sent <==> ITEM in j.k.sent) && ITEM.id in j.k.asyncs && UI.NoTwice(j.k.asyncs)
    && PartOf(j.u.loop) == WaitPart(j.k.loop)
    && (InPipecb(j.k.loop) ==> j.u.loop.Invoke? && j.k.pipew.Idle?)
    && (Ahead(j.k) ==> UI.Phase(j.u.loop) == U.Invoke(false))
  }

  ghost predicate Inv(j: State) { UI.Inv(j.u) && K.Inv(j.k) && Tied(j) }

  // ----- the sockets' side

  lemma StackSent(u: U.State, s: U.Step)
    requires StackStep(s) && U.Enabled(u, s)
    ensures var u' := U.Next(u, s); u'.loop == u.loop && u'.sent == (u.sent || Announces(u, s))
  {
  }

  predicate InOperation(l: U.LoopPc) { l.Arm? || l.Report? || l.Disarm? || l.Unlink? }

  lemma ArmGoes(u: U.State)
    requires u.loop.Arm? && u.loop.so in u.socks
    ensures var u' := U.ArmStep(u); UI.Phase(u'.loop) == U.Return(u.loop.back) && u'.sent == u.sent
  {
  }

  lemma ReportGoes(u: U.State)
    requires u.loop.Report? && u.loop.so in u.socks
    ensures var u' := U.ReportStep(u);
            UI.Phase(u'.loop) == U.Return(u.loop.back) && u'.sent == (u.sent || Announces(u, U.LoopGo))
  {
  }

  lemma StopGoes(u: U.State)
    requires (u.loop.Disarm? || u.loop.Unlink?) && u.loop.so in u.socks
    ensures var u' := if u.loop.Disarm? then U.DisarmStep(u) else U.UnlinkStep(u);
            UI.Phase(u'.loop) == U.Return(u.loop.back) && u'.sent == u.sent
  {
    hide U.Minus, U.Dropped;
  }

  /** The operations on a socket's watchers end where they were started. */
  lemma OperationGoes(u: U.State)
    requires U.LoopEnabled(u) && InOperation(u.loop)
    ensures var u' := U.LoopStep(u);
            UI.Phase(u'.loop) == UI.Phase(u.loop) && u'.sent == (u.sent || Announces(u, U.LoopGo))
  {
    hide U.SideFree, U.ArmStep, U.ReportStep, U.DisarmStep, U.UnlinkStep, U.Return;
    if u.loop.Arm? {
      ArmGoes(u);
    } else if u.loop.Report? {
      ReportGoes(u);
    } else {
      StopGoes(u);
    }
  }

  lemma RevisitGoes(u: U.State)
    requires u.loop.Revisit? && (u.loop.rest != [] ==> u.loop.rest[0] in u.socks)
    ensures var u' := U.RevisitStep(u); PartOf(u'.loop).Preparing? && u'.sent == u.sent
  {
    hide U.Sides;
  }

  predicate InDrain(l: U.LoopPc) { l.Swap? || l.Visit? || l.Quell? || l.Deliver? }

  lemma DrainGoes(u: U.State)
    requires InDrain(u.loop) && (u.loop.Quell? || u.loop.Deliver? ==> u.loop.so in u.socks)
    requires u.loop.Visit? && u.loop.rest != [] ==> u.loop.rest[0] in u.socks
    ensures var u' := U.DrainStep(u); PartOf(u'.loop).Invoking? && u'.sent == u.sent
  {
    hide U.Sides, U.Feeds;
  }

  /** So do the drain and the pass that enables upcalls. */
  lemma PassGoes(u: U.State)
    requires U.LoopEnabled(u) && !InOperation(u.loop)
    ensures var u' := U.LoopStep(u);
            && PartOf(u'.loop) == PartOf(u.loop) && UI.Phase(u.loop) != U.Invoke(false)
            && u'.sent == u.sent && !Announces(u, U.LoopGo)
  {
    hide U.SideFree, U.RevisitStep, U.DrainStep;
    if u.loop.Revisit? {
      RevisitGoes(u);
    } else {
      DrainGoes(u);
    }
  }

  /** A callback of a socket's watcher leaves the loop in the same part of its cycle. */
  lemma CallbackGoes(u: U.State, s: U.Step)
    requires CallbackStep(s) && U.Enabled(u, s) && (u.queued ==> UI.Phase(u.loop) == U.Invoke(true))
    ensures var u' := U.Next(u, s);
            && PartOf(u'.loop) == PartOf(u.loop)
            && (UI.Phase(u.loop) == U.Invoke(false) ==> UI.Phase(u'.loop) == U.Invoke(false))
            && u'.sent == (u.sent || Announces(u, s))
  {
    hide U.LoopStep, U.LoopEnabled, U.Sides;
    if s.LoopGo? {
      if InOperation(u.loop) {
        OperationGoes(u);
      } else {
        PassGoes(u);
      }
    }
  }

  // ----- the wait section's side

  lemma SwapRemoveKeeps(ids: seq<nat>, k: nat, id: nat)
    requires k < |ids| && ids[k] != id && id in ids && UI.NoTwice(ids)
    ensures id in K.SwapRemove(ids, k) && UI.NoTwice(K.SwapRemove(ids, k))
  {
    var l, n := K.SwapRemove(ids, k), |ids| - 1;
    var i :| 0 <= i < |ids| && ids[i] == id;
    assert l[if i == n then k else i] == id;
    assert forall a :: 0 <= a < n ==> l[a] == ids[if a == k then n else a];
  }

  /** The watchers after a step of the loop: ours stays started, and is looked at once. */
  lemma LoopAsyncs(k: K.State, s: K.Step)
    requires LoopStep(s) && K.Enabled(k, s) && ITEM.id in k.asyncs && UI.NoTwice(k.asyncs)
    ensures var k' := K.Next(k, s); ITEM.id in k'.asyncs && UI.NoTwice(k'.asyncs)
    ensures !s.AsyncStart? && !s.AsyncStop? ==> K.Next(k, s).asyncs == k.asyncs
  {
    if s.AsyncStop? && s.id in k.asyncs {
      SwapRemoveKeeps(k.asyncs, K.IndexOf(k.asyncs, s.id), ITEM.id);
    }
    hide K.SwapRemove, K.IndexOf;
  }

  lemma LoopSent(k: K.State, s: K.Step)
    requires LoopStep(s) && K.Enabled(k, s)
    ensures ITEM in K.Next(k, s).sent <==> ITEM in k.sent && MoveOf(k, s) != Moves(U.Scan)
  {
    hide K.SwapRemove, K.IndexOf;
  }

  lemma LoopPart(k: K.State, s: K.Step)
    requires LoopStep(s) && K.Enabled(k, s)
    ensures var p, p' := WaitPart(k.loop), WaitPart(K.Next(k, s).loop);
            && (s.Again? ==> p.Invoking? && p'.Preparing?)
            && (MoveOf(k, s) == Moves(U.Wait) ==> p.Preparing? && p'.Waits?)
            && (MoveOf(k, s) == Moves(U.Polled) ==> p.Waits? && p'.Invoking?)
            && (MoveOf(k, s) == Moves(U.Scan) || MoveOf(k, s).Still? ==> p' == p)
  {
    hide K.SwapRemove, K.IndexOf, Feeding;
    if s.LoopGo? {
      LoopGoPart(k);
      hide K.LoopStep;
    }
  }

  lemma LoopGoPart(k: K.State)
    requires K.Enabled(k, K.LoopGo)
    ensures var p, p' := WaitPart(k.loop), WaitPart(K.LoopStep(k).loop);
            if k.loop.Want? then p.Preparing? && p'.Waits?
            else if k.loop.Recheck? then p.Waits? && p'.Invoking?
            else p' == p
  {
    LoopGoes(k);
    hide K.LoopStep;
  }

  /** Where the loop goes. */
  lemma LoopGoes(k: K.State)
    requires K.Enabled(k, K.LoopGo)
    ensures var l, l' := k.loop, K.LoopStep(k).loop;
            if l.Want? then l'.Decide?
            else if l.Decide? then l'.Poll?
            else if l.Unwant? then l'.Recheck?
            else if l.Recheck? then l'.Invoke?
            else (l.Invoke? || InPipecb(l)) && (l'.Invoke? || InPipecb(l'))
  {
    hide K.Watched;
  }

  /** pipecb is called once in an iteration, and comes by the watcher once. */
  lemma LoopAhead(k: K.State, s: K.Step)
    requires LoopStep(s) && K.Enabled(k, s) && ITEM.id in k.asyncs && UI.NoTwice(k.asyncs)
    requires InPipecb(k.loop) ==> k.pipew.Idle?
    ensures var k' := K.Next(k, s);
            && (Ahead(k') ==> MoveOf(k, s) == Moves(U.Polled) || (Ahead(k) && MoveOf(k, s).Still?))
            && (InPipecb(k'.loop) ==> k'.pipew.Idle?)
  {
    hide K.SwapRemove, K.IndexOf;
    if s.LoopGo? {
      GoAhead(k);
      hide K.LoopStep, Ahead;
    }
  }

  lemma GoAhead(k: K.State)
    requires K.Enabled(k, K.LoopGo) && ITEM.id in k.asyncs && UI.NoTwice(k.asyncs)
    requires InPipecb(k.loop) ==> k.pipew.Idle?
    ensures var k' := K.LoopStep(k);
            && (Ahead(k') ==> k.loop.Recheck? || (Ahead(k) && !k.loop.Want? && !Feeding(k)))
            && (InPipecb(k'.loop) ==> k'.pipew.Idle?)
  {
    if k.loop.Scan? || k.loop.Clear? {
      var ids, n := k.asyncs, K.Ahead(k.loop);
      if n > 0 && n <= |ids| {
        assert ids[..n] == ids[..n - 1] + [ids[n - 1]];
      }
    } else if k.loop.Lower? {
      assert k.asyncs[..|k.asyncs|] == k.asyncs;
    }
  }

  // ----- every step keeps the two sides tied

  lemma StackTied(j: State, s: U.Step)
    requires Tied(j) && StackStep(s) && U.Enabled(j.u, s) && !Announces(j.u, s)
    ensures Tied(j.(u := U.Next(j.u, s)))
  {
    StackSent(j.u, s);
    hide U.Next, U.Enabled, Ahead, UI.NoTwice;
  }

  lemma CallbackTied(j: State, s: U.Step)
    requires Tied(j) && CallbackStep(s) && U.Enabled(j.u, s) && !Announces(j.u, s) && InCallbacks(j.k.loop)
    requires j.u.queued ==> UI.Phase(j.u.loop) == U.Invoke(true)
    ensures Tied(j.(u := U.Next(j.u, s)))
  {
    CallbackGoes(j.u, s);
    hide U.Next, U.Enabled, Ahead, UI.NoTwice;
  }

  lemma AnnounceTied(j: State, s: U.Step, tid: nat)
    requires Tied(j) && Enabled(j, Announce(s, tid)) && (j.u.queued ==> UI.Phase(j.u.loop) == U.Invoke(true))
    ensures Tied(Next(j, Announce(s, tid)))
  {
    if StackStep(s) {
      StackSent(j.u, s);
    } else {
      CallbackGoes(j.u, s);
    }
    hide U.Next, U.Enabled, UI.NoTwice;
  }

  lemma SenderTied(j: State, s: K.Step)
    requires Tied(j) && Enabled(j, OfSender(s))
    ensures Tied(Next(j, OfSender(s)))
  {
    if s.Go? {
      K.SenderKeepsRest(j.k, s.tid);
    }
    hide K.SenderStep, UI.NoTwice;
  }

  lemma LoopTied(j: State, s: K.Step)
    requires Tied(j) && Enabled(j, OfLoop(s))
    ensures Tied(Next(j, OfLoop(s)))
  {
    LoopAsyncs(j.k, s);
    LoopSent(j.k, s);
    LoopPart(j.k, s);
    LoopAhead(j.k, s);
    Moved(j, s);
    hide K.Next, K.Enabled, U.Next, U.Enabled, UI.NoTwice, Ahead, UI.Phase, WaitPart;
  }

  /** What the sockets' side does with a step of the loop. */
  lemma Moved(j: State, s: K.Step)
    requires Enabled(j, OfLoop(s))
    ensures var u, u' := j.u, Next(j, OfLoop(s)).u;
            match MoveOf(j.k, s)
            case Still => u' == u
            case Moves(m) =>
              && u'.sent == (u.sent && !m.Scan?)
              && (if m.Wait? then u'.loop.Waiting? else if m.Polled? then u'.loop == U.Invoke(false)
                  else if m.Scan? then u'.loop == U.Invoke(true) else u'.loop == U.Prepare(false))
  {
    hide K.Next, K.Enabled;
  }

  lemma StepInv(j: State, step: Step)
    requires Inv(j) && Enabled(j, step)
    ensures Inv(Next(j, step))
  {
    assert j.u.queued ==> UI.Phase(j.u.loop) == U.Invoke(true);
    hide UI.Inv, K.Inv, Tied, U.Next, U.Enabled, K.Next, K.Enabled, Announces;
    match step
    case OfStack(s) =>
      UI.StepInv(j.u, s);
      StackTied(j, s);
    case OfCallback(s) =>
      UI.StepInv(j.u, s);
      CallbackTied(j, s);
    case Announce(s, tid) =>
      UI.StepInv(j.u, s);
      K.StepInv(j.k, K.Send(tid, ITEM));
      AnnounceTied(j, s, tid);
    case OfSender(s) =>
      K.StepInv(j.k, s);
      SenderTied(j, s);
    case OfLoop(s) =>
      K.StepInv(j.k, s);
      if MoveOf(j.k, s).Moves? {
        UI.StepInv(j.u, MoveOf(j.k, s).s);
      }
      LoopTied(j, s);
  }

  // ----- runs

  ghost predicate CanRun(j: State, steps: seq<Step>)
    decreases |steps|
  {
    steps == [] || (Enabled(j, steps[0]) && CanRun(Next(j, steps[0]), steps[1..]))
  }

  ghost function Run(j: State, steps: seq<Step>): State
    requires CanRun(j, steps)
    decreases |steps|
  {
    if steps == [] then j else Run(Next(j, steps[0]), steps[1..])
  }

  lemma StartInv(j: State)
    requires Start(j)
    ensures Inv(j)
  {
    UI.StartInv(j.u);
    var k :| K.Start(k) && j.k == K.Next(k, K.AsyncStart(0));
    K.StepInv(k, K.AsyncStart(0));
    hide UI.Inv, K.Inv;
  }

  lemma {:induction false} RunInv(j: State, steps: seq<Step>)
    requires Inv(j) && CanRun(j, steps)
    ensures Inv(Run(j, steps))
    decreases |steps|
  {
    if steps != [] {
      hide Inv, Next, Enabled;
      StepInv(j, steps[0]);
      RunInv(Next(j, steps[0]), steps[1..]);
    }
  }

  lemma ReachableInv(start: State, steps: seq<Step>)
    requires Start(start) && CanRun(start, steps)
    ensures Inv(Run(start, steps))
  {
    hide Inv, CanRun, Run, Start;
    StartInv(start);
    RunInv(start, steps);
  }

  /** The batches started, and those finished, in a run. */
  function Starts(steps: seq<Step>): nat
    decreases |steps|
  {
    if steps == [] then 0 else (if steps[0] == OfStack(U.BatchStart) then 1 else 0) + Starts(steps[1..])
  }

  function Finishes(steps: seq<Step>): nat
    decreases |steps|
  {
    if steps == [] then 0 else (if steps[0] == OfStack(U.BatchFinish) then 1 else 0) + Finishes(steps[1..])
  }

  lemma StepBatch(j: State, step: Step)
    requires Enabled(j, step)
    ensures Next(j, step).u.inBatch
         == j.u.inBatch + (if step == OfStack(U.BatchStart) then 1 else 0)
            - (if step == OfStack(U.BatchFinish) then 1 else 0)
  {
    hide U.Next, U.Enabled, K.Next, K.Enabled;
    match step
    case OfStack(s) => UR.StepBatch(j.u, s);
    case OfCallback(s) => UR.StepBatch(j.u, s);
    case Announce(s, _) => UR.StepBatch(j.u, s);
    case OfSender(_) =>
    case OfLoop(s) =>
      if MoveOf(j.k, s).Moves? {
        UR.StepBatch(j.u, MoveOf(j.k, s).s);
      }
  }

  lemma {:induction false} RunBatches(j: State, steps: seq<Step>)
    requires CanRun(j, steps)
    ensures Run(j, steps).u.inBatch == j.u.inBatch + Starts(steps) - Finishes(steps)
    decreases |steps|
  {
    if steps != [] {
      hide Next, Enabled;
      StepBatch(j, steps[0]);
      RunBatches(Next(j, steps[0]), steps[1..]);
    }
  }

  /** From end to end: in every run, when the loop is in a poll that may block, the pipe is empty and no
      sender is on its way, every batch started is finished and uinet_pend_lock is free, then a side of a
      socket that is ready and has a watcher has a stack thread on its way with it.  The loop does not
      sleep on readiness. */
  lemma NoSleepOnReadiness(start: State, steps: seq<Step>, so: nat, d: U.Side)
    requires Start(start) && CanRun(start, steps)
    requires var j := Run(start, steps);
             && K.Quiet(j.k) && Starts(steps) == Finishes(steps) && j.u.lock.Free?
             && so in j.u.socks && d in j.u.socks[so].ready && U.Num(j.u.socks[so], d) > 0
    ensures UI.WakeFor(Run(start, steps).u, so, d)
  {
    RunBatches(start, steps);
    hide CanRun, Run, UI.Inv, K.Inv, Starts, Finishes;
    ReachableInv(start, steps);
    var j := Run(start, steps);
    K.QuietInv(j.k);
    assert ITEM !in j.k.sent && j.u.loop.Waiting? by { WaitsOutside(j); }
    if !UI.WakeFor(j.u, so, d) {
      UR.WaitingMissesNothing(j.u, so, d);
    }
  }

  lemma WaitsOutside(j: State)
    requires Tied(j) && K.Quiet(j.k) && (forall id :: id in j.k.asyncs ==> K.Item(K.Async, id) !in j.k.sent)
    ensures ITEM !in j.k.sent && j.u.loop.Waiting?
  {
  }

  /** The two sides do not hold each other up: where the loop is about to leave its wait section, or about
      to make the watcher pending, the sockets' side can follow. */
  lemma SidesFollow(start: State, steps: seq<Step>)
    requires Start(start) && CanRun(start, steps)
    ensures var j := Run(start, steps);
            j.k.loop.Recheck? || Feeding(j.k) ==> K.Enabled(j.k, K.LoopGo) && Enabled(j, OfLoop(K.LoopGo))
  {
    hide CanRun, Run, UI.Inv;
    ReachableInv(start, steps);
    var j := Run(start, steps);
    if j.k.loop.Recheck? || Feeding(j.k) {
      assert K.InScan(j.k);
      hide K.Inv;
      Followed(j);
    }
  }

  lemma Followed(j: State)
    requires Tied(j) && K.InScan(j.k) && (j.k.loop.Recheck? || Feeding(j.k))
    ensures K.Enabled(j.k, K.LoopGo) && Enabled(j, OfLoop(K.LoopGo))
  {
    if Feeding(j.k) {
      var n := K.Ahead(j.k.loop);
      assert j.k.asyncs[..n][n - 1] == ITEM.id;
      assert Ahead(j.k);
    }
  }
}
