/** The upcall protocol does not get stuck: threads on their way get through, and the loop by itself gets
    to wait, and once around feeds every watcher of a side that is ready. */
module EvProgress {
  import opened EvUinet
  import opened EvUinetInvariant
  import opened EvUinetRuns

  lemma {:induction false} RunJoin(s: State, a: seq<Step>, b: seq<Step>)
    requires CanRun(s, a) && CanRun(Run(s, a), b)
    ensures CanRun(s, a + b) && Run(s, a + b) == Run(Run(s, a), b)
    decreases |a|
  {
    if a == [] {
      assert a + b == b;
    } else {
      hide Next, Enabled;
      assert (a + b)[0] == a[0] && (a + b)[1..] == a[1..] + b;
      RunJoin(Next(s, a[0]), a[1..], b);
    }
  }

  lemma RunOne(s: State, step: Step)
    requires Enabled(s, step)
    ensures CanRun(s, [step]) && Run(s, [step]) == Next(s, step)
  {
    hide Enabled, Next;
    assert [step][1..] == [];
  }

  // ----- threads get through

  function Rank(pc: WakePc): nat {
    match pc
    case Arrive => 4
    case Filter => 3
    case Post(part) => if part.Insert? then 2 else if part.Announce? then 1 else 0
  }

  /** The thread is not held up. */
  ghost predicate CanGo(s: State, t: nat) {
    && t in s.wakes && (s.lock.Free? || s.lock == ByWake(t))
    && (s.wakes[t].pc.Arrive? ==> SideFree(s, s.wakes[t].so, s.wakes[t].side))
  }

  lemma ThreadStep(s: State, t: nat)
    requires ThreadOk(s, t) && CanGo(s, t)
    ensures Enabled(s, WakeGo(t))
    ensures var s' := Next(s, WakeGo(t));
            && s'.loop == s.loop
            && if t in s'.wakes then
                 CanGo(s', t) && Rank(s'.wakes[t].pc) < Rank(s.wakes[t].pc) && s'.wakes.Keys == s.wakes.Keys
               else s'.wakes == s.wakes - {t} && s'.lock.Free?
  {
    hide SideFree;
  }

  lemma ThreadIs(s: State, t: nat)
    requires Inv(s) && t in s.wakes
    ensures ThreadOk(s, t)
  {
    hide ThreadOk, Core, Alone, AllHeard, Told;
  }

  /** A thread that is not held up gets through. */
  lemma {:induction false} ThreadThrough(s: State, t: nat) returns (more: seq<Step>)
    requires Inv(s) && CanGo(s, t)
    ensures CanRun(s, more) && (forall step <- more :: step == WakeGo(t))
    ensures var s' := Run(s, more);
            Inv(s') && s'.lock.Free? && s'.loop == s.loop && s'.wakes.Keys == s.wakes.Keys - {t}
    decreases Rank(s.wakes[t].pc)
  {
    hide Inv, Enabled, Next, ThreadOk, SideFree;
    ThreadIs(s, t);
    ThreadStep(s, t);
    StepInv(s, WakeGo(t));
    hide CanGo;
    var s' := Next(s, WakeGo(t));
    var rest := [];
    if t in s'.wakes {
      rest := ThreadThrough(s', t);
    }
    more := [WakeGo(t)] + rest;
    assert more[1..] == rest;
  }

  /** With the lock free, all of them do. */
  lemma {:induction false} AllThrough(s: State) returns (more: seq<Step>)
    requires Inv(s) && s.lock.Free?
    ensures CanRun(s, more) && (forall step <- more :: step.WakeGo?)
    ensures var s' := Run(s, more); Inv(s') && s'.lock.Free? && s'.loop == s.loop && s'.wakes == map[]
    decreases |s.wakes.Keys|
  {
    if s.wakes == map[] {
      more := [];
    } else {
      var t :| t in s.wakes;
      if x :| x in s.wakes && !s.wakes[x].pc.Arrive? {
        t := x;
      }
      assert CanGo(s, t);
      hide Inv, Enabled, Next, CanGo;
      var a := ThreadThrough(s, t);
      var b := AllThrough(Run(s, a));
      more := a + b;
      RunJoin(s, a, b);
    }
  }

  /** Whoever has the lock gives it back. */
  lemma Released(s: State) returns (more: seq<Step>)
    requires Inv(s)
    ensures CanRun(s, more) && (forall step <- more :: step.WakeGo? || step.BatchSend? || step.LoopGo?)
    ensures Inv(Run(s, more)) && Run(s, more).lock.Free?
  {
    more := [];
    if s.lock.ByBatch? {
      StepInv(s, BatchSend);
      RunOne(s, BatchSend);
      more := [BatchSend];
    } else if s.lock.ByWake? {
      more := ThreadThrough(s, s.lock.tid);
    } else if s.lock.ByLoop? {
      more := LoopReleases(s);
    }
  }

  lemma LoopReleases(s: State) returns (more: seq<Step>)
    requires Inv(s) && s.lock.ByLoop?
    ensures CanRun(s, more) && (forall step <- more :: step.LoopGo?)
    ensures Inv(Run(s, more)) && Run(s, more).lock.Free?
  {
    assert s.loop.Report? && !s.loop.part.Insert? && s.loop.so in s.socks;
    hide Inv, Enabled, Next;
    more := [LoopGo];
    ReportGoes(s);
    StepInv(s, LoopGo);
    RunOne(s, LoopGo);
    if s.loop.part.Announce? {
      var s1 := Next(s, LoopGo);
      ReportGoes(s1);
      StepInv(s1, LoopGo);
      RunOne(s1, LoopGo);
      more := [LoopGo] + [LoopGo];
      RunJoin(s, [LoopGo], [LoopGo]);
    }
  }

  lemma ReportGoes(s: State)
    requires s.loop.Report? && !s.loop.part.Insert? && s.loop.so in s.socks
    ensures Enabled(s, LoopGo)
    ensures var s' := Next(s, LoopGo);
            if s.loop.part.Announce? then s'.loop == s.loop.(part := Mark(true)) && s'.socks == s.socks
            else s'.lock.Free?
  {
  }

  // ----- the loop by itself

  /** Only the loop is at work. */
  predicate Solo(s: State) { s.wakes == map[] && (s.lock.Free? || s.lock.ByLoop?) }

  /** What the loop can rely on. */
  ghost predicate Fit(s: State) {
    && (HasSocket(s.loop) ==> s.loop.so in s.socks)
    && (s.loop.Visit? || s.loop.Revisit? ==> s.loop.rest != [] ==> s.loop.rest[0] in s.socks)
    && (s.lock.ByLoop? <==> s.loop.Report? && !s.loop.part.Insert?)
    && (s.loop.Arm? && s.loop.look ==> s.loop.sides != [])
    && (s.loop.Arm? || s.loop.Disarm? || s.loop.Quell? ==> |s.loop.sides| <= 2)
  }

  lemma InvFit(s: State)
    requires Inv(s)
    ensures Fit(s)
  {
    if s.loop.Visit? && s.loop.rest != [] {
      assert s.loop.rest[0] in DrainTodo(s.loop);
    }
    hide AllArmed, AllCounted, AllPlaced, AllHeard, Alone, Told, NoTwice, Default;
  }

  predicate Own(step: Step) {
    step.LoopGo? || step.Reenable? || step.Wait? || step.Polled? || step.Scan? || step.Drain? || step.Iterate?
  }

  /** What the loop does next on its way to the wait. */
  function Choice(s: State): Step {
    if s.loop.Prepare? then if s.loop.reenabled then Wait else Reenable
    else if s.loop.Invoke? then if s.queued then Step.Drain else Iterate
    else LoopGo
  }

  /** How far the loop is from its wait, in callbacks, */
  function RestCost(l: LoopPc, s: State): nat {
    if l.Waiting? then 0
    else if l == Prepare(true) then 1
    else if l.Revisit? then 2 + 10 * |l.rest|
    else if l.Prepare? then 3 + 10 * |s.prev|
    else if !s.queued then 4 + 10 * |s.prev|
    else 7 + 15 * |s.pend|
  }

  /** in an operation on a socket, */
  function OpCost(l: LoopPc): nat {
    var more := if (l.Arm? || l.Report?) && l.back.ToInvoke? then 15 else 0;
    if l.Arm? then 2 * |l.sides| + more + if l.look then 4 else 5
    else if l.Report? then if l.part.Insert? then 3 + more else if l.part.Announce? then 2 else 1
    else if l.Disarm? then |l.sides| + 2
    else 1
  }

  /** and in the drain. */
  function DrainCost(l: LoopPc, s: State): nat {
    if l.Swap? then 6 + 15 * |s.pend|
    else if l.Visit? then 5 + 5 * |l.rest| + 10 * |s.prev|
    else if l.Quell? then 7 + |l.sides| + 5 * |l.rest| + 10 * |s.prev|
    else if l.Deliver? then 6 + 5 * |l.rest| + 10 * |s.prev|
    else 0
  }

  predicate InOp(l: LoopPc) { l.Arm? || l.Report? || l.Disarm? || l.Unlink? }

  predicate InDrain(l: LoopPc) { l.Swap? || l.Visit? || l.Quell? || l.Deliver? }

  function Cost(s: State): nat {
    if InOp(s.loop) then OpCost(s.loop) + RestCost(Return(s.loop.back), s)
    else if InDrain(s.loop) then DrainCost(s.loop, s)
    else RestCost(s.loop, s)
  }

  /** A step of the loop by itself brings it nearer. */
  ghost predicate Nearer(s: State, s': State) { Solo(s') && Cost(s') < Cost(s) }

  lemma ArmNearer(s: State)
    requires Fit(s) && Solo(s) && s.loop.Arm?
    ensures Nearer(s, ArmStep(s))
  {
  }

  lemma ReportNearer(s: State)
    requires Fit(s) && Solo(s) && s.loop.Report?
    ensures Nearer(s, ReportStep(s))
  {
  }

  lemma {:induction false} MinusShorter(list: seq<nat>, so: nat)
    ensures |Minus(list, so)| <= |list|
    decreases |list|
  {
    if list != [] {
      MinusShorter(list[1..], so);
    }
  }

  lemma StopNearer(s: State)
    requires Fit(s) && Solo(s) && (s.loop.Disarm? || s.loop.Unlink?)
    ensures Nearer(s, if s.loop.Disarm? then DisarmStep(s) else UnlinkStep(s))
  {
    hide Dropped, Minus;
    MinusShorter(s.prev, s.loop.so);
    MinusShorter(s.pend, s.loop.so);
  }

  lemma RevisitNearer(s: State)
    requires Fit(s) && Solo(s) && s.loop.Revisit?
    ensures Nearer(s, RevisitStep(s))
  {
  }

  lemma DrainNearer(s: State)
    requires Fit(s) && Solo(s) && InDrain(s.loop) && !s.queued
    ensures Nearer(s, DrainStep(s))
  {
    hide Feeds;
  }

  lemma ControlNearer(s: State)
    requires Solo(s) && Resting(s.loop)
    ensures Enabled(s, Choice(s)) && Nearer(s, Next(s, Choice(s))) && Own(Choice(s))
  {
  }

  lemma GoEnabled(s: State)
    requires Fit(s) && Solo(s) && !Resting(s.loop) && !s.loop.Waiting?
    ensures LoopEnabled(s) && Enabled(s, LoopGo) && Next(s, LoopGo) == LoopStep(s)
  {
  }

  lemma ChoiceNearer(s: State)
    requires Fit(s) && Solo(s) && !s.loop.Waiting? && (InDrain(s.loop) ==> !s.queued)
    ensures Enabled(s, Choice(s)) && Nearer(s, Next(s, Choice(s))) && Own(Choice(s))
  {
    if Resting(s.loop) {
      ControlNearer(s);
      hide *;
    } else {
      GoEnabled(s);
      hide Enabled, Next, LoopEnabled, ArmStep, ReportStep, DisarmStep, UnlinkStep, RevisitStep, DrainStep, Nearer, Fit;
      if s.loop.Arm? {
        ArmNearer(s);
      } else if s.loop.Report? {
        ReportNearer(s);
      } else if s.loop.Disarm? || s.loop.Unlink? {
        StopNearer(s);
      } else if s.loop.Revisit? {
        RevisitNearer(s);
      } else {
        DrainNearer(s);
      }
    }
  }

  lemma InvDrains(s: State)
    requires Inv(s) && InDrain(s.loop)
    ensures !s.queued
  {
    hide AllArmed, AllCounted, AllPlaced, AllHeard, Alone, Told, NoTwice, Default, Shape, Lists;
  }

  /** No watcher is being stopped. */
  predicate NoStop(l: LoopPc) { !l.Disarm? && !l.Unlink? }

  /** Which sides are ready, and the watchers, are as before. */
  ghost predicate SameSocks(s: State, s': State) {
    && s'.socks.Keys == s.socks.Keys
    && forall so <- s.socks :: s'.socks[so].ready == s.socks[so].ready && s'.socks[so].head == s.socks[so].head
  }

  ghost predicate Keeps(s: State, s': State) {
    SameSocks(s, s') && NoStop(s'.loop) && s'.inBatch == s.inBatch
  }

  lemma OwnKeeps(s: State, step: Step)
    requires Enabled(s, step) && Own(step) && NoStop(s.loop)
    ensures Keeps(s, Next(s, step))
  {
    if step.LoopGo? {
      LoopKeeps(s);
    }
    hide LoopStep, LoopEnabled;
  }

  lemma LoopKeeps(s: State)
    requires LoopEnabled(s) && NoStop(s.loop)
    ensures Keeps(s, LoopStep(s))
  {
    if s.loop.Arm? {
      ArmKeeps(s);
    } else if s.loop.Report? {
      ReportKeeps(s);
    } else if s.loop.Revisit? {
      RevisitKeeps(s);
    } else {
      DrainKeeps(s);
    }
    hide ArmStep, ReportStep, RevisitStep, DrainStep, SideFree, Keeps;
  }

  lemma ArmKeeps(s: State)
    requires s.loop.Arm? && s.loop.so in s.socks
    ensures Keeps(s, ArmStep(s))
  {
  }

  lemma ReportKeeps(s: State)
    requires s.loop.Report? && s.loop.so in s.socks
    ensures Keeps(s, ReportStep(s))
  {
  }

  lemma RevisitKeeps(s: State)
    requires s.loop.Revisit? && (s.loop.rest != [] ==> s.loop.rest[0] in s.socks)
    ensures Keeps(s, RevisitStep(s))
  {
    hide Sides;
  }

  lemma DrainKeeps(s: State)
    requires LoopEnabled(s) && InDrain(s.loop)
    ensures Keeps(s, DrainStep(s))
  {
    hide Sides, SideFree, Feeds;
  }

  /** The loop by itself gets to wait. */
  lemma {:induction false} GetsToWait(s: State) returns (more: seq<Step>)
    requires Inv(s) && Solo(s)
    ensures CanRun(s, more) && (forall step <- more :: Own(step) && !step.Scan? && !step.Polled?)
    ensures var t := Run(s, more);
            Inv(t) && Solo(t) && t.loop.Waiting? && (NoStop(s.loop) ==> SameSocks(s, t) && t.inBatch == s.inBatch)
    decreases Cost(s)
  {
    if s.loop.Waiting? {
      more := [];
    } else {
      hide Inv, Enabled, Next, Solo, Cost, Choice, NoStop, SameSocks;
      ChoiceGoes(s);
      var s' := Next(s, Choice(s));
      var rest := GetsToWait(s');
      more := [Choice(s)] + rest;
      assert more[1..] == rest;
      if NoStop(s.loop) {
        SameSocksOn(s, s', Run(s', rest));
      }
    }
  }

  lemma ChoiceGoes(s: State)
    requires Inv(s) && Solo(s) && !s.loop.Waiting?
    ensures var step := Choice(s);
            && Enabled(s, step) && Own(step) && !step.Scan? && !step.Polled?
            && Inv(Next(s, step)) && Solo(Next(s, step)) && Cost(Next(s, step)) < Cost(s)
            && (NoStop(s.loop) ==> Keeps(s, Next(s, step)))
  {
    hide Inv, Fit, Enabled, Next, Solo, Cost, InDrain, Keeps;
    InvFit(s);
    if InDrain(s.loop) {
      InvDrains(s);
    }
    ChoiceNearer(s);
    StepInv(s, Choice(s));
    if NoStop(s.loop) {
      OwnKeeps(s, Choice(s));
    }
  }

  lemma SameSocksOn(s: State, s': State, s'': State)
    requires SameSocks(s, s') && SameSocks(s', s'')
    ensures SameSocks(s, s'')
  {
  }

  /** From every state that a run reaches, the threads on their way get through and the loop gets to wait:
      nothing is held up for good. */
  lemma ComesToWait(start: State, steps: seq<Step>) returns (through: seq<Step>, more: seq<Step>)
    requires Start(start) && CanRun(start, steps)
    ensures CanRun(start, steps + through + more)
    ensures forall step <- through :: step.WakeGo? || step.BatchSend? || step.LoopGo?
    ensures forall step <- more :: Own(step)
    ensures var t := Run(start, steps + through + more);
            Inv(t) && t.loop.Waiting? && t.wakes == map[] && t.lock.Free?
  {
    hide Inv, Enabled, Next, Start;
    ReachableInv(start, steps);
    var s := Run(start, steps);
    var a := Released(s);
    var b := AllThrough(Run(s, a));
    through := a + b;
    RunJoin(s, a, b);
    var s' := Run(s, through);
    more := GetsToWait(s');
    InvFit(Run(s', more));
    RunJoin(start, steps, through);
    RunJoin(start, steps + through, more);
  }

  // ----- everyone is served

  /** The watcher w waits for the side d of the socket, which is ready. */
  predicate Due(s: State, so: nat, w: Watcher, d: Side) {
    so in s.socks && d in s.socks[so].ready && w in s.socks[so].head && d in w.events
  }

  lemma {:induction false} CountsOne(head: seq<Watcher>, w: Watcher, d: Side)
    requires w in head && d in w.events
    ensures CountOf(head, d) > 0
    decreases |head|
  {
    if head[0] != w {
      assert head == [head[0]] + head[1..];
      CountsOne(head[1..], w, d);
    }
  }

  /** While the loop waits, all that is due is on the pending list. */
  lemma DueIsPending(s: State, so: nat, w: Watcher, d: Side)
    requires Inv(s) && s.loop.Waiting? && s.wakes == map[] && s.lock.Free? && s.inBatch == 0 && Due(s, so, w, d)
    ensures so in s.pend && d in s.socks[so].events && s.sent
  {
    assert Counted(s, so);
    CountsOne(s.socks[so].head, w, d);
    hide Inv;
    WaitingMissesNothing(s, so, d);
  }

  /** The loop finds the async event and starts the drain. */
  lemma StartsDrain(s: State)
    requires s.loop.Waiting? && s.lock.Free? && s.sent && s.wakes == map[]
    ensures CanRun(s, [Polled, Scan, Step.Drain, LoopGo])
    ensures var t := Run(s, [Polled, Scan, Step.Drain, LoopGo]);
            && t.loop == Visit(s.pend) && t.socks == s.socks && t.fed == s.fed && t.inBatch == s.inBatch
            && t.wakes == map[] && t.lock.Free?
  {
    var s1 := Next(s, Polled);
    var s2 := Next(s1, Scan);
    var s3 := Next(s2, Step.Drain);
    assert [LoopGo][1..] == [] && [Step.Drain, LoopGo][1..] == [LoopGo];
    assert [Scan, Step.Drain, LoopGo][1..] == [Step.Drain, LoopGo];
    assert [Polled, Scan, Step.Drain, LoopGo][1..] == [Scan, Step.Drain, LoopGo];
    assert CanRun(s3, [LoopGo]);
    assert CanRun(s2, [Step.Drain, LoopGo]);
    assert CanRun(s1, [Scan, Step.Drain, LoopGo]);
  }

  /** Once around from its wait, the loop feeds all that is due. */
  lemma OnceAround(s: State) returns (more: seq<Step>)
    requires Inv(s) && s.loop.Waiting? && s.wakes == map[] && s.lock.Free? && s.inBatch == 0
    ensures CanRun(s, more) && (forall step <- more :: Own(step))
    ensures var t := Run(s, more);
            && Inv(t) && t.loop.Waiting? && t.wakes == map[] && t.lock.Free? && t.inBatch == 0 && s.fed <= t.fed
            && SameSocks(s, t)
            && forall so, w, d :: Due(s, so, w, d) ==> Got(t.fed[|s.fed|..], so, w, d)
  {
    hide Inv, Enabled, Next, Due, Got;
    more := [];
    if exists so, w, d :: Due(s, so, w, d) {
      var so, w, d :| Due(s, so, w, d);
      DueIsPending(s, so, w, d);
      var first := [Polled, Scan, Step.Drain, LoopGo];
      StartsDrain(s);
      RunInv(s, first);
      var s' := Run(s, first);
      var rest := GetsToWait(s');
      InvFit(Run(s', rest));
      more := first + rest;
      RunJoin(s, first, rest);
      FedGrows(s', rest);
      forall so, w, d | Due(s, so, w, d)
        ensures Got(Run(s, more).fed[|s.fed|..], so, w, d)
      {
        DueIsPending(s, so, w, d);
        assert InLine(s', so, w, d) by { DueInLine(s, s', so, w, d); }
        DrainDelivers(s', rest, so, w, d);
      }
    }
  }

  lemma DueInLine(s: State, s': State, so: nat, w: Watcher, d: Side)
    requires Due(s, so, w, d) && so in s.pend && d in s.socks[so].events
    requires s'.loop == Visit(s.pend) && s'.socks == s.socks
    ensures InLine(s', so, w, d)
  {
  }

  /** Open batches are finished. */
  lemma {:induction false} BatchesFinish(s: State) returns (more: seq<Step>)
    requires Inv(s) && s.lock.Free?
    ensures CanRun(s, more) && (forall step <- more :: step.BatchFinish? || step.BatchSend?)
    ensures var t := Run(s, more);
            && Inv(t) && t.lock.Free? && t.inBatch == 0 && t.loop == s.loop && t.wakes == s.wakes && t.socks == s.socks
            && t.fed == s.fed
    decreases s.inBatch
  {
    hide Inv;
    more := [];
    if s.inBatch > 0 {
      var s1 := Next(s, BatchFinish);
      var s2 := Next(s1, BatchSend);
      StepInv(s, BatchFinish);
      StepInv(s1, BatchSend);
      var rest := BatchesFinish(s2);
      hide Enabled, Next;
      more := [BatchFinish] + ([BatchSend] + rest);
      assert ([BatchSend] + rest)[1..] == rest && more[1..] == [BatchSend] + rest;
    }
  }

  predicate Settling(step: Step) { Own(step) || step.WakeGo? || step.BatchFinish? || step.BatchSend? }

  lemma WakeKeeps(s: State, tid: nat)
    requires Enabled(s, WakeGo(tid))
    ensures SameSocks(s, Next(s, WakeGo(tid))) && Next(s, WakeGo(tid)).loop == s.loop
  {
    hide SideFree;
    if s.wakes[tid].pc.Post? && s.wakes[tid].pc.part.Mark? {
      MarkedKeeps(s, tid, s.wakes[tid].pc.part.added);
    } else {
      assert WakeStep(s, tid).socks == s.socks;
    }
    hide Marked;
  }

  lemma MarkedKeeps(s: State, tid: nat, added: bool)
    requires tid in s.wakes && s.wakes[tid].so in s.socks
    ensures SameSocks(s, Marked(s, tid, added)) && Marked(s, tid, added).loop == s.loop
  {
  }

  lemma SettlingKeeps(s: State, step: Step)
    requires Enabled(s, step) && Settling(step) && NoStop(s.loop)
    ensures SameSocks(s, Next(s, step)) && NoStop(Next(s, step).loop)
  {
    if Own(step) {
      OwnKeeps(s, step);
      hide *;
    } else if step.WakeGo? {
      WakeKeeps(s, step.tid);
      hide *;
    } else {
      hide SideFree, LoopStep, ControlStep;
    }
  }

  lemma {:induction false} RunKeeps(s: State, steps: seq<Step>)
    requires CanRun(s, steps) && NoStop(s.loop) && forall step <- steps :: Settling(step)
    ensures SameSocks(s, Run(s, steps))
    decreases |steps|
  {
    if steps != [] {
      hide Next, Enabled, NoStop, SameSocks;
      SettlingKeeps(s, steps[0]);
      var s' := Next(s, steps[0]);
      RunKeeps(s', steps[1..]);
      SameSocksOn(s, s', Run(s', steps[1..]));
    } else {
      hide Next, Enabled;
    }
  }

  /** From every state that a run reaches: once the threads on their way are through and the batches
      finished, the loop by itself feeds every watcher that waits for a side that is ready, and waits
      again. */
  lemma EveryoneServed(start: State, steps: seq<Step>) returns (more: seq<Step>)
    requires Start(start) && CanRun(start, steps)
    ensures CanRun(start, steps + more)
    ensures forall step <- more :: Settling(step)
    ensures var s, t := Run(start, steps), Run(start, steps + more);
            && t.loop.Waiting? && t.wakes == map[] && t.lock.Free? && t.inBatch == 0 && s.fed <= t.fed
            && forall so, w, d :: Due(t, so, w, d) ==> Got(t.fed[|s.fed|..], so, w, d)
  {
    hide Inv, Enabled, Next, Due, Got, Start;
    var a, b := ComesToWait(start, steps);
    var s1 := Run(start, steps + a + b);
    var c := BatchesFinish(s1);
    var s2 := Run(s1, c);
    var d := OnceAround(s2);
    RunJoin(s1, c, d);
    RunJoin(start, steps + a + b, c + d);
    more := a + b + (c + d);
    assert steps + a + b + (c + d) == steps + more;
    assert steps + a + b == steps + (a + b);
    Outlasts(start, steps, a + b, s1.fed);
    var s, t := Run(start, steps), Run(start, steps + more);
    forall so, w, x | Due(t, so, w, x)
      ensures Got(t.fed[|s.fed|..], so, w, x)
    {
      assert Due(s2, so, w, x) by { SameDue(s2, t, so, w, x); }
      GotMore(t.fed, t.fed, |s.fed|, |s2.fed|, so, w, x);
    }
  }

  /** So whenever the stack wakes a side of a socket that has become ready, the watchers that wait for it
      are fed, whatever has happened before. */
  lemma WakeIsServed(start: State, steps: seq<Step>, tid: nat, so: nat, d: Side, w: Watcher) returns (more: seq<Step>)
    requires Start(start) && CanRun(start, steps)
    requires var s := Run(start, steps);
             tid !in s.wakes && so in s.socks && w in s.socks[so].head && d in w.events && NoStop(s.loop)
    ensures CanRun(start, steps + [Wakeup(tid, so, d, true)] + more) && (forall step <- more :: Settling(step))
    ensures var s, t := Run(start, steps), Run(start, steps + [Wakeup(tid, so, d, true)] + more);
            s.fed <= t.fed && Got(t.fed[|s.fed|..], so, w, d)
  {
    var wake := Wakeup(tid, so, d, true);
    var s := Run(start, steps);
    assert Enabled(s, wake);
    var s1 := Next(s, wake);
    assert Due(s1, so, w, d) && NoStop(s1.loop) && s1.fed == s.fed;
    hide Inv, Enabled, Next, Due, Got, Start, NoStop;
    RunOne(s, wake);
    RunJoin(start, steps, [wake]);
    more := EveryoneServed(start, steps + [wake]);
    RunCut(start, steps + [wake], more);
    RunKeeps(s1, more);
    SameDue(Run(s1, more), s1, so, w, d);
  }

  lemma SameDue(s: State, t: State, so: nat, w: Watcher, d: Side)
    requires (SameSocks(s, t) || SameSocks(t, s)) && Due(t, so, w, d)
    ensures Due(s, so, w, d)
  {
  }

  lemma Outlasts(start: State, steps: seq<Step>, more: seq<Step>, fed: seq<Feed>)
    requires CanRun(start, steps) && CanRun(start, steps + more) && Run(start, steps + more).fed == fed
    ensures Run(start, steps).fed <= fed
  {
    hide Enabled, Next;
    RunCut(start, steps, more);
    FedGrows(Run(start, steps), more);
  }

  lemma {:induction false} RunCut(s: State, a: seq<Step>, b: seq<Step>)
    requires CanRun(s, a + b)
    ensures CanRun(s, a) && CanRun(Run(s, a), b) && Run(s, a + b) == Run(Run(s, a), b)
    decreases |a|
  {
    if a == [] {
      assert a + b == b;
    } else {
      hide Next, Enabled;
      assert (a + b)[0] == a[0] && (a + b)[1..] == a[1..] + b;
      RunCut(Next(s, a[0]), a[1..], b);
    }
  }
}
