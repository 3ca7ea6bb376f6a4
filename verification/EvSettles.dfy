/** The upcalls and the wakeup together come to rest: from every state, once no more is asked of them, the
    loop gets to a poll that may block, with nothing in the pipe and nobody on its way. */
module EvSettles {
  import U = EvUinet
  import UI = EvUinetInvariant
  import UR = EvUinetRuns
  import UP = EvProgress
  import K = EvWakeup
  import KR = EvRest
  import opened EvEndToEnd

  lemma {:induction false} RunJoin(j: State, a: seq<Step>, b: seq<Step>)
    requires CanRun(j, a) && CanRun(Run(j, a), b)
    ensures CanRun(j, a + b) && Run(j, a + b) == Run(Run(j, a), b)
    decreases |a|
  {
    if a == [] {
      assert a + b == b;
    } else {
      hide Next, Enabled;
      assert (a + b)[0] == a[0] && (a + b)[1..] == a[1..] + b;
      RunJoin(Next(j, a[0]), a[1..], b);
    }
  }

  lemma RunOne(j: State, step: Step)
    requires Enabled(j, step)
    ensures CanRun(j, [step]) && Run(j, [step]) == Next(j, step)
  {
    hide Enabled, Next;
    assert [step][1..] == [];
  }

  /** The steps of what is under way: no thread wakes a socket, no batch starts, no watcher is started or
      stopped, nothing else is sent, and the loop has no other reason not to block. */
  predicate Settling(step: Step) {
    match step
    case OfStack(s) => s.WakeGo? || s.BatchFinish? || s.BatchSend? || s.Unready?
    case OfCallback(s) => UP.Own(s)
    case Announce(s, _) => UP.Own(s) || s.WakeGo? || s.BatchSend?
    case OfSender(s) => s.Go?
    case OfLoop(s) => KR.Own(s)
  }

  ghost predicate AllSettling(steps: seq<Step>) { forall step <- steps :: Settling(step) }

  // ----- senders get through

  function Sent(ks: seq<K.Step>): seq<Step> { seq(|ks|, i requires 0 <= i < |ks| => OfSender(ks[i])) }

  lemma {:induction false} SendersRun(j: State, ks: seq<K.Step>)
    requires K.CanRun(j.k, ks) && forall s <- ks :: s.Go?
    ensures CanRun(j, Sent(ks)) && Run(j, Sent(ks)) == j.(k := K.Run(j.k, ks)) && AllSettling(Sent(ks))
    decreases |ks|
  {
    if ks != [] {
      hide K.Enabled, K.Next;
      assert Sent(ks)[1..] == Sent(ks[1..]);
      SendersRun(j.(k := K.Next(j.k, ks[0])), ks[1..]);
    }
  }

  /** What senders do not change. */
  predicate SameLoop(k: K.State, k': K.State) {
    k'.loop == k.loop && k'.pipew == k.pipew && k'.asyncs == k.asyncs && k'.signals == k.signals
  }

  lemma {:induction false} GoKeepsLoop(k: K.State, ks: seq<K.Step>)
    requires K.CanRun(k, ks) && forall s <- ks :: s.Go?
    ensures SameLoop(k, K.Run(k, ks))
    decreases |ks|
  {
    if ks != [] {
      K.SenderKeepsRest(k, ks[0].tid);
      hide K.SenderStep;
      GoKeepsLoop(K.Next(k, ks[0]), ks[1..]);
    }
  }

  lemma SendersThrough(j: State) returns (more: seq<Step>)
    requires Inv(j)
    ensures CanRun(j, more) && AllSettling(more)
    ensures var j' := Run(j, more); Inv(j') && j'.u == j.u && j'.k.senders == map[] && SameLoop(j.k, j'.k)
  {
    hide UI.Inv, Tied, K.Enabled, K.Next;
    var ks := KR.AllGetThrough(j.k);
    more := Sent(ks);
    SendersRun(j, ks);
    GoKeepsLoop(j.k, ks);
    RunInv(j, more);
  }

  // ----- a step of the sockets' side, with the sender that it may start

  predicate Allowed(s: U.Step) {
    UP.Own(s) || s.WakeGo? || s.BatchFinish? || s.BatchSend? || s.Unready?
  }

  lemma OneStep(j: State, s: U.Step) returns (more: seq<Step>)
    requires Inv(j) && j.k.senders == map[] && U.Enabled(j.u, s) && Allowed(s)
    requires StackStep(s) || (CallbackStep(s) && InCallbacks(j.k.loop))
    ensures CanRun(j, more) && AllSettling(more)
    ensures var j' := Run(j, more);
            && Inv(j') && j'.u == U.Next(j.u, s) && j'.k.senders == map[] && SameLoop(j.k, j'.k)
            && (!Announces(j.u, s) ==> j'.k == j.k)
  {
    hide Inv, U.Next, U.Enabled;
    var step := if Announces(j.u, s) then Announce(s, 0) else if StackStep(s) then OfStack(s) else OfCallback(s);
    assert Settling(step);
    hide Announces;
    RunOne(j, step);
    StepInv(j, step);
    var j1 := Next(j, step);
    more := [step];
    if step.Announce? {
      var rest := SendersThrough(j1);
      RunJoin(j, [step], rest);
      more := [step] + rest;
    }
  }

  lemma InOperation(j: State)
    requires Inv(j) && !U.Resting(j.u.loop) && !j.u.loop.Waiting?
    ensures InCallbacks(j.k.loop)
  {
    hide UI.Inv, K.Inv, Ahead;
  }

  /** A run of the sockets' side in which the loop at most goes on with an operation. */
  lemma {:induction false} ManySteps(j: State, ss: seq<U.Step>) returns (more: seq<Step>)
    requires Inv(j) && j.k.senders == map[] && UR.CanRun(j.u, ss)
    requires forall s <- ss :: Allowed(s) && (StackStep(s) || s.LoopGo?)
    ensures CanRun(j, more) && AllSettling(more)
    ensures var j' := Run(j, more); Inv(j') && j'.u == UR.Run(j.u, ss) && j'.k.senders == map[]
    decreases |ss|
  {
    if ss == [] {
      more := [];
    } else {
      if ss[0].LoopGo? {
        InOperation(j);
      }
      hide Inv, U.Next, U.Enabled, SameLoop, Announces;
      var a := OneStep(j, ss[0]);
      var b := ManySteps(Run(j, a), ss[1..]);
      more := a + b;
      RunJoin(j, a, b);
    }
  }

  // ----- the threads get through, the batches are finished, and nothing is ready any more

  ghost predicate NothingReady(u: U.State) { forall so <- u.socks :: u.socks[so].ready == {} }

  /** As before, but for what is ready at one socket. */
  ghost predicate Taking(u: U.State, u': U.State, so: nat, ready: set<U.Side>) {
    && u'.socks.Keys == u.socks.Keys && so in u.socks && u'.socks[so].ready == ready
    && (forall o <- u.socks :: o != so ==> u'.socks[o] == u.socks[o])
    && u'.lock == u.lock && u'.wakes == u.wakes && u'.inBatch == u.inBatch
  }

  /** A socket of which the application has taken all. */
  lemma OneTaken(u: U.State, so: nat)
    requires so in u.socks
    ensures UR.CanRun(u, [U.Unready(so, U.Rcv), U.Unready(so, U.Snd)])
    ensures Taking(u, UR.Run(u, [U.Unready(so, U.Rcv), U.Unready(so, U.Snd)]), so, {})
  {
    hide U.Next, U.Enabled, UR.CanRun, UR.Run, Taking;
    var a, b := U.Unready(so, U.Rcv), U.Unready(so, U.Snd);
    UnreadyIs(u, so, U.Rcv);
    var u1 := U.Next(u, a);
    TakingIs(u, u1, so);
    UnreadyIs(u1, so, U.Snd);
    UP.RunOne(u, a);
    UP.RunOne(u1, b);
    UP.RunJoin(u, [a], [b]);
    assert [a] + [b] == [a, b];
    TwoSides(u.socks[so].ready);
    TakingOn(u, u1, U.Next(u1, b), so);
  }

  lemma UnreadyIs(u: U.State, so: nat, d: U.Side)
    requires so in u.socks
    ensures U.Enabled(u, U.Unready(so, d)) && Taking(u, U.Next(u, U.Unready(so, d)), so, u.socks[so].ready - {d})
  {
  }

  lemma TakingIs(u: U.State, u': U.State, so: nat)
    requires so in u.socks && Taking(u, u', so, u.socks[so].ready - {U.Rcv})
    ensures so in u'.socks && u'.socks[so].ready == u.socks[so].ready - {U.Rcv}
  {
  }

  lemma TakingOn(u: U.State, u1: U.State, u2: U.State, so: nat)
    requires so in u.socks && so in u1.socks && u1.socks[so].ready - {U.Snd} == {}
    requires Taking(u, u1, so, u1.socks[so].ready) && Taking(u1, u2, so, u1.socks[so].ready - {U.Snd})
    ensures Taking(u, u2, so, {})
  {
  }

  lemma TwoSides(ready: set<U.Side>)
    ensures ready - {U.Rcv} - {U.Snd} == {}
  {
    assert forall d <- ready :: d == U.Rcv || d == U.Snd;
  }

  /** The application takes what is ready. */
  lemma {:induction false} AllTaken(u: U.State, sos: set<nat>) returns (ss: seq<U.Step>)
    requires UI.Inv(u) && sos <= u.socks.Keys && forall so <- u.socks :: so !in sos ==> u.socks[so].ready == {}
    ensures UR.CanRun(u, ss) && (forall s <- ss :: s.Unready?)
    ensures var u' := UR.Run(u, ss);
            && UI.Inv(u') && NothingReady(u') && u'.lock == u.lock && u'.wakes == u.wakes && u'.inBatch == u.inBatch
    decreases |sos|
  {
    ss := [];
    if sos != {} {
      hide UI.Inv, UR.CanRun, UR.Run;
      var so :| so in sos;
      var two := [U.Unready(so, U.Rcv), U.Unready(so, U.Snd)];
      OneTaken(u, so);
      UR.RunInv(u, two);
      var rest := AllTaken(UR.Run(u, two), sos - {so});
      UP.RunJoin(u, two, rest);
      ss := two + rest;
    } else {
      hide UI.Inv;
    }
  }

  /** Only the loop is left at work. */
  ghost predicate LoopOnly(j: State) {
    Inv(j) && j.k.senders == map[] && UP.Solo(j.u)
  }

  lemma AllOthersDone(j: State) returns (more: seq<Step>)
    requires Inv(j)
    ensures CanRun(j, more) && AllSettling(more)
    ensures var j' := Run(j, more); LoopOnly(j') && NothingReady(j'.u) && j'.u.inBatch == 0
  {
    hide U.Enabled, U.Next, UI.Inv, K.Inv, Tied, UR.CanRun, UR.Run;
    var a := SendersThrough(j);
    var j1 := Run(j, a);
    var r := UP.Released(j1.u);
    var u1 := UR.Run(j1.u, r);
    var t := UP.AllThrough(u1);
    var u2 := UR.Run(u1, t);
    var f := UP.BatchesFinish(u2);
    var u3 := UR.Run(u2, f);
    var n := AllTaken(u3, u3.socks.Keys);
    UP.RunJoin(u2, f, n);
    UP.RunJoin(u1, t, f + n);
    UP.RunJoin(j1.u, r, t + (f + n));
    var b := ManySteps(j1, r + (t + (f + n)));
    more := a + b;
    RunJoin(j, a, b);
  }

  // ----- the loop by itself

  /** Nothing is ready, and the loop has not found anything. */
  ghost predicate NoNews(u: U.State) {
    NothingReady(u) && !u.loop.Report? && (u.loop.Arm? ==> u.loop.found == {})
  }

  lemma OwnNoNews(u: U.State, s: U.Step)
    requires U.Enabled(u, s) && UP.Own(s) && NoNews(u) && UP.NoStop(u.loop)
    ensures !Announces(u, s) && NoNews(U.Next(u, s)) && UP.NoStop(U.Next(u, s).loop)
  {
    hide NothingReady;
    OwnNothingReady(u, s);
    if s.LoopGo? {
      LoopNoNews(u);
    }
    hide U.LoopStep, U.LoopEnabled;
  }

  lemma LoopNoNews(u: U.State)
    requires U.LoopEnabled(u) && NoNews(u) && UP.NoStop(u.loop)
    ensures var l := U.LoopStep(u).loop; !l.Report? && (l.Arm? ==> l.found == {}) && UP.NoStop(l)
  {
    if u.loop.Arm? {
      ArmNoNews(u);
    }
    hide U.ArmStep, U.Sides, NothingReady, U.SideFree, U.Feeds;
  }

  lemma ArmNoNews(u: U.State)
    requires u.loop.Arm? && u.loop.so in u.socks && NoNews(u) && UP.NoStop(u.loop)
    ensures var l := U.ArmStep(u).loop; !l.Report? && (l.Arm? ==> l.found == {}) && UP.NoStop(l)
  {
    assert u.socks[u.loop.so].ready == {};
  }

  lemma OwnNothingReady(u: U.State, s: U.Step)
    requires U.Enabled(u, s) && UP.Own(s) && NothingReady(u)
    ensures NothingReady(U.Next(u, s))
  {
    if UP.NoStop(u.loop) {
      UP.OwnKeeps(u, s);
    } else {
      hide U.Dropped, U.Minus, U.SideFree;
    }
    hide U.Next, U.Enabled;
  }

  /** The loop is in its wait section, or between callbacks with nothing to do in this part of its cycle. */
  predicate CallbacksDone(j: State) {
    && (U.Resting(j.u.loop) || j.u.loop.Waiting?)
    && !(j.k.loop.Want? && j.u.loop == U.Prepare(false))
    && !(j.k.loop.Invoke? && j.k.pipew.Idle? && j.u.queued)
  }

  /** What the loop does next in callbacks. */
  function CallbackChoice(u: U.State): U.Step {
    if u.loop == U.Prepare(false) then U.Reenable
    else if u.loop.Invoke? then U.Step.Drain
    else U.LoopGo
  }

  lemma CallbackGoes(j: State)
    requires LoopOnly(j) && !CallbacksDone(j) && !j.k.loop.Poll?
    ensures var s := CallbackChoice(j.u);
            && U.Enabled(j.u, s) && UP.Own(s) && CallbackStep(s) && InCallbacks(j.k.loop)
            && UP.Nearer(j.u, U.Next(j.u, s))
  {
    UP.InvFit(j.u);
    if UP.InDrain(j.u.loop) {
      UP.InvDrains(j.u);
    }
    UP.ChoiceNearer(j.u);
    hide UI.Inv, K.Inv, U.Enabled, U.Next, UP.Nearer, UP.Fit;
    if !U.Resting(j.u.loop) {
      InOperation(j);
    } else {
      RestingPart(j);
    }
  }

  lemma RestingPart(j: State)
    requires Tied(j)
    ensures j.k.loop.Want? && U.Resting(j.u.loop) ==> j.u.loop.Prepare?
    ensures j.k.loop.Invoke? && U.Resting(j.u.loop) ==> j.u.loop.Invoke?
    ensures WaitPart(j.k.loop).Waits? ==> j.u.loop.Waiting?
    ensures j.u.loop.Waiting? ==> WaitPart(j.k.loop).Waits?
  {
    hide Ahead, UI.NoTwice;
  }

  /** Outside callbacks, the sockets' side can follow the loop. */
  lemma LoopGoesOn(j: State)
    requires LoopOnly(j) && CallbacksDone(j)
    ensures var s := KR.Choice(j.k); Enabled(j, OfLoop(s)) && KR.Own(s)
  {
    assert K.InScan(j.k) && Tied(j);
    hide Inv, K.Inv, UI.Inv;
    KR.ChoiceGoes(j.k);
    RestingPart(j);
    if j.k.loop.Recheck? || Feeding(j.k) {
      Followed(j);
    }
    hide Tied, K.Enabled, KR.ToPoll;
  }

  /** A step in a callback. */
  lemma CallbackRound(j: State) returns (a: seq<Step>)
    requires LoopOnly(j) && !CallbacksDone(j) && !j.k.loop.Poll?
    ensures CanRun(j, a) && AllSettling(a)
    ensures var j' := Run(j, a);
            && LoopOnly(j') && KR.ToPoll(j'.k) == KR.ToPoll(j.k) && UP.Cost(j'.u) < UP.Cost(j.u) && !j'.k.loop.Poll?
            && j'.u.inBatch == j.u.inBatch && (NothingReady(j.u) ==> NothingReady(j'.u))
            && (UP.NoStop(j.u.loop) && NoNews(j.u) ==> UP.NoStop(j'.u.loop) && NoNews(j'.u) && j'.k == j.k)
  {
    hide U.Enabled, U.Next, NoNews, NothingReady, UP.NoStop, UI.Inv, K.Inv, Tied, UP.Cost, UP.Solo, CallbacksDone;
    var s := CallbackChoice(j.u);
    CallbackGoes(j);
    hide CallbackChoice;
    UR.StepBatch(j.u, s);
    if NothingReady(j.u) {
      OwnNothingReady(j.u, s);
    }
    if UP.NoStop(j.u.loop) && NoNews(j.u) {
      OwnNoNews(j.u, s);
    }
    hide Announces;
    a := OneStep(j, s);
  }

  /** A step outside callbacks. */
  lemma LoopRound(j: State) returns (a: seq<Step>)
    requires LoopOnly(j) && CallbacksDone(j)
    ensures CanRun(j, a) && AllSettling(a)
    ensures var j' := Run(j, a);
            && LoopOnly(j') && (j.k.loop.Poll? || KR.ToPoll(j'.k) < KR.ToPoll(j.k))
            && j'.u.inBatch == j.u.inBatch && (NothingReady(j.u) ==> NothingReady(j'.u))
            && (UP.NoStop(j.u.loop) && NoNews(j.u) ==> UP.NoStop(j'.u.loop) && NoNews(j'.u))
            && (KR.WillBeClean(j.k) || j.k.loop.Poll? ==>
                  KR.WillBeClean(j'.k) && (j'.k.loop.Poll? ==> K.Quiet(j'.k)))
            && (j.k.loop.Poll? ==> !j'.k.loop.Poll?)
  {
    var s := KR.Choice(j.k);
    assert K.InScan(j.k);
    hide Inv, U.Enabled, U.Next, NoNews, NothingReady, UP.NoStop, CallbacksDone;
    LoopGoesOn(j);
    KR.ChoiceGoes(j.k);
    if KR.WillBeClean(j.k) || j.k.loop.Poll? {
      KR.ChoiceCleans(j.k);
    }
    LoopMoves(j, s);
    StepInv(j, OfLoop(s));
    assert j.k.loop.Poll? ==> !K.Next(j.k, s).loop.Poll?;
    hide K.Enabled, K.Next, KR.Choice, KR.ToPoll, KR.WillBeClean;
    RunOne(j, OfLoop(s));
    a := [OfLoop(s)];
  }

  /** What that means for the sockets' side. */
  lemma LoopMoves(j: State, s: K.Step)
    requires Enabled(j, OfLoop(s)) && UP.Solo(j.u)
    ensures var u' := Next(j, OfLoop(s)).u;
            && UP.Solo(u') && u'.inBatch == j.u.inBatch && (NothingReady(j.u) ==> NothingReady(u'))
            && (UP.NoStop(j.u.loop) && NoNews(j.u) ==> UP.NoStop(u'.loop) && NoNews(u'))
  {
    hide K.Enabled, K.Next;
  }

  /** The loop by itself gets to its next poll; and if there is no news, to a quiet one. */
  lemma {:induction false} GetsToPoll(j: State) returns (more: seq<Step>)
    requires LoopOnly(j)
    ensures CanRun(j, more) && AllSettling(more)
    ensures var j' := Run(j, more);
            && LoopOnly(j') && j'.k.loop.Poll? && (j.k.loop.Poll? ==> more == [])
            && j'.u.inBatch == j.u.inBatch && (NothingReady(j.u) ==> NothingReady(j'.u))
            && (UP.NoStop(j.u.loop) && NoNews(j.u) && KR.WillBeClean(j.k) && !j.k.loop.Poll? ==> K.Quiet(j'.k))
    decreases KR.ToPoll(j.k), UP.Cost(j.u)
  {
    hide LoopOnly, NoNews, NothingReady, UP.NoStop, KR.WillBeClean, KR.ToPoll, UP.Cost, K.Quiet, CallbacksDone, Enabled,
         Next;
    more := [];
    if !j.k.loop.Poll? {
      var a: seq<Step>;
      if CallbacksDone(j) {
        a := LoopRound(j);
      } else {
        a := CallbackRound(j);
      }
      var b := GetsToPoll(Run(j, a));
      more := a + b;
      RunJoin(j, a, b);
    }
  }

  /** From every state that a run reaches, everything comes to rest: the threads and senders on their way
      get through, the batches are finished, the application takes what is ready, and the loop gets to a
      poll that may block. */
  lemma ComesToRest(start: State, steps: seq<Step>) returns (more: seq<Step>)
    requires Start(start) && CanRun(start, steps)
    ensures CanRun(start, steps + more) && AllSettling(more)
    ensures var j := Run(start, steps + more);
            && K.Quiet(j.k) && j.u.loop.Waiting? && j.u.wakes == map[] && j.u.lock.Free?
            && Starts(steps + more) == Finishes(steps + more)
  {
    hide Start, Enabled, Next, LoopOnly, NothingReady, NoNews, KR.WillBeClean, CallbacksDone, Inv;
    ReachableInv(start, steps);
    var j := Run(start, steps);
    var a := AllOthersDone(j);
    var j1 := Run(j, a);
    var b := GetsToPoll(j1);
    var j2 := Run(j1, b);
    AtPoll(j2);
    var c := LoopRound(j2);
    var j3 := Run(j2, c);
    var d := GetsToPoll(j3);
    RunJoin(j2, c, d);
    RunJoin(j1, b, c + d);
    RunJoin(j, a, b + (c + d));
    more := a + (b + (c + d));
    RunJoin(start, steps, more);
    AtPoll(Run(j3, d));
    RunBatches(start, steps + more);
    NoBatchAtStart(start);
  }

  lemma NoBatchAtStart(start: State)
    requires Start(start)
    ensures start.u.inBatch == 0
  {
  }

  lemma AtPoll(j: State)
    requires LoopOnly(j) && j.k.loop.Poll?
    ensures CallbacksDone(j) && UP.NoStop(j.u.loop) && (NothingReady(j.u) ==> NoNews(j.u))
    ensures j.u.loop.Waiting? && j.u.wakes == map[] && j.u.lock.Free?
  {
    UP.InvFit(j.u);
    RestingPart(j);
    hide Inv, UI.Inv, K.Inv;
  }
}
