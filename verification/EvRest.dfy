/** When the loop waits: it polls without blocking only for a reason, and once the senders are through
    it comes to rest. */
module EvRest {
  import opened EvWakeup

  // ----- a poll that does not block has a reason

  /** The last decision before the loop's poll was step k; since then the loop has been in this poll. */
  predicate Decided(s: State, steps: seq<Step>, k: nat)
    requires CanRun(s, steps)
  {
    && k < |steps| && CanRun(s, steps[..k]) && Run(s, steps[..k]).loop.Decide?
    && (steps[k].DontWait? || steps[k].LoopGo?)
    && forall i :: k < i <= |steps| ==> CanRun(s, steps[..i]) && Run(s, steps[..i]).loop == Run(s, steps).loop
  }

  /** A step into a poll is a decision, and a poll goes on as it was decided. */
  lemma IntoPoll(s: State, step: Step)
    requires Enabled(s, step) && Next(s, step).loop.Poll?
    ensures if s.loop.Poll? then Next(s, step).loop == s.loop
            else s.loop.Decide? && (step.DontWait? || step.LoopGo?)
                 && (Next(s, step).loop.blocking <==> step.LoopGo? && !s.skipped)
  {
    if step.Go? {
      SenderKeepsRest(s, step.tid);
    }
    hide SenderStep;
  }

  lemma RunSnoc(s: State, steps: seq<Step>)
    requires CanRun(s, steps) && steps != []
    ensures var n := |steps| - 1;
            && CanRun(s, steps[..n]) && Enabled(Run(s, steps[..n]), steps[n])
            && Run(s, steps) == Next(Run(s, steps[..n]), steps[n])
  {
    var n := |steps| - 1;
    hide Next, Enabled;
    assert steps == steps[..n] + [steps[n]];
    RunSplit(s, steps[..n], [steps[n]]);
    var t := Run(s, steps[..n]);
    assert CanRun(t, [steps[n]]) && [steps[n]][1..] == [];
  }

  /** In every run, the loop is in a poll because it decided so, and in one that may block exactly if
      there was no other reason not to, and pipe_write_skipped was found clear. */
  lemma {:induction false} PollIsDecided(start: State, steps: seq<Step>) returns (k: nat)
    requires Start(start) && CanRun(start, steps) && Run(start, steps).loop.Poll?
    ensures Decided(start, steps, k)
    ensures Run(start, steps).loop.blocking <==> steps[k].LoopGo? && !Run(start, steps[..k]).skipped
    decreases |steps|
  {
    hide Enabled, Next;
    var n := |steps| - 1;
    assert steps != [];
    RunSnoc(start, steps);
    var before := steps[..n];
    var s := Run(start, before);
    IntoPoll(s, steps[n]);
    assert steps[..|steps|] == steps;
    if s.loop.Poll? {
      k := PollIsDecided(start, before);
      assert before[..k] == steps[..k];
      forall i | k < i <= |steps|
        ensures CanRun(start, steps[..i]) && Run(start, steps[..i]).loop == Run(start, steps).loop
      {
        if i <= n {
          assert before[..i] == steps[..i];
        }
      }
    } else {
      k := n;
    }
  }

  // ----- so has everything else that costs something

  /** Sender tid took step k, when it was at pc, with this item. */
  predicate Stepped(s: State, steps: seq<Step>, k: nat, tid: nat, pc: Pc, item: Item)
    requires CanRun(s, steps)
  {
    && k < |steps| && steps[k] == Go(tid) && CanRun(s, steps[..k]) && tid in Run(s, steps[..k]).senders
    && Run(s, steps[..k]).senders[tid] == Sender(pc, item)
  }

  /** A sender that has not been there before a step is new, or was one statement back. */
  lemma SenderCame(s: State, step: Step, tid: nat)
    requires Enabled(s, step) && tid in Next(s, step).senders
    ensures var x := Next(s, step).senders[tid];
            || (step == Send(tid, x.item) && x.pc.Checking?)
            || (tid in s.senders && s.senders[tid] == x)
            || (step == Go(tid) && tid in s.senders && s.senders[tid].item == x.item
                && MovedOn(s, s.senders[tid].pc, x))
  {
    if step.Go? {
      SenderMoves(s, step.tid, tid);
    } else if step.LoopGo? {
      assert LoopStep(s).senders == s.senders;
    }
    hide SenderStep, LoopStep, SwapRemove, IndexOf;
  }

  /** From pc, in this state, a sender gets to where x is. */
  predicate MovedOn(s: State, pc: Pc, x: Sender) {
    match pc
    case Checking => x.pc.Raising? && x.item.kind !in s.flags
    case Raising => x.pc.Skipping?
    case Skipping => x.pc.Asking?
    case Asking => x.pc.Claiming? && s.wanted
    case Claiming => x.pc.Writing?
    case Writing => false
  }

  lemma SenderMoves(s: State, mover: nat, tid: nat)
    requires mover in s.senders && tid in SenderStep(s, mover).senders
    ensures var x := SenderStep(s, mover).senders[tid];
            && tid in s.senders
            && if tid != mover then s.senders[tid] == x
               else s.senders[tid].item == x.item && MovedOn(s, s.senders[tid].pc, x)
  {
  }

  /** In every run, a sender goes on beyond its check only if it found the flag down: once it is up, further
      senders have nothing to do. */
  lemma {:induction false} RaisesIfDown(start: State, steps: seq<Step>, tid: nat) returns (k: nat)
    requires Start(start) && CanRun(start, steps)
    requires tid in Run(start, steps).senders && !Run(start, steps).senders[tid].pc.Checking?
    ensures var item := Run(start, steps).senders[tid].item;
            Stepped(start, steps, k, tid, Checking, item) && item.kind !in Run(start, steps[..k]).flags
    decreases |steps|
  {
    hide Enabled, Next;
    var n := |steps| - 1;
    assert steps != [];
    RunSnoc(start, steps);
    var before := steps[..n];
    var s := Run(start, before);
    SenderCame(s, steps[n], tid);
    if tid in s.senders && !s.senders[tid].pc.Checking? {
      k := RaisesIfDown(start, before, tid);
      assert before[..k] == steps[..k];
    } else {
      k := n;
    }
  }

  /** And it writes to the pipe only if it found that the loop wants it. */
  lemma {:induction false} WritesIfWanted(start: State, steps: seq<Step>, tid: nat) returns (k: nat)
    requires Start(start) && CanRun(start, steps) && tid in Run(start, steps).senders
    requires Run(start, steps).senders[tid].pc.Claiming? || Run(start, steps).senders[tid].pc.Writing?
    ensures Stepped(start, steps, k, tid, Asking, Run(start, steps).senders[tid].item)
    ensures Run(start, steps[..k]).wanted
    decreases |steps|
  {
    hide Enabled, Next;
    var n := |steps| - 1;
    assert steps != [];
    RunSnoc(start, steps);
    var before := steps[..n];
    var s := Run(start, before);
    SenderCame(s, steps[n], tid);
    if tid in s.senders && (s.senders[tid].pc.Claiming? || s.senders[tid].pc.Writing?) {
      k := WritesIfWanted(start, before, tid);
      assert before[..k] == steps[..k];
    } else {
      k := n;
    }
  }

  lemma FedCame(s: State, step: Step)
    requires Enabled(s, step) && Next(s, step).pipew.Fed?
    ensures s.pipew.Fed? || (step == PollReturns(true) && s.pipe > 0) || (step.LoopGo? && s.loop.Recheck? && s.skipped)
  {
    if step.Go? {
      SenderKeepsRest(s, step.tid);
    }
    hide SenderStep;
  }

  /** And pipecb is called only if the pipe was found readable or a write was skipped. */
  lemma {:induction false} FedForAReason(start: State, steps: seq<Step>) returns (k: nat)
    requires Start(start) && CanRun(start, steps) && Run(start, steps).pipew.Fed?
    ensures k < |steps| && CanRun(start, steps[..k])
    ensures var s := Run(start, steps[..k]);
            (steps[k] == PollReturns(true) && s.pipe > 0) || (steps[k].LoopGo? && s.loop.Recheck? && s.skipped)
    ensures forall i :: k < i <= |steps| ==> CanRun(start, steps[..i]) && Run(start, steps[..i]).pipew.Fed?
    decreases |steps|
  {
    hide Enabled, Next;
    var n := |steps| - 1;
    assert steps != [];
    RunSnoc(start, steps);
    FedCame(Run(start, steps[..n]), steps[n]);
    assert steps[..|steps|] == steps;
    k := n;
    if Run(start, steps[..n]).pipew.Fed? {
      k := FedForAReason(start, steps[..n]);
      assert steps[..n][..k] == steps[..k];
      forall i | k < i <= |steps|
        ensures CanRun(start, steps[..i]) && Run(start, steps[..i]).pipew.Fed?
      {
        if i <= n {
          assert steps[..n][..i] == steps[..i];
        }
      }
    }
  }

  // ----- the loop comes to rest

  /** The steps of the loop by itself. */
  predicate Own(step: Step) { step.LoopGo? || step.PollReturns? || step.Drained? || step.Again? }

  /** What the loop does next, when it finds the pipe readable if it is, and reads all of it. */
  function Choice(s: State): Step {
    if s.loop.Poll? then PollReturns(s.pipe > 0)
    else if s.loop.Drain? then Drained(if s.loop.read then 0 else s.pipe)
    else if s.loop.Invoke? && s.pipew.Idle? then Again
    else LoopGo
  }

  predicate InPipecb(l: LoopPc) { l.Drain? || l.Reset? || l.Look? || l.Lower? || l.Scan? || l.Clear? }

  /** How far pipecb has to go. */
  function PipecbLeft(s: State): nat
    requires InPipecb(s.loop)
  {
    var a, g, l := 2 * |s.asyncs|, 2 * |s.signals|, s.loop;
    if l.Drain? then a + g + 10
    else if l.Reset? then a + g + 9
    else if l.Look? then if l.kind.Signal? then a + g + 8 else a + 5
    else if l.Lower? then if l.kind.Signal? then a + g + 7 else a + 4
    else if l.Scan? then if l.kind.Signal? then 2 * l.i + a + 6 else 2 * l.i + 3
    else if l.kind.Signal? then 2 * l.i + a + 7 else 2 * l.i + 4
  }

  /** How far the loop is from its next poll. */
  function ToPoll(s: State): nat {
    var all := 2 * |s.asyncs| + 2 * |s.signals|;
    if s.loop.Poll? then 0
    else if s.loop.Decide? then 1
    else if s.loop.Want? then 2
    else if s.loop.Invoke? then if s.pipew.Idle? then 3 else all + 14
    else if s.loop.Recheck? then all + 15
    else if s.loop.Unwant? then all + 16
    else PipecbLeft(s) + if s.pipew.Fed? then all + 14 else 3
  }

  lemma ChoiceGoes(s: State)
    requires InScan(s) && s.senders == map[]
    ensures Enabled(s, Choice(s)) && Own(Choice(s))
    ensures var t := Next(s, Choice(s));
            InScan(t) && t.senders == map[] && (s.loop.Poll? || ToPoll(t) < ToPoll(s))
  {
    if InPipecb(s.loop) {
      PipecbGoes(s);
      hide *;
    }
  }

  lemma PipecbGoes(s: State)
    requires InScan(s) && s.senders == map[] && InPipecb(s.loop)
    ensures Enabled(s, Choice(s)) && Own(Choice(s))
    ensures var t := Next(s, Choice(s)); InScan(t) && t.senders == map[] && ToPoll(t) < ToPoll(s)
  {
    if s.loop.Scan? || s.loop.Clear? {
      ScanGoes(s);
      hide *;
    }
  }

  lemma ScanGoes(s: State)
    requires InScan(s) && s.senders == map[] && (s.loop.Scan? || s.loop.Clear?)
    ensures Enabled(s, Choice(s)) && Own(Choice(s))
    ensures var t := Next(s, Choice(s)); InScan(t) && t.senders == map[] && ToPoll(t) < ToPoll(s)
  {
    var t := LoopStep(s);
    assert t.asyncs == s.asyncs && t.signals == s.signals && t.pipew == s.pipew;
  }

  /** Nothing is in the pipe and no write was skipped, or pipecb will see to that. */
  predicate WillBeClean(s: State) {
    || (s.pipe == 0 && !s.skipped)
    || ((s.loop.Unwant? || s.loop.Recheck?) && (s.pipe == 0 || s.pipew == Fed(true)))
    || (s.loop.Invoke? && s.pipew.Fed? && (s.pipe == 0 || s.pipew.read))
    || (s.loop.Drain? && (s.pipe == 0 || s.loop.read))
    || (s.loop.Reset? && s.pipe == 0)
  }

  lemma ChoiceCleans(s: State)
    requires InScan(s) && s.senders == map[] && (WillBeClean(s) || s.loop.Poll?)
    ensures var t := Next(s, Choice(s));
            && WillBeClean(t) && (t.loop.Poll? ==> Quiet(t))
  {
    ChoiceGoes(s);
  }

  /** The loop by itself gets to its next poll, and that is a quiet one if the loop was about to clean up. */
  lemma {:induction false} GetsToPoll(s: State) returns (more: seq<Step>)
    requires InScan(s) && s.senders == map[]
    ensures CanRun(s, more) && (forall step <- more :: Own(step)) && (s.loop.Poll? ==> more == [])
    ensures var t := Run(s, more);
            && t.loop.Poll? && InScan(t) && t.senders == map[]
            && (WillBeClean(s) && !s.loop.Poll? ==> Quiet(t))
    decreases ToPoll(s)
  {
    if s.loop.Poll? {
      more := [];
    } else {
      ChoiceGoes(s);
      if WillBeClean(s) {
        ChoiceCleans(s);
      }
      hide Enabled, Next, WillBeClean, Choice, InScan, ToPoll;
      var t := Next(s, Choice(s));
      var rest := GetsToPoll(t);
      more := [Choice(s)] + rest;
      assert more[1..] == rest;
    }
  }

  lemma {:induction false} RunJoin(s: State, a: seq<Step>, b: seq<Step>)
    requires CanRun(s, a) && CanRun(Run(s, a), b)
    ensures CanRun(s, a + b) && Run(s, a + b) == Run(Run(s, a), b)
    decreases |a|
  {
    if a == [] {
      assert a + b == b;
    } else {
      hide Next, Enabled;
      assert (a + b)[0] == a[0] && (a + b)[1..] == a[1..] + b;
      RunJoin(Next(s, a[0]), a[1..], b);
    }
  }

  /** Once around, from a poll to a quiet one. */
  lemma OnceAround(s: State) returns (more: seq<Step>)
    requires InScan(s) && s.senders == map[] && s.loop.Poll?
    ensures CanRun(s, more) && (forall step <- more :: Own(step)) && Quiet(Run(s, more))
  {
    ChoiceGoes(s);
    ChoiceCleans(s);
    var t := Next(s, Choice(s));
    assert !t.loop.Poll?;
    hide Enabled, Next, WillBeClean, Choice, InScan, ToPoll;
    var rest := GetsToPoll(t);
    more := [Choice(s)] + rest;
    assert more[1..] == rest;
  }

  function Rank(pc: Pc): nat {
    match pc
    case Checking => 5
    case Raising => 4
    case Skipping => 3
    case Asking => 2
    case Claiming => 1
    case Writing => 0
  }

  lemma SenderGoes(s: State, tid: nat)
    requires InScan(s) && tid in s.senders
    ensures Enabled(s, Go(tid)) && InScan(Next(s, Go(tid)))
    ensures var t := Next(s, Go(tid));
            if tid in t.senders then
              && Rank(t.senders[tid].pc) < Rank(s.senders[tid].pc) && t.senders - {tid} == s.senders - {tid}
            else t.senders == s.senders - {tid}
  {
    SenderKeepsRest(s, tid);
  }

  /** A sender gets through by itself. */
  lemma {:induction false} GetsThrough(s: State, tid: nat) returns (more: seq<Step>)
    requires InScan(s) && tid in s.senders
    ensures CanRun(s, more) && (forall step <- more :: step.Go?)
    ensures InScan(Run(s, more)) && Run(s, more).senders == s.senders - {tid}
    decreases Rank(s.senders[tid].pc)
  {
    SenderGoes(s, tid);
    hide Enabled, Next, InScan;
    var t := Next(s, Go(tid));
    var rest := [];
    if tid in t.senders {
      rest := GetsThrough(t, tid);
    }
    more := [Go(tid)] + rest;
    assert more[1..] == rest;
  }

  /** So do all of them. */
  lemma {:induction false} AllGetThrough(s: State) returns (more: seq<Step>)
    requires InScan(s)
    ensures CanRun(s, more) && (forall step <- more :: step.Go?)
    ensures InScan(Run(s, more)) && Run(s, more).senders == map[]
    decreases |s.senders|
  {
    if s.senders == map[] {
      more := [];
    } else {
      hide Enabled, Next, InScan;
      var tid :| tid in s.senders;
      var a := GetsThrough(s, tid);
      assert s.senders.Keys == (s.senders - {tid}).Keys + {tid};
      var b := AllGetThrough(Run(s, a));
      more := a + b;
      RunJoin(s, a, b);
    }
  }

  /** From every state that a run reaches, once the senders on their way are through, the loop by itself
      comes to rest: with nothing else to keep it from blocking, it gets to a quiet poll. */
  lemma ComesToRest(start: State, steps: seq<Step>) returns (through: seq<Step>, more: seq<Step>)
    requires Start(start) && CanRun(start, steps)
    ensures CanRun(start, steps + through + more) && Quiet(Run(start, steps + through + more))
    ensures (forall step <- through :: step.Go?) && (forall step <- more :: Own(step))
    ensures Run(start, steps).senders == map[] ==> through == []
  {
    hide Next, Enabled, Quiet;
    RunInv(start, steps);
    var s := Run(start, steps);
    through := [];
    if s.senders != map[] {
      through := AllGetThrough(s);
    }
    var t := Run(s, through);
    var a := GetsToPoll(t);
    var b := OnceAround(Run(t, a));
    more := a + b;
    RunJoin(t, a, b);
    RunJoin(start, steps, through);
    RunJoin(start, steps + through, more);
  }

  lemma {:induction false} KeepsWatched(s: State, steps: seq<Step>)
    requires CanRun(s, steps) && forall step <- steps :: step.Go? || Own(step)
    ensures forall kind :: Watched(Run(s, steps), kind) == Watched(s, kind)
    decreases |steps|
  {
    if steps != [] {
      StepKeepsWatched(s, steps[0]);
      hide Next, Enabled, Watched;
      KeepsWatched(Next(s, steps[0]), steps[1..]);
    }
  }

  lemma StepKeepsWatched(s: State, step: Step)
    requires Enabled(s, step) && (step.Go? || Own(step))
    ensures forall kind :: Watched(Next(s, step), kind) == Watched(s, kind)
  {
    if step.Go? {
      SenderKeepsRest(s, step.tid);
    }
    hide SenderStep;
  }

  /** So whatever is sent to a watcher that is started is fed, whatever has happened before. */
  lemma SendIsServed(start: State, steps: seq<Step>, tid: nat, item: Item) returns (more: seq<Step>)
    requires Start(start) && CanRun(start, steps)
    requires tid !in Run(start, steps).senders && item.id in Watched(Run(start, steps), item.kind)
    ensures CanRun(start, steps + [Send(tid, item)] + more) && (forall step <- more :: step.Go? || Own(step))
    ensures var s, t := Run(start, steps), Run(start, steps + [Send(tid, item)] + more);
            s.fed <= t.fed && item in t.fed[|s.fed|..]
  {
    var s, send := Run(start, steps), Send(tid, item);
    assert Enabled(s, send);
    var s1 := Next(s, send);
    assert item in s1.sent && s1.fed == s.fed && Watched(s1, item.kind) == Watched(s, item.kind);
    hide Next, Enabled, Quiet, Start, Watched;
    assert CanRun(s, [send]) && Run(s, [send]) == s1 by {
      assert [send][1..] == [];
    }
    RunJoin(start, steps, [send]);
    var a, b := ComesToRest(start, steps + [send]);
    more := a + b;
    assert steps + [send] + a + b == steps + [send] + more;
    RunSplit(start, steps + [send], more);
    KeepsWatched(s1, more);
    EverySendIsFed(start, steps + [send], more, item);
  }
}
