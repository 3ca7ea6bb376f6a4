/** How other threads wake the event loop: ev_async_send and evpipe_write on one side, the wait section
    of ev_run and pipecb on the other, as steps that interleave in any order.  Every step is one access
    to a shared variable. */
module EvWakeup {

  /** The two kinds of things that are sent this way; each has its own pending flag. */
  datatype Kind = Signal | Async

  datatype Item = Item(kind: Kind, id: nat)

  /** Where a sender is: the next thing it does. */
  datatype Pc =
    | Checking    // read the flag
    | Raising     // set the flag
    | Skipping    // set pipe_write_skipped
    | Asking      // read pipe_write_wanted
    | Claiming    // clear pipe_write_skipped
    | Writing     // write to the pipe

  datatype Sender = Sender(pc: Pc, item: Item)

  /** Where the loop is: the next thing it does. */
  datatype LoopPc =
    | Want                       // set pipe_write_wanted
    | Decide                     // read pipe_write_skipped
    | Poll(blocking: bool)       // wait
    | Unwant                     // clear pipe_write_wanted
    | Recheck                    // read pipe_write_skipped
    | Invoke                     // run pending callbacks
    | Drain(read: bool)          // in pipecb: read from the pipe
    | Reset                      // clear pipe_write_skipped
    | Look(kind: Kind)           // read the flag
    | Lower(kind: Kind)          // clear the flag
    | Scan(kind: Kind, i: nat)   // look at the items below i: read the mark of the last of them
    | Clear(kind: Kind, i: nat)  // item i is marked: clear its mark and make it pending

  /** Whether pipe_w is pending, and if so, whether the pipe was found readable. */
  datatype PipeEvent = Idle | Fed(read: bool)

  datatype State = State(
    sent: set<Item>,             // sent of an async watcher, pending of a signal
    flags: set<Kind>,            // sig_pending, async_pending
    skipped: bool,
    wanted: bool,
    pipe: nat,
    senders: map<nat, Sender>,
    loop: LoopPc,
    pipew: PipeEvent,
    asyncs: seq<nat>,            // the started async watchers
    signals: seq<nat>,           // all signals
    fed: seq<Item>)              // what was made pending, in order

  ghost predicate Start(s: State) {
    && s.sent == {} && s.flags == {} && !s.skipped && !s.wanted && s.pipe == 0 && s.senders == map[]
    && s.loop == Want && s.pipew == Idle && s.asyncs == [] && s.fed == []
  }

  function Watched(s: State, kind: Kind): seq<nat> {
    if kind.Async? then s.asyncs else s.signals
  }

  datatype Step =
    | Send(tid: nat, item: Item)           // ev_async_send and the like, first statement
    | Go(tid: nat)                         // the next statement of a sender
    | LoopGo                               // the next statement of the loop
    | PollReturns(readable: bool)
    | DontWait                             // decide not to block for another reason
    | Drained(left: nat)
    | AsyncStart(id: nat) | AsyncStop(id: nat)
    | Again                                // nothing is pending: next iteration

  /** A scan stays inside the array. */
  predicate InScan(s: State) {
    && (s.loop.Scan? ==> s.loop.i <= |Watched(s, s.loop.kind)|)
    && (s.loop.Clear? ==> s.loop.i < |Watched(s, s.loop.kind)|)
  }

  predicate Enabled(s: State, step: Step) {
    match step
    case Send(tid, item) => tid !in s.senders
    case Go(tid) => tid in s.senders
    case LoopGo => !s.loop.Poll? && !(s.loop.Invoke? && s.pipew.Idle?) && !s.loop.Drain?
                   && InScan(s)
    case PollReturns(readable) => s.loop.Poll? && (readable ==> s.pipe > 0)
    case DontWait => s.loop.Decide?
    case Drained(left) => s.loop.Drain? && left <= s.pipe && (!s.loop.read ==> left == s.pipe)
    case AsyncStart(id) => s.loop.Invoke? || s.loop.Want?
    case AsyncStop(id) => s.loop.Invoke? || s.loop.Want?
    case Again => s.loop.Invoke? && s.pipew.Idle?
  }

  /** One statement of the sender tid in evpipe_write. */
  function SenderStep(s: State, tid: nat): State
    requires tid in s.senders
  {
    var x := s.senders[tid];
    var done := s.(senders := s.senders - {tid});
    match x.pc
    case Checking => if x.item.kind in s.flags then done else At(s, tid, Raising)
    case Raising => At(s, tid, Skipping).(flags := s.flags + {x.item.kind})
    case Skipping => At(s, tid, Asking).(skipped := true)
    case Asking => if s.wanted then At(s, tid, Claiming) else done
    case Claiming => At(s, tid, Writing).(skipped := false)
    case Writing => done.(pipe := s.pipe + 1)
  }

  function At(s: State, tid: nat, pc: Pc): State
    requires tid in s.senders
  {
    s.(senders := s.senders[tid := s.senders[tid].(pc := pc)])
  }

  /** One statement of the loop. */
  function LoopStep(s: State): State
    requires Enabled(s, LoopGo)
  {
    if s.loop.Want? then s.(wanted := true, loop := Decide)
    else if s.loop.Decide? then s.(loop := Poll(!s.skipped))
    else if s.loop.Unwant? then s.(wanted := false, loop := Recheck)
    else if s.loop.Recheck? then
      s.(loop := Invoke, pipew := if s.skipped && s.pipew.Idle? then Fed(false) else s.pipew)
    else if s.loop.Invoke? then s.(loop := Drain(s.pipew.read), pipew := Idle)
    else if s.loop.Reset? then s.(skipped := false, loop := Look(Signal))
    else if s.loop.Look? then s.(loop := if s.loop.kind in s.flags then Lower(s.loop.kind) else After(s.loop.kind))
    else if s.loop.Lower? then
      s.(flags := s.flags - {s.loop.kind}, loop := Scan(s.loop.kind, |Watched(s, s.loop.kind)|))
    else if s.loop.Scan? then
      if s.loop.i == 0 then s.(loop := After(s.loop.kind))
      else
        var item := Item(s.loop.kind, Watched(s, s.loop.kind)[s.loop.i - 1]);
        s.(loop := if item in s.sent then Clear(s.loop.kind, s.loop.i - 1) else Scan(s.loop.kind, s.loop.i - 1))
    else if s.loop.Clear? then
      var item := Item(s.loop.kind, Watched(s, s.loop.kind)[s.loop.i]);
      s.(sent := s.sent - {item}, fed := s.fed + [item], loop := Scan(s.loop.kind, s.loop.i))
    else s
  }

  /** What pipecb does after it is through with a kind. */
  function After(kind: Kind): LoopPc {
    if kind.Signal? then Look(Async) else Invoke
  }

  /** The array without the entry at k, whose place the last one takes. */
  function SwapRemove(ids: seq<nat>, k: nat): seq<nat>
    requires k < |ids|
  {
    ids[k := ids[|ids| - 1]][..|ids| - 1]
  }

  function IndexOf(ids: seq<nat>, id: nat): (k: nat)
    requires id in ids
    ensures k < |ids| && ids[k] == id
  {
    if ids[0] == id then 0 else 1 + IndexOf(ids[1..], id)
  }

  function Next(s: State, step: Step): State
    requires Enabled(s, step)
  {
    match step
    case Send(tid, item) => s.(sent := s.sent + {item}, senders := s.senders[tid := Sender(Checking, item)])
    case Go(tid) => SenderStep(s, tid)
    case LoopGo => LoopStep(s)
    case PollReturns(readable) => s.(loop := Unwant, pipew := if readable then Fed(true) else s.pipew)
    case DontWait => s.(loop := Poll(false))
    case Drained(left) => s.(loop := Reset, pipe := left)
    case AsyncStart(id) =>
      if id in s.asyncs then s else s.(asyncs := s.asyncs + [id], sent := s.sent - {Item(Async, id)})
    case AsyncStop(id) => if id in s.asyncs then s.(asyncs := SwapRemove(s.asyncs, IndexOf(s.asyncs, id))) else s
    case Again => s.(loop := Want)
  }

  // ----- invariants

  ghost predicate SenderAt(s: State, pc: Pc) {
    exists tid <- s.senders :: s.senders[tid].pc == pc
  }

  /** A sender of this kind is about to set pipe_write_skipped. */
  ghost predicate WillSkip(s: State, kind: Kind) {
    exists tid <- s.senders :: s.senders[tid].pc.Skipping? && s.senders[tid].item.kind == kind
  }

  /** pipecb has yet to look at the flag of this kind. */
  predicate WillLook(l: LoopPc, kind: Kind) {
    || l.Drain? || l.Reset?
    || ((l.Look? || l.Lower?) && (l.kind == kind || l.kind.Signal?))
    || ((l.Scan? || l.Clear?) && l.kind.Signal? && kind.Async?)
  }

  /** Something will make the loop look at this flag. */
  ghost predicate Wakes(s: State, kind: Kind) {
    s.skipped || s.pipe > 0 || s.pipew.Fed? || WillLook(s.loop, kind) || WillSkip(s, kind) || SenderAt(s, Writing)
  }

  ghost predicate FlagsSeen(s: State) {
    forall kind <- s.flags :: Wakes(s, kind)
  }

  /** A sender has marked the item and has yet to see to the flag. */
  ghost predicate WillRaise(s: State, item: Item) {
    exists tid <- s.senders ::
      s.senders[tid].item == item && (s.senders[tid].pc.Checking? || s.senders[tid].pc.Raising?)
  }

  /** How many items a scan has ahead of it. */
  function Ahead(l: LoopPc): nat
    requires l.Scan? || l.Clear?
  {
    if l.Scan? then l.i else l.i + 1
  }

  predicate WillScan(s: State, item: Item) {
    && (s.loop.Scan? || s.loop.Clear?) && s.loop.kind == item.kind && Ahead(s.loop) <= |Watched(s, item.kind)|
    && item.id in Watched(s, item.kind)[..Ahead(s.loop)]
  }

  ghost predicate ItemSeen(s: State, item: Item) {
    item in s.sent ==> item.kind in s.flags || WillRaise(s, item) || WillScan(s, item)
  }

  /** A watched item that is marked will be scanned for. */
  ghost predicate SentSeen(s: State) {
    forall kind: Kind, id :: id in Watched(s, kind) ==> ItemSeen(s, Item(kind, id))
  }

  /** While the loop waits, a skipped write is about to be made up for. */
  ghost predicate WaitsRightly(s: State) {
    && (s.loop.Want? || s.loop.Decide? || s.loop.Poll? ==> s.pipew.Idle?)
    && (s.loop.Decide? || s.loop.Poll? || s.loop.Unwant? ==> s.wanted)
    && (s.loop.Poll? && s.loop.blocking && s.skipped ==> SenderAt(s, Asking) || SenderAt(s, Claiming))
  }

  ghost predicate Inv(s: State) {
    FlagsSeen(s) && SentSeen(s) && WaitsRightly(s) && InScan(s)
  }

  /** The step of a sender does not hide another sender. */
  lemma OthersStay(s: State, tid: nat, t: nat)
    requires tid in s.senders && t in s.senders && t != tid
    ensures t in SenderStep(s, tid).senders && SenderStep(s, tid).senders[t] == s.senders[t]
  {
  }

  lemma SenderFlags(s: State, tid: nat)
    requires tid in s.senders && FlagsSeen(s)
    ensures FlagsSeen(SenderStep(s, tid))
  {
    var x, s' := s.senders[tid], SenderStep(s, tid);
    forall kind <- s'.flags
      ensures Wakes(s', kind)
    {
      if x.pc.Raising? && kind == x.item.kind {
        assert s'.senders[tid].pc.Skipping?;
      } else if x.pc.Claiming? {
        assert s'.senders[tid].pc.Writing?;
      } else if x.pc.Checking? || x.pc.Asking? || x.pc.Raising? {
        assert Wakes(s, kind);
        if WillSkip(s, kind) {
          var t :| t in s.senders && s.senders[t].pc.Skipping? && s.senders[t].item.kind == kind;
          OthersStay(s, tid, t);
        } else if SenderAt(s, Writing) {
          var t :| t in s.senders && s.senders[t].pc == Writing;
          OthersStay(s, tid, t);
        }
      }
    }
  }

  lemma SenderKeepsRest(s: State, tid: nat)
    requires tid in s.senders
    ensures var s' := SenderStep(s, tid);
            && s'.sent == s.sent && s'.loop == s.loop && s'.asyncs == s.asyncs && s'.signals == s.signals
            && s.flags <= s'.flags && s'.pipew == s.pipew && s'.fed == s.fed
  {
  }

  lemma SenderItem(s: State, tid: nat, item: Item)
    requires tid in s.senders && WillRaise(s, item)
    ensures item.kind in SenderStep(s, tid).flags || WillRaise(SenderStep(s, tid), item)
  {
    var x, s' := s.senders[tid], SenderStep(s, tid);
    var t :| t in s.senders && s.senders[t].item == item && (s.senders[t].pc.Checking? || s.senders[t].pc.Raising?);
    if t != tid {
      OthersStay(s, tid, t);
    } else if x.pc.Checking? && x.item.kind !in s.flags {
      assert s'.senders[tid].pc.Raising? && s'.senders[tid].item == item;
    }
  }

  lemma SenderSent(s: State, tid: nat)
    requires tid in s.senders && SentSeen(s)
    ensures SentSeen(SenderStep(s, tid))
  {
    hide SenderStep, WillRaise;
    var s' := SenderStep(s, tid);
    SenderKeepsRest(s, tid);
    forall kind: Kind, id | id in Watched(s', kind)
      ensures ItemSeen(s', Item(kind, id))
    {
      var item := Item(kind, id);
      assert ItemSeen(s, item);
      if item in s.sent && WillRaise(s, item) {
        SenderItem(s, tid, item);
      }
    }
  }

  lemma SenderWaits(s: State, tid: nat)
    requires tid in s.senders && WaitsRightly(s)
    ensures WaitsRightly(SenderStep(s, tid))
  {
    var x, s' := s.senders[tid], SenderStep(s, tid);
    if s'.loop.Poll? && s'.loop.blocking && s'.skipped {
      if x.pc.Skipping? {
        assert s'.senders[tid].pc == Asking;
      } else if x.pc.Asking? {
        assert s'.senders[tid].pc == Claiming;
      } else if SenderAt(s, Asking) {
        var t :| t in s.senders && s.senders[t].pc == Asking;
        OthersStay(s, tid, t);
      } else {
        var t :| t in s.senders && s.senders[t].pc == Claiming;
        OthersStay(s, tid, t);
      }
    }
  }

  lemma LoopFlags(s: State)
    requires Enabled(s, LoopGo) && FlagsSeen(s)
    ensures FlagsSeen(LoopStep(s))
  {
    var s' := LoopStep(s);
    forall kind <- s'.flags
      ensures Wakes(s', kind)
    {
      assert s'.senders == s.senders;
      SameSenders(s, s', kind);
      assert Wakes(s, kind);
      LoopLooks(s, kind);
      hide WillSkip, SenderAt, LoopStep, WillLook;
    }
  }

  /** The loop does not pass a raised flag by. */
  lemma LoopLooks(s: State, kind: Kind)
    requires Enabled(s, LoopGo) && kind in LoopStep(s).flags
    ensures var s' := LoopStep(s);
            && kind in s.flags && s'.pipe == s.pipe
            && (s.skipped || s.pipew.Fed? || WillLook(s.loop, kind) ==>
                  s'.skipped || s'.pipew.Fed? || WillLook(s'.loop, kind))
  {
    hide Watched, InScan;
  }

  lemma SameSenders(s: State, s': State, kind: Kind)
    requires s'.senders == s.senders
    ensures WillSkip(s', kind) == WillSkip(s, kind)
    ensures forall pc :: SenderAt(s', pc) == SenderAt(s, pc)
    ensures forall item :: WillRaise(s', item) == WillRaise(s, item)
  {
  }

  /** The item that the loop looks at is no longer marked, and the others below are still ahead. */
  lemma LoopScans(s: State, item: Item)
    requires Enabled(s, LoopGo) && WillScan(s, item)
    ensures item !in LoopStep(s).sent || WillScan(LoopStep(s), item)
  {
    var ids, n := Watched(s, item.kind), Ahead(s.loop);
    var k :| 0 <= k < n && ids[..n][k] == item.id;
    assert ids[k] == item.id;
    if k < n - 1 {
      assert ids[..n - 1][k] == item.id;
    }
  }

  lemma LoopSent(s: State)
    requires Enabled(s, LoopGo) && SentSeen(s)
    ensures SentSeen(LoopStep(s))
  {
    var s' := LoopStep(s);
    assert s'.senders == s.senders && s'.asyncs == s.asyncs && s'.signals == s.signals && s'.sent <= s.sent;
    forall kind: Kind, id | id in Watched(s', kind)
      ensures ItemSeen(s', Item(kind, id))
    {
      hide WillRaise;
      var item := Item(kind, id);
      assert ItemSeen(s, item);
      SameSenders(s, s', kind);
      if WillScan(s, item) {
        LoopScans(s, item);
      } else if s.loop.Lower? && s.loop.kind == kind {
        var ids := Watched(s, kind);
        assert ids[..|ids|] == ids;
      }
    }
  }

  lemma LoopWaits(s: State)
    requires Enabled(s, LoopGo) && WaitsRightly(s)
    ensures WaitsRightly(LoopStep(s))
  {
    var s' := LoopStep(s);
    hide SenderAt;
    SameSenders(s, s', Signal);
  }

  lemma LoopInScan(s: State)
    requires Enabled(s, LoopGo)
    ensures InScan(LoopStep(s))
  {
  }

  lemma {:induction false} IndexedIn(ids: seq<nat>, k: nat, id: nat)
    requires k < |ids| && id in SwapRemove(ids, k)
    ensures id in ids
  {
  }

  /** The steps that are neither of a sender on its way nor of the loop on its way. */
  lemma OtherSteps(s: State, step: Step)
    requires Enabled(s, step) && Inv(s) && !step.Go? && !step.LoopGo? && !step.Send?
    ensures Inv(Next(s, step))
  {
    var s' := Next(s, step);
    hide WillRaise, WillSkip, SenderAt, SwapRemove, IndexOf;
    forall kind: Kind
      ensures kind in s'.flags ==> Wakes(s', kind)
    {
      SameSenders(s, s', kind);
      assert kind in s.flags ==> Wakes(s, kind);
    }
    forall kind: Kind, id | id in Watched(s', kind)
      ensures ItemSeen(s', Item(kind, id))
    {
      SameSenders(s, s', kind);
      if step.AsyncStop? && step.id in s.asyncs && kind.Async? {
        IndexedIn(s.asyncs, IndexOf(s.asyncs, step.id), id);
      }
      if !(step.AsyncStart? && kind.Async? && id == step.id) {
        assert ItemSeen(s, Item(kind, id));
      }
    }
  }

  lemma SendStep(s: State, tid: nat, item: Item)
    requires tid !in s.senders && Inv(s)
    ensures Inv(Next(s, Send(tid, item)))
  {
    var s' := Next(s, Send(tid, item));
    assert forall t <- s.senders :: t in s'.senders && s'.senders[t] == s.senders[t];
    forall kind <- s'.flags
      ensures Wakes(s', kind)
    {
      assert Wakes(s, kind);
    }
    forall kind: Kind, id | id in Watched(s', kind)
      ensures ItemSeen(s', Item(kind, id))
    {
      assert ItemSeen(s, Item(kind, id));
      if Item(kind, id) == item {
        assert s'.senders[tid].item == item && s'.senders[tid].pc.Checking?;
      }
    }
  }

  lemma StepInv(s: State, step: Step)
    requires Enabled(s, step) && Inv(s)
    ensures Inv(Next(s, step))
  {
    hide FlagsSeen, SentSeen, WaitsRightly, SenderStep, LoopStep;
    if step.Go? {
      SenderFlags(s, step.tid);
      SenderSent(s, step.tid);
      SenderWaits(s, step.tid);
      SenderKeepsRest(s, step.tid);
    } else if step.LoopGo? {
      LoopFlags(s);
      LoopSent(s);
      LoopWaits(s);
      LoopInScan(s);
    } else if step.Send? {
      SendStep(s, step.tid, step.item);
    } else {
      OtherSteps(s, step);
    }
  }

  // ----- runs

  predicate CanRun(s: State, steps: seq<Step>)
    decreases |steps|
  {
    steps == [] || (Enabled(s, steps[0]) && CanRun(Next(s, steps[0]), steps[1..]))
  }

  function Run(s: State, steps: seq<Step>): State
    requires CanRun(s, steps)
    decreases |steps|
  {
    if steps == [] then s else Run(Next(s, steps[0]), steps[1..])
  }

  lemma {:induction false} RunInv(s: State, steps: seq<Step>)
    requires Inv(s) && CanRun(s, steps)
    ensures Inv(Run(s, steps))
    decreases |steps|
  {
    if steps != [] {
      hide Inv, Next, Enabled;
      StepInv(s, steps[0]);
      RunInv(Next(s, steps[0]), steps[1..]);
    }
  }

  /** The loop is in a poll that may block, nothing is in the pipe, and no sender is on its way. */
  predicate Quiet(s: State) {
    s.loop.Poll? && s.loop.blocking && s.pipe == 0 && s.senders == map[]
  }

  lemma QuietInv(s: State)
    requires Inv(s) && Quiet(s)
    ensures s.flags == {} && !s.skipped
    ensures forall kind: Kind, id :: id in Watched(s, kind) ==> Item(kind, id) !in s.sent
  {
    forall kind: Kind
      ensures kind !in s.flags
    {
      assert kind in s.flags ==> Wakes(s, kind);
    }
    forall kind: Kind, id | id in Watched(s, kind)
      ensures Item(kind, id) !in s.sent
    {
      assert ItemSeen(s, Item(kind, id));
    }
  }

  /** No lost wakeup: a quiet loop has dealt with all that was sent, for any number of senders and any
      interleaving. */
  lemma NoLostWakeup(start: State, steps: seq<Step>)
    requires Start(start) && CanRun(start, steps) && Quiet(Run(start, steps))
    ensures var s := Run(start, steps);
            && s.flags == {} && !s.skipped
            && forall kind: Kind, id :: id in Watched(s, kind) ==> Item(kind, id) !in s.sent
  {
    RunInv(start, steps);
    QuietInv(Run(start, steps));
  }

  lemma StepSentOrFed(s: State, step: Step, item: Item)
    requires Enabled(s, step) && item in s.sent && !(step.AsyncStart? && item == Item(Async, step.id))
    ensures var s' := Next(s, step); item in s'.sent || s'.fed == s.fed + [item]
  {
  }

  lemma StepFedGrows(s: State, step: Step)
    requires Enabled(s, step)
    ensures s.fed <= Next(s, step).fed
  {
  }

  lemma {:induction false} FedGrows(s: State, steps: seq<Step>)
    requires CanRun(s, steps)
    ensures s.fed <= Run(s, steps).fed
    decreases |steps|
  {
    if steps != [] {
      hide Next, Enabled;
      StepFedGrows(s, steps[0]);
      FedGrows(Next(s, steps[0]), steps[1..]);
    }
  }

  /** What is marked stays marked until it is fed, unless its watcher is started anew. */
  lemma {:induction false} SentOrFed(s: State, steps: seq<Step>, item: Item)
    requires CanRun(s, steps) && item in s.sent
    requires forall step <- steps :: !(step.AsyncStart? && item == Item(Async, step.id))
    ensures var t := Run(s, steps); item in t.sent || (s.fed <= t.fed && item in t.fed[|s.fed|..])
    decreases |steps|
  {
    if steps != [] {
      hide Next, Enabled;
      var s' := Next(s, steps[0]);
      StepSentOrFed(s, steps[0], item);
      FedGrows(s', steps[1..]);
      var t := Run(s', steps[1..]);
      StepFedGrows(s, steps[0]);
      if item in s'.sent {
        SentOrFed(s', steps[1..], item);
        if item !in t.sent {
          var k :| |s'.fed| <= k < |t.fed| && t.fed[k] == item;
          assert t.fed[|s.fed|..][k - |s.fed|] == item;
        }
      } else {
        assert t.fed[|s.fed|] == item;
        assert t.fed[|s.fed|..][0] == item;
      }
    }
  }

  /** Whatever is sent to a watcher that stays started has been made pending by the time the loop is
      next quiet. */
  lemma EverySendIsFed(start: State, before: seq<Step>, after: seq<Step>, item: Item)
    requires Start(start) && CanRun(start, before + after) && Quiet(Run(start, before + after))
    requires CanRun(start, before) && item in Run(start, before).sent
    requires forall step <- after :: !(step.AsyncStart? && item == Item(Async, step.id))
    requires item.id in Watched(Run(start, before + after), item.kind)
    ensures Run(start, before).fed <= Run(start, before + after).fed
    ensures item in Run(start, before + after).fed[|Run(start, before).fed|..]
  {
    NoLostWakeup(start, before + after);
    RunSplit(start, before, after);
    SentOrFed(Run(start, before), after, item);
    FedGrows(Run(start, before), after);
  }

  lemma {:induction false} RunSplit(s: State, a: seq<Step>, b: seq<Step>)
    requires CanRun(s, a + b)
    ensures CanRun(s, a) && CanRun(Run(s, a), b) && Run(s, a + b) == Run(Run(s, a), b)
    decreases |a|
  {
    if a == [] {
      assert a + b == b;
    } else {
      hide Next, Enabled;
      assert (a + b)[0] == a[0] && (a + b)[1..] == a[1..] + b;
      RunSplit(Next(s, a[0]), a[1..], b);
    }
  }

  // ----- nothing is fed that was not sent

  function Count(items: seq<Item>, item: Item): nat {
    if items == [] then 0 else Count(items[..|items| - 1], item) + if items[|items| - 1] == item then 1 else 0
  }

  function Sends(steps: seq<Step>, item: Item): nat {
    if steps == [] then 0 else (if steps[0].Send? && steps[0].item == item then 1 else 0) + Sends(steps[1..], item)
  }

  /** What is owed and what was fed already. */
  function Account(s: State, item: Item): nat {
    Count(s.fed, item) + if item in s.sent then 1 else 0
  }

  /** What the loop is about to clear is marked. */
  predicate Marked(s: State) {
    InScan(s) && (s.loop.Clear? ==> Item(s.loop.kind, Watched(s, s.loop.kind)[s.loop.i]) in s.sent)
  }

  lemma StepMarked(s: State, step: Step)
    requires Enabled(s, step) && Marked(s)
    ensures Marked(Next(s, step))
  {
    if step.Go? {
      SenderKeepsRest(s, step.tid);
    }
  }

  lemma StepAccount(s: State, step: Step, item: Item)
    requires Enabled(s, step) && Marked(s)
    ensures Account(Next(s, step), item) <= Account(s, item) + if step.Send? && step.item == item then 1 else 0
  {
    if step.Go? {
      SenderKeepsRest(s, step.tid);
    } else {
      var s' := Next(s, step);
      assert s'.fed == s.fed || s'.fed[..|s'.fed| - 1] == s.fed;
    }
  }

  /** An item is fed at most as often as it was sent. */
  lemma {:induction false} FedWasSent(s: State, steps: seq<Step>, item: Item)
    requires CanRun(s, steps) && Marked(s)
    ensures Account(Run(s, steps), item) <= Account(s, item) + Sends(steps, item)
    decreases |steps|
  {
    if steps != [] {
      hide Next, Enabled, Account, Marked;
      StepMarked(s, steps[0]);
      StepAccount(s, steps[0], item);
      FedWasSent(Next(s, steps[0]), steps[1..], item);
    }
  }

  lemma FeedsNeedSends(start: State, steps: seq<Step>, item: Item)
    requires Start(start) && CanRun(start, steps)
    ensures Count(Run(start, steps).fed, item) <= Sends(steps, item)
  {
    FedWasSent(start, steps, item);
  }
}
