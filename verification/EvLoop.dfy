/** The scheduler core of libev: timers in a heap, pending events in stacks by priority, and the
    dispatch of pending events. */
module EvLoop {
  import opened EvHeap
  import opened EvPending
  import opened EvDispatch

  /** The cached times are the watchers' times. */
  ghost predicate Cached(entries: set<Anhe>, ws: set<Watcher>)
    reads ws`at
  {
    forall e <- entries :: e.w in ws && e.at == e.w.at
  }

  /** exp are timers that were due, in the order of their times at0, and none is missing that was due
      before one of them. */
  ghost predicate DueInOrder(exp: seq<Watcher>, at0: map<Watcher, real>, active0: set<Watcher>, now: real)
    requires active0 <= at0.Keys
  {
    && (forall i, j :: 0 <= i < j < |exp| ==> exp[i] != exp[j])
    && (forall w <- exp :: w in active0 && at0[w] < now)
    && (forall i, j :: 0 <= i < j < |exp| ==> at0[exp[i]] <= at0[exp[j]])
    && (forall x <- exp, w <- active0 :: w !in exp ==> at0[x] <= at0[w])
  }

  /** The later of the two. */
  predicate IsNext(t: real, due: real, now: real) { t >= due && t >= now && (t == due || t == now) }

  /** When a repeating timer goes off next: after its interval, but not in the past. */
  function Next(at: real, repeat: real, now: real): (t: real)
    ensures IsNext(t, at + repeat, now)
  {
    if at + repeat < now then now else at + repeat
  }

  ghost function Times(ws: set<Watcher>): map<Watcher, real>
    reads ws`at
  {
    map w | w in ws :: w.at
  }

  lemma OneTime(at: map<Watcher, real>, at': map<Watcher, real>, w: Watcher)
    requires at'.Keys == at.Keys && w in at && forall v <- at :: v != w ==> at'[v] == at[v]
    ensures at' == at[w := at'[w]]
  {
  }

  ghost function Repeats(ws: set<Watcher>): map<Watcher, real>
    reads ws`repeat
  {
    map w | w in ws :: w.repeat
  }

  /** The timers: which are active, their times and intervals, and the time. */
  datatype Timers = Timers(active: set<Watcher>, at: map<Watcher, real>, repeat: map<Watcher, real>, now: real)

  /** What an action in a callback does to the timers. */
  ghost function TimersAfter(t: Timers, a: Action): Timers {
    var w := a.w;
    if w !in t.at || w !in t.repeat || a.Feed? || a.Clear? then t
    else if a.Start? then
      if w in t.active then t else t.(active := t.active + {w}, at := t.at[w := t.at[w] + t.now])
    else if a.Again? && t.repeat[w] != 0.0 then t.(active := t.active + {w}, at := t.at[w := t.now + t.repeat[w]])
    else if w in t.active then t.(active := t.active - {w}, at := t.at[w := t.at[w] - t.now])
    else t
  }

  /** What a callback does, and what several do, one after the other. */
  ghost function TimersAfterAll(t: Timers, actions: seq<Action>): Timers {
    if actions == [] then t
    else TimersAfter(TimersAfterAll(t, actions[..|actions| - 1]), actions[|actions| - 1])
  }

  ghost function TimersAfterScript(t: Timers, script: Script): Timers {
    if script == [] then t
    else TimersAfterAll(TimersAfterScript(t, script[..|script| - 1]), script[|script| - 1])
  }

  /** The next callback has run. */
  ghost predicate WentOn(t: Timers, rest: Script, rest': Script, t': Timers) {
    if rest == [] then rest' == [] && t' == t else rest' == rest[1..] && t' == TimersAfterAll(t, rest[0])
  }

  /** So far k callbacks have run, of which the script has as many as it has. */
  ghost predicate RanSo(t: Timers, script: Script, k: nat, rest: Script, t': Timers) {
    var n := if k < |script| then k else |script|;
    rest == script[n..] && t' == TimersAfterScript(t, script[..n])
  }

  lemma NoneRan(t: Timers, script: Script)
    ensures RanSo(t, script, 0, script, t)
  {
  }

  lemma RanOn(t: Timers, script: Script, k: nat, rest: Script, t1: Timers, rest': Script, t2: Timers)
    requires RanSo(t, script, k, rest, t1) && WentOn(t1, rest, rest', t2)
    ensures RanSo(t, script, k + 1, rest', t2)
  {
    hide TimersAfterAll;
    if k < |script| {
      assert script[..k + 1][..k] == script[..k];
    }
  }

  lemma RanAll(t: Timers, script: Script, k: nat, rest: Script, t': Timers)
    requires RanSo(t, script, k, rest, t')
    ensures t' == TimersAfterScript(t, if k < |script| then script[..k] else script)
  {
    assert script[..|script|] == script;
  }

  /** The timers in exp are rescheduled or stopped, the others are as they were. */
  ghost predicate Rescheduled(ws: set<Watcher>, exp: seq<Watcher>, at0: map<Watcher, real>, active0: set<Watcher>,
                              at: map<Watcher, real>, active: set<Watcher>, now: real)
    requires ws <= at0.Keys && ws <= at.Keys
    reads ws`repeat
  {
    && (forall w <- ws :: w in exp ==>
          if w.repeat != 0.0 then w in active && IsNext(at[w], at0[w] + w.repeat, now)
          else w !in active && at[w] == at0[w] - now)
    && (forall w <- ws :: w !in exp ==> at[w] == at0[w] && (w in active <==> w in active0))
  }

  lemma DueAre(exp: seq<Watcher>, at0: map<Watcher, real>, active0: set<Watcher>, now: real)
    requires active0 <= at0.Keys && DueInOrder(exp, at0, active0, now)
    ensures forall w <- exp :: w in active0 && at0[w] < now
  {
  }

  lemma DueNext(exp: seq<Watcher>, at0: map<Watcher, real>, active0: set<Watcher>, now: real, w: Watcher)
    requires active0 <= at0.Keys && DueInOrder(exp, at0, active0, now)
    requires w in active0 && w !in exp && at0[w] < now && forall v <- active0 :: v !in exp ==> at0[w] <= at0[v]
    ensures DueInOrder(exp + [w], at0, active0, now)
  {
    var e := exp + [w];
    forall x <- e, v <- active0 | v !in e
      ensures at0[x] <= at0[v]
    {
      assert v !in exp;
    }
  }

  /** One more timer is rescheduled or stopped. */
  lemma RescheduledNext(ws: set<Watcher>, exp: seq<Watcher>, at0: map<Watcher, real>, active0: set<Watcher>,
                        at1: map<Watcher, real>, active1: set<Watcher>,
                        at: map<Watcher, real>, active: set<Watcher>, now: real, w: Watcher)
    requires ws <= at0.Keys && ws <= at1.Keys && ws <= at.Keys && w in ws && w !in exp && at0[w] == at1[w]
    requires Rescheduled(ws, exp, at0, active0, at1, active1, now)
    requires forall v <- ws :: v != w ==> at[v] == at1[v]
    requires if w.repeat != 0.0 then active == active1 && w in active && at[w] == Next(at0[w], w.repeat, now)
             else active == active1 - {w} && at[w] == at0[w] - now
    ensures Rescheduled(ws, exp + [w], at0, active0, at, active, now)
  {
    hide Next;
  }

  class Loop {
    var pendings: seq<seq<Entry>>
    var pendingpri: nat
    const pendingW: Watcher  // the dummy
    var timers: array<Anhe>
    var timercnt: nat
    var mnNow: real
    var rfeeds: seq<Watcher>
    ghost var ws: set<Watcher>  // the watchers used with this loop

    /** A loop for the given watchers, none of which is active or pending. */
    constructor (watchers: set<Watcher>, now: real)
      requires forall w <- watchers :: w.active == 0 && w.pending == 0 && w.priority < NUMPRI && w.repeat >= 0.0
      ensures ws == watchers && mnNow == now && Queued() && Heaped() && rfeeds == [] && fresh(timers)
      ensures timercnt == 0 && pendings == [[], [], [], [], []]
    {
      var dummy := new Watcher(0, 0.0, 0.0);
      pendingW := dummy;
      pendings := [[], [], [], [], []];
      pendingpri := 0;
      timers := new Anhe[HEAP0](_ => Anhe(0.0, dummy));
      timercnt, mnNow, rfeeds, ws := 0, now, [], watchers;
    }

    // ----- pending events

    /** Every entry is the dummy or a watcher that knows its place, and vice versa. */
    ghost predicate Queued()
      reads this`pendings, this`ws, ws`pending, pendingW`pending
    {
      && |pendings| == NUMPRI && pendingW !in ws && pendingW.pending == 0
      && (forall p, i :: 0 <= p < NUMPRI && 0 <= i < |pendings[p]| ==> Placed(pendings[p][i].w, p, i))
      && (forall w <- ws :: w.priority < NUMPRI)
      && (forall w <- ws :: w.pending > 0 ==> Found(w))
    }

    /** w is the dummy, or a watcher that knows that it is at i on the stack of priority p. */
    ghost predicate Placed(w: Watcher, p: nat, i: nat)
      reads this`ws, ws`pending
    {
      w == pendingW || (w in ws && w.priority == p && w.pending == i + 1)
    }

    /** w is where it thinks it is. */
    ghost predicate Found(w: Watcher)
      reads this`pendings, w`pending
    {
      && w.priority < |pendings| && 0 < w.pending <= |pendings[w.priority]|
      && pendings[w.priority][w.pending - 1].w == w
    }

    /** The pending events by priority, without the dummies. */
    ghost function Lists(): (l: seq<seq<Entry>>)
      reads this`pendings
      ensures |l| == |pendings|
    {
      AllLive(pendings, pendingW)
    }

    lemma QueuedUnique(p: nat)
      requires Queued() && p < NUMPRI
      ensures Unique(pendings[p], pendingW)
    {
    }

    lemma QueuedSorted()
      requires Queued()
      ensures Sorted(Lists())
    {
      forall p, i | 0 <= p < NUMPRI && 0 <= i < |Lists()[p]|
        ensures Lists()[p][i].w.priority == p
      {
        LiveSubset(pendings[p], pendingW, Lists()[p][i]);
      }
    }

    lemma InRange(w: Watcher)
      requires Queued() && w in ws
      ensures w.priority < |pendings| == NUMPRI
    {
    }

    /** A watcher is pending exactly if it is on the list of its priority. */
    lemma PendingHas(w: Watcher)
      requires Queued() && w in ws
      ensures w.pending > 0 <==> Has(Lists()[w.priority], w)
      ensures Lists()[w.priority] == Live(pendings[w.priority], pendingW)
    {
      LiveHas(pendings[w.priority], pendingW, w);
    }

    /** A watcher that is not pending joins its stack. */
    method Push(w: Watcher, revents: Revents)
      requires Queued() && w in ws && w.pending == 0
      modifies this`pendings, w`pending
      ensures Queued() && w.pending > 0
      ensures Lists() == old(Lists())[w.priority := old(Lists())[w.priority] + [Entry(w, revents)]]
    {
      hide AllLive, Live, Has;
      PendingHas(w);
      LiveAppend(pendings[w.priority], pendingW, Entry(w, revents));
      var stack := pendings[w.priority] + [Entry(w, revents)];
      AllLiveUpdate(pendings, pendingW, w.priority, stack);
      pendings := pendings[w.priority := stack];
      w.pending := |stack|;
    }

    /** ev_feed_event */
    method FeedEvent(w: Watcher, revents: Revents)
      requires Queued() && w in ws
      modifies this`pendings, this`pendingpri, w`pending
      ensures Queued() && w.pending > 0 && pendingpri == NUMPRI - 1
      ensures Lists() == old(Lists())[w.priority := Fed(old(Lists())[w.priority], w, revents)]
    {
      hide AllLive, Live, Has, Bumped, Unique;
      var pri := w.priority;
      PendingHas(w);
      QueuedUnique(pri);
      if w.pending > 0 {
        var i := w.pending - 1;
        LiveBumped(pendings[pri], pendingW, i, revents);
        var stack := pendings[pri][i := Entry(w, pendings[pri][i].events + revents)];
        AllLiveUpdate(pendings, pendingW, pri, stack);
        pendings := pendings[pri := stack];
      } else {
        Push(w, revents);
      }
      pendingpri := NUMPRI - 1;
    }

    /** clear_pending */
    method ClearPending(w: Watcher)
      requires Queued() && w in ws
      modifies this`pendings, w`pending
      ensures Queued() && w.pending == 0 && SameShape(old(pendings), pendings)
      ensures Lists() == old(Lists())[w.priority := Without(old(Lists())[w.priority], w)]
    {
      hide AllLive, Live, Has, Without, Unique;
      var pri := w.priority;
      PendingHas(w);
      if w.pending == 0 {
        WithoutAbsent(Lists()[pri], w);
        return;
      }
      QueuedUnique(pri);
      var i := w.pending - 1;
      LiveCleared(pendings[pri], pendingW, i);
      var stack := pendings[pri][i := Entry(pendingW, pendings[pri][i].events)];
      AllLiveUpdate(pendings, pendingW, pri, stack);
      forall v <- ws | v.pending > 0 && v != w
        ensures v.priority == pri ==> stack[v.pending - 1].w == v
      {
      }
      pendings := pendings[pri := stack];
      w.pending := 0;
    }

    // ----- timers

    /** The timers are in heap order, know their place, and have their times cached. */
    ghost predicate HeapCore()
      reads this`timers, this`timercnt, this`ws, timers, ws`active, ws`at
    {
      && timercnt + HEAP0 <= timers.Length
      && Watchers(timers[..], timercnt) <= ws
      && IsHeap(timers[..], timercnt) && Distinct(timers[..], timercnt) && IndexedBut(timers[..], timercnt, -1)
      && Cached(Entries(timers[..], timercnt), ws)
    }

    /** Moreover, exactly the timers in the heap are active, and no repeat interval is negative. */
    ghost predicate Heaped()
      reads this`timers, this`timercnt, this`ws, timers, ws`active, ws`at, ws`repeat
    {
      && HeapCore()
      && (forall w <- ws :: w.active != 0 ==> w in ActiveTimers())
      && (forall w <- ws :: w.repeat >= 0.0)
    }

    ghost function ActiveTimers(): set<Watcher>
      requires timercnt + HEAP0 <= timers.Length
      reads this`timers, this`timercnt, timers
    {
      Watchers(timers[..], timercnt)
    }

    /** A timer is active exactly if it is in the heap. */
    lemma ActiveInHeap(w: Watcher)
      requires Heaped() && w in ws
      ensures w.active != 0 <==> w in ActiveTimers()
      ensures w.active != 0 ==> HEAP0 <= w.active < timercnt + HEAP0 && timers[w.active] == Anhe(w.at, w)
    {
      if w in ActiveTimers() {
        var i :| HEAP0 <= i < timercnt + HEAP0 && timers[..][i].w == w;
        assert timers[..][i] in Entries(timers[..], timercnt);
      }
    }

    /** array_needsize for one more timer. */
    method Grow()
      requires timercnt + HEAP0 <= timers.Length
      modifies this`timers
      ensures timercnt + HEAP0 < timers.Length && (timers == old(timers) || fresh(timers))
      ensures forall i :: HEAP0 <= i < timercnt + HEAP0 ==> timers[i] == old(timers[i])
    {
      if timercnt + HEAP0 == timers.Length {
        var from, filler := timers, Anhe(0.0, pendingW);
        timers := new Anhe[2 * from.Length + 1](
          i requires 0 <= i reads from => if i < from.Length then from[i] else filler);
      }
    }

    /** All of HeapCore, but for the order and the index of the entry at k. */
    ghost predicate CoreBut(k: nat)
      reads this`timers, this`timercnt, this`ws, timers, ws`active, ws`at
    {
      && timercnt + HEAP0 <= timers.Length && HEAP0 <= k < timercnt + HEAP0
      && Watchers(timers[..], timercnt) <= ws
      && Distinct(timers[..], timercnt) && IndexedBut(timers[..], timercnt, k)
      && Cached(Entries(timers[..], timercnt), ws)
    }

    /** Put w, whose time is set, behind the last entry. */
    method Append(w: Watcher)
      requires HeapCore() && w in ws && w !in ActiveTimers()
      modifies this`timers, this`timercnt, timers, w`active
      ensures timercnt == old(timercnt) + 1 && w.active == timercnt - 1 + HEAP0
      ensures CoreBut(w.active) && HeapButUp(timers[..], timercnt, w.active)
      ensures ActiveTimers() == old(ActiveTimers()) + {w} && (timers == old(timers) || fresh(timers))
    {
      hide IsHeap, Distinct, Entries, HeapButUp;
      ghost var s := timers[..];
      Grow();
      w.active := timercnt + HEAP0;
      timers[w.active] := Anhe(w.at, w);
      Appended(s, timers[..], timercnt, Anhe(w.at, w));
      timercnt := timercnt + 1;
    }

    /** Add w, whose time is set, to the heap. */
    method Insert(w: Watcher)
      requires HeapCore() && w in ws && w !in ActiveTimers()
      modifies this`timers, this`timercnt, timers, ws`active
      ensures HeapCore() && (timers == old(timers) || fresh(timers))
      ensures ActiveTimers() == old(ActiveTimers()) + {w}
      ensures forall v <- ws :: v !in ActiveTimers() ==> v.active == old(v.active)
    {
      hide IsHeap, Distinct, Entries, HeapButUp, Up;
      Append(w);
      UpIsHeap(timers[..], timercnt, w.active);
      UpEntries(timers[..], timercnt, w.active);
      UpHeap(timers, timercnt, w.active);
    }

    /** ev_timer_start */
    method TimerStart(w: Watcher)
      requires Heaped() && w in ws
      modifies this`timers, this`timercnt, timers, ws`active, w`at
      ensures Heaped() && (timers == old(timers) || fresh(timers))
      ensures ActiveTimers() == old(ActiveTimers()) + {w}
      ensures w.at == old(w.at) + if old(w.active) == 0 then mnNow else 0.0
    {
      hide IsHeap, Distinct, Entries;
      ActiveInHeap(w);
      if w.active != 0 {
        return;
      }
      EntriesWatchers(timers[..], timercnt);
      w.at := w.at + mnNow;
      Insert(w);
    }

    /** adjustheap on the timers. */
    method Adjust(k: nat)
      requires CoreBut(k) && HeapBut(timers[..], timercnt, k)
      modifies timers, ws`active
      ensures HeapCore() && ActiveTimers() == old(ActiveTimers())
      ensures forall v <- ws :: v !in ActiveTimers() ==> v.active == old(v.active)
    {
      hide IsHeap, Distinct, Entries, HeapBut, Adjusted;
      AdjustedIsHeap(timers[..], timercnt, k);
      AdjustHeap(timers, timercnt, k);
    }

    /** Take w out of the heap; its active field is left to the caller. */
    method Remove(w: Watcher)
      requires HeapCore() && w in ActiveTimers() && HEAP0 <= w.active < timercnt + HEAP0 && timers[w.active].w == w
      modifies this`timercnt, timers, ws`active
      ensures HeapCore() && ActiveTimers() == old(ActiveTimers()) - {w}
      ensures forall v <- ws :: v !in ActiveTimers() ==> v.active == old(v.active)
    {
      hide IsHeap, Distinct, Entries, HeapBut;
      var k := w.active;
      ghost var s := timers[..];
      Removed(s, timercnt - 1, k);
      timercnt := timercnt - 1;
      if k < timercnt + HEAP0 {
        timers[k] := timers[timercnt + HEAP0];
        assert timers[..] == s[k := s[timercnt + HEAP0]];
        Adjust(k);
      } else {
        assert s[k := s[timercnt + HEAP0]] == s;
      }
    }

    /** ev_timer_stop */
    method TimerStop(w: Watcher)
      requires Queued() && Heaped() && w in ws
      modifies this`pendings, w`pending, this`timercnt, timers, ws`active, w`at
      ensures Queued() && w.pending == 0 && SameShape(old(pendings), pendings)
      ensures Lists() == old(Lists())[w.priority := Without(old(Lists())[w.priority], w)]
      ensures Heaped() && w.active == 0 && ActiveTimers() == old(ActiveTimers()) - {w}
      ensures w.at == old(w.at) - if old(w.active) != 0 then mnNow else 0.0
    {
      hide Queued, IsHeap, Distinct, Entries, Without;
      ClearPending(w);
      ActiveInHeap(w);
      if w.active == 0 {
        return;
      }
      Remove(w);
      EntriesWatchers(timers[..], timercnt);
      w.at := w.at - mnNow;
      w.active := 0;
    }

    /** Change the time of an active timer and its cache. */
    method SetTime(w: Watcher, at: real)
      requires HeapCore() && w in ws && HEAP0 <= w.active < timercnt + HEAP0 && timers[w.active].w == w
      modifies timers, w`at
      ensures w.at == at && CoreBut(w.active) && HeapBut(timers[..], timercnt, w.active)
      ensures ActiveTimers() == old(ActiveTimers()) && timers[w.active] == Anhe(at, w)
    {
      hide IsHeap, Distinct, HeapBut;
      ghost var s := timers[..];
      Changed(s, timercnt, w.active, Anhe(at, w));
      w.at := at;
      timers[w.active] := Anhe(at, w);
      assert timers[..] == s[w.active := Anhe(at, w)];
    }

    /** Set the time of an active timer and restore the heap. */
    method Move(w: Watcher, at: real)
      requires Heaped() && w in ws && w.active != 0
      modifies timers, ws`active, w`at
      ensures Heaped() && ActiveTimers() == old(ActiveTimers()) && w.at == at
    {
      hide IsHeap, Distinct, Entries, HeapBut;
      ActiveInHeap(w);
      SetTime(w, at);
      Adjust(w.active);
    }

    /** ev_timer_again */
    method TimerAgain(w: Watcher)
      requires Queued() && Heaped() && w in ws
      modifies this`pendings, w`pending, this`timers, this`timercnt, timers, ws`active, w`at
      ensures Queued() && w.pending == 0 && SameShape(old(pendings), pendings)
      ensures Lists() == old(Lists())[w.priority := Without(old(Lists())[w.priority], w)]
      ensures Heaped() && (timers == old(timers) || fresh(timers))
      ensures ActiveTimers() == if w.repeat != 0.0 then old(ActiveTimers()) + {w} else old(ActiveTimers()) - {w}
      ensures w.repeat != 0.0 ==> w.at == mnNow + w.repeat
      ensures w.repeat == 0.0 ==> w.at == old(w.at) - if old(w.active) != 0 then mnNow else 0.0
    {
      hide Queued, IsHeap, Distinct, Entries, Without, HeapBut;
      InRange(w);
      ActiveInHeap(w);
      ClearPending(w);
      if w.active != 0 {
        if w.repeat != 0.0 {
          Move(w, mnNow + w.repeat);
        } else {
          WithoutNone(old(Lists())[w.priority], w);
          WithoutAbsent(Lists()[w.priority], w);
          TimerStop(w);
        }
      } else if w.repeat != 0.0 {
        EntriesWatchers(timers[..], timercnt);
        w.at := w.repeat;
        TimerStart(w);
      }
    }

    // ----- expiry

    /** downheap on the first timer. */
    method DownRoot()
      requires CoreBut(HEAP0) && HeapBut(timers[..], timercnt, HEAP0)
      modifies timers, ws`active
      ensures HeapCore() && ActiveTimers() == old(ActiveTimers())
      ensures forall v <- ws :: v !in ActiveTimers() ==> v.active == old(v.active)
    {
      hide Distinct, Entries, Down;
      DownIsHeap(timers[..], timercnt, HEAP0);
      DownEntries(timers[..], timercnt, HEAP0);
      hide IsHeap, HeapBut;
      DownHeap(timers, timercnt, HEAP0);
    }

    /** Reschedule the first timer. */
    method Reschedule(w: Watcher)
      requires Heaped() && timercnt > 0 && w == timers[HEAP0].w
      modifies timers, ws`active, w`at
      ensures Heaped() && ActiveTimers() == old(ActiveTimers()) && w.at == Next(old(w.at), w.repeat, mnNow)
    {
      hide IsHeap, Distinct, Entries, HeapBut;
      WatcherIn(timers[..], timercnt, HEAP0);
      ActiveInHeap(w);
      SetTime(w, Next(w.at, w.repeat, mnNow));
      DownRoot();
    }

    /** The first half of a round of timers_reify: reschedule or stop the first timer. */
    method Expire() returns (w: Watcher)
      requires Queued() && Heaped() && timercnt > 0
      modifies this`pendings, this`timercnt, timers, ws`active, ws`at, ws`pending
      ensures Queued() && Heaped() && w in ws && w == old(timers[HEAP0].w) && w in old(ActiveTimers())
      ensures forall v <- ws :: v != w ==> v.at == old(v.at) && v.pending == old(v.pending)
      ensures if w.repeat != 0.0 then
                && ActiveTimers() == old(ActiveTimers()) && w.at == Next(old(w.at), w.repeat, mnNow)
                && Lists() == old(Lists()) && w.pending == old(w.pending) && w.priority < |Lists()|
              else
                && ActiveTimers() == old(ActiveTimers()) - {w} && w.at == old(w.at) - mnNow
                && w.priority < |Lists()| == |old(Lists())|
                && Lists() == old(Lists())[w.priority := Without(old(Lists())[w.priority], w)]
    {
      hide Queued, HeapCore, Without;
      FirstActive();
      w := timers[HEAP0].w;
      ActiveInHeap(w);
      InRange(w);
      if w.repeat != 0.0 {
        Reschedule(w);
      } else {
        TimerStop(w);
      }
    }

    lemma FirstActive()
      requires Heaped() && timercnt > 0
      ensures timercnt + HEAP0 <= timers.Length && timers[HEAP0].w in ActiveTimers() && ActiveTimers() <= ws
    {
      WatcherIn(timers[..], timercnt, HEAP0);
    }

    /** The first timer of the heap is the earliest. */
    lemma FirstEarliest()
      requires Heaped() && timercnt > 0
      ensures timercnt + HEAP0 <= timers.Length && timers[HEAP0].at == timers[HEAP0].w.at
      ensures forall w <- ActiveTimers() :: timers[HEAP0].at <= w.at
    {
      forall w <- ActiveTimers()
        ensures timers[HEAP0].at <= w.at
      {
        var i :| HEAP0 <= i < timercnt + HEAP0 && timers[..][i].w == w;
        RootIsMin(timers[..], timercnt, i);
        assert timers[..][i] in Entries(timers[..], timercnt);
      }
      assert timers[..][HEAP0] in Entries(timers[..], timercnt);
    }

    /** feed_reverse_done: the watchers collected are fed in reverse order. */
    method FeedReverseDone(revents: Revents)
      requires Queued() && rfeeds != [] && forall w <- rfeeds :: w in ws
      modifies this`pendings, this`pendingpri, this`rfeeds, ws`pending
      ensures Queued() && rfeeds == []
      ensures (forall w <- old(rfeeds) :: w.priority < |old(Lists())|)
      ensures Lists() == FedBack(old(Lists()), old(rfeeds), revents)
    {
      hide Queued;
      forall w <- rfeeds
        ensures w.priority < |pendings| == NUMPRI
      {
        InRange(w);
      }
      ghost var goal := FedBack(Lists(), rfeeds, revents);
      while rfeeds != []
        invariant Queued() && (forall w <- rfeeds :: w in ws && w.priority < |pendings| == NUMPRI)
        invariant goal == FedBack(Lists(), rfeeds, revents)
        decreases |rfeeds|
      {
        var w := rfeeds[|rfeeds| - 1];
        rfeeds := rfeeds[..|rfeeds| - 1];
        FeedEvent(w, revents);
      }
    }

    /** What holds inside timers_reify when exp are the timers taken so far; at0, active0 and lists0
        are as on entry. */
    ghost predicate Reifying(exp: seq<Watcher>, at0: map<Watcher, real>, active0: set<Watcher>, lists0: seq<seq<Entry>>)
      reads this`timers, this`timercnt, this`ws, this`mnNow, this`rfeeds, this`pendings, timers,
            ws`active, ws`at, ws`repeat, ws`pending, pendingW`pending
    {
      && Queued() && Heaped() && rfeeds == exp && (forall w <- exp :: w in ws)
      && active0 <= ws <= at0.Keys
      && DueInOrder(exp, at0, active0, mnNow)
      && Rescheduled(ws, exp, at0, active0, Times(ws), ActiveTimers(), mnNow)
      && Sorted(lists0) && AllMinus(Lists(), lists0, Stopped(exp))
    }

    /** The timers of exp that do not repeat. */
    ghost function Stopped(exp: seq<Watcher>): set<Watcher>
      reads exp`repeat
    {
      set w | w in exp && w.repeat == 0.0
    }

    /** The timer that is taken next is due, not taken before, and not later than any other. */
    lemma NextDue(exp: seq<Watcher>, at0: map<Watcher, real>, active0: set<Watcher>, lists0: seq<seq<Entry>>)
      requires Reifying(exp, at0, active0, lists0) && timercnt > 0 && timers[HEAP0].at < mnNow
      ensures var w := timers[HEAP0].w;
              w in ws && w !in exp && w in active0 && w.at == at0[w] && DueInOrder(exp + [w], at0, active0, mnNow)
    {
      hide Queued, HeapCore, DueInOrder, Minus;
      FirstEarliest();
      FirstActive();
      DueNext(exp, at0, active0, mnNow, timers[HEAP0].w);
    }

    /** One round of timers_reify, all but the note of the timer taken. */
    method TakeFirst(ghost exp: seq<Watcher>, ghost at0: map<Watcher, real>, ghost active0: set<Watcher>)
      returns (w: Watcher)
      requires Queued() && Heaped() && timercnt > 0 && ws <= at0.Keys
      requires timers[HEAP0].w in ws && timers[HEAP0].w !in exp && timers[HEAP0].w.at == at0[timers[HEAP0].w]
      requires Rescheduled(ws, exp, at0, active0, Times(ws), ActiveTimers(), mnNow)
      modifies this`pendings, this`timercnt, timers, ws`active, ws`at, ws`pending
      ensures Queued() && Heaped() && w == old(timers[HEAP0].w)
      ensures timercnt + HEAP0 <= timers.Length
      ensures Rescheduled(ws, exp + [w], at0, active0, Times(ws), ActiveTimers(), mnNow)
      ensures w.priority < |Lists()| == |old(Lists())|
      ensures Lists() == if w.repeat != 0.0 then old(Lists())
                         else old(Lists())[w.priority := Without(old(Lists())[w.priority], w)]
    {
      LengthKnown();
      ghost var at, active := Times(ws), ActiveTimers();
      hide Queued, Heaped, HeapCore, Without, Rescheduled, Next, Lists;
      w := Expire();
      LengthKnown();
      RescheduledNext(ws, exp, at0, active0, at, active, Times(ws), ActiveTimers(), mnNow, w);
    }

    /** One round of timers_reify. */
    method ReifyRound(ghost exp: seq<Watcher>, ghost at0: map<Watcher, real>, ghost active0: set<Watcher>,
                      ghost lists0: seq<seq<Entry>>) returns (w: Watcher)
      requires Reifying(exp, at0, active0, lists0) && timercnt > 0 && timers[HEAP0].at < mnNow
      modifies this`pendings, this`rfeeds, this`timercnt, timers, ws`active, ws`at, ws`pending
      ensures Reifying(exp + [w], at0, active0, lists0) && w in ws && w !in exp
    {
      hide Queued, Heaped, HeapCore, DueInOrder, AllMinus, Sorted, Without, Rescheduled, Stopped, Next, Lists;
      NextDue(exp, at0, active0, lists0);
      ghost var lists := Lists();
      w := TakeFirst(exp, at0, active0);
      StoppedNext(lists, lists0, exp, w);
      rfeeds := rfeeds + [w];
    }

    lemma StoppedNext(lists: seq<seq<Entry>>, lists0: seq<seq<Entry>>, exp: seq<Watcher>, w: Watcher)
      requires Sorted(lists0) && AllMinus(lists, lists0, Stopped(exp)) && w.priority < |lists|
      ensures AllMinus(if w.repeat != 0.0 then lists else lists[w.priority := Without(lists[w.priority], w)],
                       lists0, Stopped(exp + [w]))
    {
      hide Sorted, AllMinus, Without;
      assert Stopped(exp + [w]) == Stopped(exp) + if w.repeat == 0.0 then {w} else {};
      if w.repeat == 0.0 {
        AllMinusOne(lists, lists0, Stopped(exp), w);
      } else {
        assert Stopped(exp) + {} == Stopped(exp);
      }
    }

    /** The first loop of timers_reify: take all timers that are due. */
    method ReifyLoop(ghost at0: map<Watcher, real>, ghost active0: set<Watcher>, ghost lists0: seq<seq<Entry>>)
      returns (ghost exp: seq<Watcher>)
      requires Reifying([], at0, active0, lists0) && timercnt + HEAP0 <= timers.Length
      modifies this`pendings, this`rfeeds, this`timercnt, timers, ws`active, ws`at, ws`pending
      ensures Reifying(exp, at0, active0, lists0) && timercnt + HEAP0 <= timers.Length
      ensures ActiveTimers() <= ws && forall w <- ActiveTimers() :: w.at >= mnNow
    {
      hide Reifying;
      exp := [];
      while timercnt > 0 && timers[HEAP0].at < mnNow
        invariant timercnt + HEAP0 <= timers.Length && Reifying(exp, at0, active0, lists0)
        decreases ws - (set w | w in exp)
      {
        var w := ReifyRound(exp, at0, active0, lists0);
        assert w in ws - (set v | v in exp);
        exp := exp + [w];
        ReifyingHeaped(exp, at0, active0, lists0);
        LengthKnown();
      }
      ReifyingHeaped(exp, at0, active0, lists0);
      NoneDue();
    }

    lemma ReifyingHeaped(exp: seq<Watcher>, at0: map<Watcher, real>, active0: set<Watcher>, lists0: seq<seq<Entry>>)
      requires Reifying(exp, at0, active0, lists0)
      ensures Heaped() && HeapCore()
    {
    }

    /** When the loop is over, exactly the timers that were due have been taken. */
    lemma AllDueTaken(exp: seq<Watcher>, at0: map<Watcher, real>, active0: set<Watcher>, lists0: seq<seq<Entry>>)
      requires Reifying(exp, at0, active0, lists0)
      requires timercnt + HEAP0 <= timers.Length && ActiveTimers() <= ws && forall w <- ActiveTimers() :: w.at >= mnNow
      ensures active0 <= at0.Keys && forall w <- active0 :: at0[w] < mnNow ==> w in exp
    {
      hide Queued, Heaped, DueInOrder, AllMinus;
    }

    /** timers_reify: exactly the timers due are rescheduled or stopped, and fed in reverse order. */
    method TimersReify() returns (ghost exp: seq<Watcher>, ghost mid: seq<seq<Entry>>)
      requires Queued() && Heaped() && rfeeds == []
      modifies this`pendings, this`pendingpri, this`rfeeds, this`timercnt, timers, ws`active, ws`at, ws`pending
      ensures Queued() && Heaped() && rfeeds == []
      ensures ActiveTimers() <= ws && forall w <- ActiveTimers() :: w.at >= mnNow
      ensures var at0 := old(Times(ws));
              var active0 := old(ActiveTimers());
              && active0 <= ws
              && DueInOrder(exp, at0, active0, mnNow)
              && (forall w <- active0 :: at0[w] < mnNow ==> w in exp)
              && Rescheduled(ws, exp, at0, active0, Times(ws), ActiveTimers(), mnNow)
      ensures AllMinus(mid, old(Lists()), Stopped(exp))
      ensures (forall w <- exp :: w.priority < |mid|) && Lists() == FedBack(mid, exp, {TimerEvent})
    {
      hide Queued, HeapCore, DueInOrder, Rescheduled, AllMinus;
      LengthKnown();
      ghost var at0 := Times(ws);
      ghost var active0, lists0 := ActiveTimers(), Lists();
      ReifyStart(at0);
      exp := ReifyLoop(at0, active0, lists0);
      AllDueTaken(exp, at0, active0, lists0);
      mid := Lists();
      if rfeeds != [] {
        FeedReverseDone({TimerEvent});
      }
    }

    lemma ReifyStart(at0: map<Watcher, real>)
      requires Queued() && Heaped() && rfeeds == [] && at0 == Times(ws)
      ensures Reifying([], at0, ActiveTimers(), Lists()) && timercnt + HEAP0 <= timers.Length
    {
      hide HeapCore;
      LengthKnown();
      QueuedSorted();
      hide Queued, AllMinus;
      AllMinusNone(Lists());
      assert Stopped([]) == {};
    }

    lemma LengthKnown()
      requires Heaped()
      ensures timercnt + HEAP0 <= timers.Length && ActiveTimers() <= ws
    {
    }

    /** If the first timer is not due, none is. */
    lemma NoneDue()
      requires Heaped() && (timercnt == 0 || timers[HEAP0].at >= mnNow)
      ensures ActiveTimers() <= ws && forall w <- ActiveTimers() :: w.at >= mnNow
    {
      LengthKnown();
      if timercnt > 0 {
        FirstEarliest();
      } else {
        assert ActiveTimers() == {};
      }
    }

    // ----- dispatch

    lemma QueuedTidy()
      requires Queued()
      ensures Tidy(Lists())
    {
      QueuedSorted();
      forall p | 0 <= p < NUMPRI
        ensures NoTwice(Lists()[p])
      {
        QueuedUnique(p);
        LiveNoTwice(pendings[p], pendingW);
        assert Lists()[p] == Live(pendings[p], pendingW);
      }
    }

    /** No event is pending from this priority on. */
    ghost predicate IdleFrom(p: nat)
      reads this`pendings
    {
      |pendings| == NUMPRI && forall q :: p <= q < NUMPRI ==> pendings[q] == []
    }

    ghost predicate Mine(actions: seq<Action>)
      reads this`ws
    {
      forall a <- actions :: a.w in ws
    }

    ghost predicate AllMine(script: Script)
      reads this`ws
    {
      forall actions <- script :: Mine(actions)
    }

    lemma MineInReach(script: Script)
      requires Queued() && AllMine(script)
      ensures AllInReach(script, NUMPRI) && |Lists()| == NUMPRI
    {
      forall actions <- script, a <- actions
        ensures a.w.priority < NUMPRI
      {
        assert Mine(actions);
      }
    }

    ghost function TimersNow(): Timers
      reads this`timers, this`timercnt, this`ws, this`mnNow, timers, ws`at, ws`repeat
    {
      Timers(if timercnt + HEAP0 <= timers.Length then ActiveTimers() else {}, Times(ws), Repeats(ws), mnNow)
    }

    /** What a callback does to a timer. */
    method ActOnTimer(a: Action)
      requires Queued() && Heaped() && a.w in ws && !a.Feed? && !a.Clear? && IdleFrom(pendingpri + 1)
      modifies this`pendings, this`timers, this`timercnt, timers, ws`pending, ws`active, ws`at
      ensures Queued() && Heaped() && IdleFrom(pendingpri + 1)
      ensures a.w.priority < |old(Lists())| && Lists() == After(old(Lists()), a)
      ensures timers == old(timers) || fresh(timers)
      ensures TimersNow() == TimersAfter(old(TimersNow()), a)
    {
      hide Queued, HeapCore, Lists, Fed, Without, Watchers;
      LengthKnown();
      ActiveInHeap(a.w);
      InRange(a.w);
      if a.Start? {
        TimerStart(a.w);
      } else if a.Stop? {
        TimerStop(a.w);
      } else {
        TimerAgain(a.w);
      }
      LengthKnown();
      OneTime(old(Times(ws)), Times(ws), a.w);
    }

    /** A callback does one thing. */
    method Act(a: Action)
      requires Queued() && Heaped() && a.w in ws && pendingpri < NUMPRI && IdleFrom(pendingpri + 1)
      modifies this`pendings, this`pendingpri, this`timers, this`timercnt, timers, ws`pending, ws`active, ws`at
      ensures Queued() && Heaped() && pendingpri < NUMPRI && IdleFrom(pendingpri + 1)
      ensures a.w.priority < |old(Lists())| && Lists() == After(old(Lists()), a)
      ensures timers == old(timers) || fresh(timers)
      ensures TimersNow() == TimersAfter(old(TimersNow()), a)
    {
      hide Queued, HeapCore, Lists, Fed, Without, Watchers;
      InRange(a.w);
      match a {
        case Feed(w, events) => FeedEvent(w, events);
        case Clear(w) => ClearPending(w);
        case _ => ActOnTimer(a);
      }
    }

    /** A callback. */
    method RunCallback(actions: seq<Action>)
      requires Queued() && Heaped() && Mine(actions) && pendingpri < NUMPRI && IdleFrom(pendingpri + 1)
      modifies this`pendings, this`pendingpri, this`timers, this`timercnt, timers, ws`pending, ws`active, ws`at
      ensures Queued() && Heaped() && pendingpri < NUMPRI && IdleFrom(pendingpri + 1)
      ensures InReach(actions, |old(Lists())|) && Lists() == AfterAll(old(Lists()), actions)
      ensures timers == old(timers) || fresh(timers)
      ensures TimersNow() == TimersAfterAll(old(TimersNow()), actions)
    {
      hide Queued, Heaped, IdleFrom, Lists, After, TimersNow, TimersAfter;
      forall a <- actions
        ensures a.w.priority < |Lists()|
      {
        InRange(a.w);
      }
      ghost var goal := AfterAll(Lists(), actions);
      for i := 0 to |actions|
        invariant Queued() && Heaped() && pendingpri < NUMPRI && IdleFrom(pendingpri + 1)
        invariant InReach(actions[i..], |Lists()|) && AfterAll(Lists(), actions[i..]) == goal
        invariant timers == old(timers) || fresh(timers)
        invariant TimersNow() == TimersAfterAll(old(TimersNow()), actions[..i])
      {
        assert actions[i..][1..] == actions[i + 1..] && actions[..i + 1][..i] == actions[..i];
        Act(actions[i]);
      }
      assert actions[..|actions|] == actions;
    }

    /** Take the last entry off the stack of the current priority. */
    method Pop() returns (e: Entry)
      requires Queued() && pendingpri < NUMPRI && pendings[pendingpri] != []
      modifies this`pendings, ws`pending, pendingW`pending
      ensures Queued() && (e.w != pendingW ==> e.w in ws)
      ensures e == old(pendings[pendingpri][|pendings[pendingpri]| - 1])
      ensures pendings == old(pendings[pendingpri := pendings[pendingpri][..|pendings[pendingpri]| - 1]])
    {
      var pri, stack := pendingpri, pendings[pendingpri];
      e := stack[|stack| - 1];
      pendings := pendings[pri := stack[..|stack| - 1]];
      e.w.pending := 0;
      forall p, i | 0 <= p < NUMPRI && 0 <= i < |pendings[p]|
        ensures Placed(pendings[p][i].w, p, i)
      {
        assert old(Placed(pendings[p][i].w, p, i));
      }
    }

    lemma PopLists(stacks: seq<seq<Entry>>, p: nat)
      requires p < |stacks| && stacks[p] != []
      ensures var n := |stacks[p]| - 1;
              var e, rest := stacks[p][n], AllLive(stacks[p := stacks[p][..n]], pendingW);
              AllLive(stacks, pendingW) == if e.w == pendingW then rest else rest[p := rest[p] + [e]]
    {
      var n := |stacks[p]| - 1;
      LiveAppend(stacks[p][..n], pendingW, stacks[p][n]);
      assert stacks[p][..n] + [stacks[p][n]] == stacks[p];
      AllLiveUpdate(stacks, pendingW, p, stacks[p][..n]);
      AllLiveUpdate(stacks, pendingW, p, stacks[p]);
      assert stacks[p := stacks[p]] == stacks;
    }

    /** A live entry popped while nothing of higher priority is pending is the one to be dispatched next. */
    lemma PoppedNext(lists: seq<seq<Entry>>, e: Entry, p: nat)
      requires p < |lists| && forall q :: p < q < |lists| ==> lists[q] == []
      ensures var l := lists[p := lists[p] + [e]];
              Top(l, |l|) == p && NextEntry(l) == e && Popped(l) == lists
    {
      hide Size;
      var l := lists[p := lists[p] + [e]];
      var t := Top(l, |l|);
      assert l[p] != [];
      assert l[p][..|l[p]| - 1] == lists[p];
    }

    /** What holds while ev_invoke_pending is running: goal is what it dispatches in all. */
    ghost predicate Invoking(p: nat, trace: seq<Entry>, rest: Script, goal: seq<Entry>)
      reads this`timers, this`timercnt, this`ws, this`pendings, timers, ws`active, ws`at, ws`repeat, ws`pending,
            pendingW`pending
    {
      && Queued() && Heaped() && AllMine(rest) && IdleFrom(p)
      && AllInReach(rest, |Lists()|) && trace + Dispatched(Lists(), rest) == goal
    }

    /** One round of the inner loop: take an entry, and run its callback if it is not the dummy's. */
    method InvokeOne(trace: seq<Entry>, rest: Script, ghost goal: seq<Entry>) returns (trace': seq<Entry>,
                     rest': Script)
      requires pendingpri < NUMPRI && Invoking(pendingpri + 1, trace, rest, goal) && |pendings[pendingpri]| > 0
      modifies this`pendings, this`pendingpri, this`timers, this`timercnt, timers, ws`pending, ws`active, ws`at,
               pendingW`pending
      ensures pendingpri < NUMPRI && Invoking(pendingpri + 1, trace', rest', goal)
      ensures |rest'| < |rest| || (rest' == rest && Size(pendings) < Size(old(pendings)))
      ensures timers == old(timers) || fresh(timers)
      ensures if |trace'| == |trace| then rest' == rest && TimersNow() == old(TimersNow())
              else |trace'| == |trace| + 1 && WentOn(old(TimersNow()), rest, rest', TimersNow())
    {
      hide Queued, Heaped, Size, Top, NextEntry, Popped, Dispatched, AllLive, TimersAfterAll, AfterAll, Live;
      PopLists(pendings, pendingpri);
      assert Lists() == AllLive(pendings, pendingW);
      SizeUpdate(pendings, pendingpri, pendings[pendingpri][..|pendings[pendingpri]| - 1]);
      ghost var lists := Lists();
      var e := Pop();
      if e.w == pendingW {
        trace', rest' := trace, rest;
      } else {
        trace', rest' := trace + [e], rest;
        IdleLists(pendingpri + 1);
        PoppedNext(Lists(), e, pendingpri);
        DispatchedStep(lists, rest);
        assert trace + ([e] + Dispatched(NextLists(lists, rest), Rest(rest))) == goal;
        if rest != [] {
          rest' := rest[1..];
          RunCallback(rest[0]);
        }
      }
    }

    lemma IdleLists(p: nat)
      requires IdleFrom(p)
      ensures |Lists()| == NUMPRI && forall q :: p <= q < |Lists()| ==> Lists()[q] == []
    {
    }

    /** ev_invoke_pending, with callbacks that do what script says: afterwards nothing is pending, the
        callbacks were run in the order of Dispatched, and the timers are as they have left them. */
    method InvokePending(script: Script) returns (trace: seq<Entry>)
      requires Queued() && Heaped() && AllMine(script)
      modifies this`pendings, this`pendingpri, this`timers, this`timercnt, timers, ws`pending, ws`active, ws`at,
               pendingW`pending
      ensures Queued() && Heaped() && pendings == [[], [], [], [], []]
      ensures AllInReach(script, |old(Lists())|) && trace == Dispatched(old(Lists()), script)
      ensures timers == old(timers) || fresh(timers)
      ensures TimersNow()
           == TimersAfterScript(old(TimersNow()), if |trace| < |script| then script[..|trace|] else script)
    {
      hide Queued, Heaped, Dispatched, Size, TimersNow, TimersAfterAll, WentOn, RanSo;
      MineInReach(script);
      QueuedLength();
      ghost var goal := Dispatched(Lists(), script);
      pendingpri := NUMPRI;
      trace := [];
      var rest := script;
      NoneRan(TimersNow(), script);
      while pendingpri > 0  // the callbacks may set it
        invariant pendingpri <= NUMPRI && Invoking(pendingpri, trace, rest, goal)
        invariant timers == old(timers) || fresh(timers)
        invariant RanSo(old(TimersNow()), script, |trace|, rest, TimersNow())
        decreases |rest|, Size(pendings), pendingpri
      {
        pendingpri := pendingpri - 1;
        ghost var r, n, p := |rest|, Size(pendings), pendingpri;
        while |pendings[pendingpri]| > 0
          invariant pendingpri < NUMPRI && Invoking(pendingpri + 1, trace, rest, goal)
          invariant timers == old(timers) || fresh(timers)
          invariant RanSo(old(TimersNow()), script, |trace|, rest, TimersNow())
          invariant |rest| < r || (|rest| == r && (Size(pendings) < n || (Size(pendings) == n && pendingpri == p)))
          decreases |rest|, Size(pendings)
        {
          ghost var k, was, before := |trace|, rest, TimersNow();
          trace, rest := InvokeOne(trace, rest, goal);
          if |trace| > k {
            RanOn(old(TimersNow()), script, k, was, before, rest, TimersNow());
          }
        }
      }
      NoneDispatched(Lists(), rest);
      RanAll(old(TimersNow()), script, |trace|, rest, TimersNow());
    }

    lemma QueuedLength()
      requires Queued()
      ensures |pendings| == NUMPRI
    {
    }

    lemma NoneDispatched(lists: seq<seq<Entry>>, script: Script)
      requires AllInReach(script, |lists|) && forall p :: 0 <= p < |lists| ==> lists[p] == []
      ensures Dispatched(lists, script) == []
    {
    }

    /** An active timer that is due. */
    ghost predicate GoesOff(w: Watcher)
      reads this`timers, this`timercnt, this`mnNow, timers, w`at
    {
      timercnt + HEAP0 <= timers.Length && w in ActiveTimers() && w.at < mnNow
    }

    /** What an iteration of ev_run does with the timers that are due: timers_reify, then
        ev_invoke_pending.  Every timer that is due and that no callback stops is dispatched, with the
        timer event; of two of one priority that were not pending already, the one due earlier is
        dispatched first. */
    method ExpireAndInvoke(script: Script)
      returns (trace: seq<Entry>, ghost exp: seq<Watcher>, ghost mid: seq<seq<Entry>>)
      requires Queued() && Heaped() && rfeeds == [] && AllMine(script)
      modifies this`pendings, this`pendingpri, this`rfeeds, this`timers, this`timercnt, timers, ws`active, ws`at,
               ws`pending,
               pendingW`pending
      ensures Queued() && Heaped() && rfeeds == [] && pendings == [[], [], [], [], []]
      ensures (forall x :: x in exp <==> x in ws && old(GoesOff(x))) && AllMinus(mid, old(Lists()), Stopped(exp))
      ensures (forall w <- exp :: w.priority < |mid|) && AllInReach(script, |mid|)
      ensures trace == Dispatched(FedBack(mid, exp, {TimerEvent}), script)
      ensures forall x <- ws :: old(GoesOff(x)) && NeverRemovedBy(script, x) ==> Delivered(trace, x, {TimerEvent})
      ensures forall x <- ws, y <- ws ::
                (&& old(GoesOff(x) && x.pending == 0) && old(GoesOff(y) && y.pending == 0)
                 && x.priority == y.priority && old(x.at) < old(y.at)
                 && NeverRemovedBy(script, x) && NeverRemovedBy(script, y)) ==>
                InTurn(trace, x, y)
    {
      hide Queued, HeapCore, Heaped, DueInOrder, Rescheduled, AllMinus, FedBack, Dispatched, Tidy, NeverRemovedBy,
           InTurn, Delivered;
      LengthKnown();
      ghost var at0: map<Watcher, real> := Times(ws);
      ghost var active0, lists0 := ActiveTimers(), Lists();
      ghost var free := set w | w in ws && w.pending == 0;
      NotPending(free);
      exp, mid := TimersReify();
      DueAre(exp, at0, active0, mnNow);
      QueuedTidy();
      MineInReach(script);
      trace := InvokePending(script);
      AllDelivered(mid, exp, script);
      AllInOrder(lists0, mid, Stopped(exp), exp, at0, active0, mnNow, script, free);
    }

    lemma NotPending(free: set<Watcher>)
      requires Queued() && forall w <- free :: w in ws && w.pending == 0
      ensures forall w <- free :: w.priority < |Lists()| && !Pending(Lists(), w)
    {
      hide Queued;
      forall w <- free
        ensures w.priority < |Lists()| && !Pending(Lists(), w)
      {
        InRange(w);
        PendingHas(w);
      }
    }
  }

  /** x is dispatched, the first time with all these events. */
  ghost predicate Delivered(d: seq<Entry>, x: Watcher, events: Revents) {
    exists k: nat :: FirstAt(d, x, k) && events <= d[k].events
  }

  lemma {:induction false} FedBackKeepsOwed(lists: seq<seq<Entry>>, ws: seq<Watcher>, events: Revents, w: Watcher,
                                            owed: Revents)
    requires w.priority < |lists| && (forall v <- ws :: v.priority < |lists|) && Owed(lists, w, owed)
    ensures Owed(FedBack(lists, ws, events), w, owed)
    decreases |ws|
  {
    hide Owed, Fed;
    if ws != [] {
      var n := |ws| - 1;
      OwedAfter(lists, Feed(ws[n], events), w, owed);
      FedBackKeepsOwed(After(lists, Feed(ws[n], events)), ws[..n], events, w, owed);
    }
  }

  lemma FedOwed(list: seq<Entry>, w: Watcher, events: Revents)
    ensures var l := Fed(list, w, events); exists i :: 0 <= i < |l| && l[i].w == w && events <= l[i].events
  {
    var l := Fed(list, w, events);
    if Has(list, w) {
      var i :| 0 <= i < |list| && list[i].w == w;
      assert l[i].w == w;
    } else {
      assert l[|list|].w == w;
    }
  }

  /** What is fed back is owed. */
  lemma {:induction false} FedBackOwed(lists: seq<seq<Entry>>, ws: seq<Watcher>, events: Revents, w: Watcher)
    requires w in ws && forall v <- ws :: v.priority < |lists|
    ensures Owed(FedBack(lists, ws, events), w, events)
    decreases |ws|
  {
    var n := |ws| - 1;
    var next := lists[ws[n].priority := Fed(lists[ws[n].priority], ws[n], events)];
    if w == ws[n] {
      FedOwed(lists[w.priority], w, events);
      var l := next[w.priority];
      var i :| 0 <= i < |l| && l[i].w == w && events <= l[i].events;
      FedBackKeepsOwed(next, ws[..n], events, w, events);
    } else {
      FedBackOwed(next, ws[..n], events, w);
    }
  }

  lemma ExpiredDelivered(mid: seq<seq<Entry>>, exp: seq<Watcher>, script: Script, x: Watcher)
    requires (forall w <- exp :: w.priority < |mid|) && x in exp && NeverRemovedBy(script, x)
    requires var lists := FedBack(mid, exp, {TimerEvent}); Tidy(lists) && AllInReach(script, |lists|)
    ensures Delivered(Dispatched(FedBack(mid, exp, {TimerEvent}), script), x, {TimerEvent})
  {
    hide Dispatched, Tidy, FedBack, Owed;
    FedBackOwed(mid, exp, {TimerEvent}, x);
    var k := NotLost(FedBack(mid, exp, {TimerEvent}), script, x, {TimerEvent});
  }

  lemma AllDelivered(mid: seq<seq<Entry>>, exp: seq<Watcher>, script: Script)
    requires forall w <- exp :: w.priority < |mid|
    requires var lists := FedBack(mid, exp, {TimerEvent}); Tidy(lists) && AllInReach(script, |lists|)
    ensures forall x <- exp :: NeverRemovedBy(script, x) ==>
              Delivered(Dispatched(FedBack(mid, exp, {TimerEvent}), script), x, {TimerEvent})
  {
    hide *;
    forall x <- exp | NeverRemovedBy(script, x)
      ensures Delivered(Dispatched(FedBack(mid, exp, {TimerEvent}), script), x, {TimerEvent})
    {
      ExpiredDelivered(mid, exp, script, x);
    }
  }

  /** x is dispatched, and before y. */
  ghost predicate InTurn(d: seq<Entry>, x: Watcher, y: Watcher) {
    exists k: nat :: FirstAt(d, x, k) && forall j :: 0 <= j <= k ==> d[j].w != y
  }

  /** After timers_reify, for lists fed back from what it took: of two timers of one priority that went off and
      were not pending before, the one that was due earlier is dispatched first. */
  lemma ExpiredInOrder(lists0: seq<seq<Entry>>, mid: seq<seq<Entry>>, gone: set<Watcher>, exp: seq<Watcher>,
                       at0: map<Watcher, real>, active0: set<Watcher>, now: real, script: Script,
                       x: Watcher, y: Watcher)
    requires active0 <= at0.Keys && DueInOrder(exp, at0, active0, now)
    requires AllMinus(mid, lists0, gone) && forall w <- exp :: w.priority < |mid|
    requires x in exp && y in exp && x.priority == y.priority && at0[x] < at0[y]
    requires !Pending(lists0, x) && !Pending(lists0, y)
    requires NeverRemovedBy(script, x) && NeverRemovedBy(script, y)
    requires var lists := FedBack(mid, exp, {TimerEvent}); Tidy(lists) && AllInReach(script, |lists|)
    ensures InTurn(Dispatched(FedBack(mid, exp, {TimerEvent}), script), x, y)
  {
    hide Dispatched, Tidy, FedBack, Behind, Minus;
    var i :| 0 <= i < |exp| && exp[i] == x;
    var j :| 0 <= j < |exp| && exp[j] == y;
    MinusHas(lists0[x.priority], gone, x);
    MinusHas(lists0[x.priority], gone, y);
    FedBackOrder(mid, exp, {TimerEvent}, i, j);
    var k := BehindFirst(FedBack(mid, exp, {TimerEvent}), script, x, y);
  }

  lemma AllInOrder(lists0: seq<seq<Entry>>, mid: seq<seq<Entry>>, gone: set<Watcher>, exp: seq<Watcher>,
                   at0: map<Watcher, real>, active0: set<Watcher>, now: real, script: Script, free: set<Watcher>)
    requires active0 <= at0.Keys && DueInOrder(exp, at0, active0, now) && forall w <- exp :: w in active0
    requires AllMinus(mid, lists0, gone) && forall w <- exp :: w.priority < |mid|
    requires forall w <- free :: w.priority < |lists0| && !Pending(lists0, w)
    requires var lists := FedBack(mid, exp, {TimerEvent}); Tidy(lists) && AllInReach(script, |lists|)
    ensures forall x <- exp, y <- exp ::
              (&& x in free && y in free && x.priority == y.priority && at0[x] < at0[y]
               && NeverRemovedBy(script, x) && NeverRemovedBy(script, y)) ==>
              InTurn(Dispatched(FedBack(mid, exp, {TimerEvent}), script), x, y)
  {
    hide *;
    forall x <- exp, y <- exp
      | x in free && y in free && x.priority == y.priority && at0[x] < at0[y]
        && NeverRemovedBy(script, x) && NeverRemovedBy(script, y)
      ensures InTurn(Dispatched(FedBack(mid, exp, {TimerEvent}), script), x, y)
    {
      ExpiredInOrder(lists0, mid, gone, exp, at0, active0, now, script, x, y);
    }
  }
}
