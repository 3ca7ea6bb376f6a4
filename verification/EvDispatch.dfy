/** The dispatch of pending events, on lists of watchers by priority: what a run of the callbacks
    delivers, and in which order. */
module EvDispatch {
  import opened EvHeap
  import opened EvPending

  /** What a callback may do to a watcher. */
  datatype Action =
    | Feed(w: Watcher, events: Revents) | Clear(w: Watcher)
    | Start(w: Watcher) | Stop(w: Watcher) | Again(w: Watcher)

  /** The callbacks' actions: what the first, the second, ... callback does; later ones do nothing. */
  type Script = seq<seq<Action>>

  ghost function After(lists: seq<seq<Entry>>, a: Action): (l: seq<seq<Entry>>)
    requires a.w.priority < |lists|
    ensures |l| == |lists|
  {
    var p := a.w.priority;
    match a
    case Feed(w, events) => lists[p := Fed(lists[p], w, events)]
    case Start(_) => lists
    case Clear(w) => lists[p := Without(lists[p], w)]
    case Stop(w) => lists[p := Without(lists[p], w)]
    case Again(w) => lists[p := Without(lists[p], w)]
  }

  ghost predicate InReach(actions: seq<Action>, n: nat) { forall a <- actions :: a.w.priority < n }

  ghost predicate AllInReach(script: Script, n: nat) { forall actions <- script :: InReach(actions, n) }

  ghost function AfterAll(lists: seq<seq<Entry>>, actions: seq<Action>): (l: seq<seq<Entry>>)
    requires InReach(actions, |lists|)
    ensures |l| == |lists|
    decreases |actions|
  {
    if actions == [] then lists
    else AfterAll(After(lists, actions[0]), actions[1..])
  }

  /** The highest priority below p that has events pending, or -1. */
  ghost function Top(lists: seq<seq<Entry>>, p: nat): (t: int)
    requires p <= |lists|
    ensures -1 <= t < p && (t >= 0 ==> lists[t] != []) && forall q :: t < q < p ==> lists[q] == []
  {
    if p == 0 then -1 else if lists[p - 1] != [] then p - 1 else Top(lists, p - 1)
  }

  ghost function Size(lists: seq<seq<Entry>>): nat {
    if lists == [] then 0 else Size(lists[..|lists| - 1]) + |lists[|lists| - 1]|
  }

  lemma {:induction false} SizeUpdate(lists: seq<seq<Entry>>, p: nat, list: seq<Entry>)
    requires p < |lists|
    ensures Size(lists[p := list]) == Size(lists) - |lists[p]| + |list|
    decreases |lists|
  {
    var n := |lists| - 1;
    if p == n {
      assert lists[p := list][..n] == lists[..n];
    } else {
      assert lists[p := list][..n] == lists[..n][p := list];
      SizeUpdate(lists[..n], p, list);
    }
  }

  ghost function Popped(lists: seq<seq<Entry>>): (l: seq<seq<Entry>>)
    requires Top(lists, |lists|) >= 0
    ensures |l| == |lists| && Size(l) < Size(lists)
  {
    var p := Top(lists, |lists|);
    var list := lists[p][..|lists[p]| - 1];
    SizeUpdate(lists, p, list);
    lists[p := list]
  }

  /** The entry dispatched next. */
  ghost function NextEntry(lists: seq<seq<Entry>>): Entry
    requires Top(lists, |lists|) >= 0
  {
    var p := Top(lists, |lists|);
    lists[p][|lists[p]| - 1]
  }

  /** The lists after the next entry is dispatched and its callback has run. */
  ghost function NextLists(lists: seq<seq<Entry>>, script: Script): (l: seq<seq<Entry>>)
    requires Top(lists, |lists|) >= 0 && AllInReach(script, |lists|)
    ensures |l| == |lists| && (script == [] ==> Size(l) < Size(lists))
  {
    if script == [] then Popped(lists) else AfterAll(Popped(lists), script[0])
  }

  ghost function Rest(script: Script): (r: Script)
    ensures forall n :: AllInReach(script, n) ==> AllInReach(r, n)
  {
    if script == [] then [] else script[1..]
  }

  /** The entries dispatched until nothing is pending any more. */
  ghost function Dispatched(lists: seq<seq<Entry>>, script: Script): seq<Entry>
    requires AllInReach(script, |lists|)
    decreases |script|, Size(lists)
  {
    if Top(lists, |lists|) < 0 then []
    else [NextEntry(lists)] + Dispatched(NextLists(lists, script), Rest(script))
  }

  lemma DispatchedStep(lists: seq<seq<Entry>>, script: Script)
    requires AllInReach(script, |lists|) && Top(lists, |lists|) >= 0
    ensures Dispatched(lists, script) == [NextEntry(lists)] + Dispatched(NextLists(lists, script), Rest(script))
  {
  }

  /** The lists just before the k-th dispatch. */
  ghost function Before(lists: seq<seq<Entry>>, script: Script, k: nat): (l: seq<seq<Entry>>)
    requires AllInReach(script, |lists|) && k < |Dispatched(lists, script)|
    ensures |l| == |lists|
    decreases k
  {
    if k == 0 then lists else Before(NextLists(lists, script), Rest(script), k - 1)
  }

  // ----- the lists stay in order

  ghost predicate NoTwice(list: seq<Entry>) {
    forall i, j :: 0 <= i < j < |list| ==> list[i].w != list[j].w
  }

  /** Every watcher is on the list of its priority only, and there once. */
  ghost predicate Tidy(lists: seq<seq<Entry>>) {
    Sorted(lists) && forall p :: 0 <= p < |lists| ==> NoTwice(lists[p])
  }

  lemma {:induction false} WithoutIn(list: seq<Entry>, w: Watcher, e: Entry)
    ensures e in Without(list, w) <==> e in list && e.w != w
    decreases |list|
  {
    if list != [] {
      var n := |list| - 1;
      assert list == list[..n] + [list[n]];
      WithoutIn(list[..n], w, e);
    }
  }

  lemma {:induction false} WithoutNoTwice(list: seq<Entry>, w: Watcher)
    requires NoTwice(list)
    ensures NoTwice(Without(list, w))
    decreases |list|
  {
    if list != [] {
      var n := |list| - 1;
      WithoutNoTwice(list[..n], w);
      var l := Without(list[..n], w);
      forall i | 0 <= i < |l|
        ensures l[i].w != list[n].w
      {
        WithoutIn(list[..n], w, l[i]);
        var k :| 0 <= k < n && list[k] == l[i];
      }
    }
  }

  lemma TidyAfter(lists: seq<seq<Entry>>, a: Action)
    requires Tidy(lists) && a.w.priority < |lists|
    ensures Tidy(After(lists, a))
  {
    var p, w := a.w.priority, a.w;
    if a.Feed? {
      if !Has(lists[p], w) {
        assert NoTwice(lists[p] + [Entry(w, a.events)]);
      }
    } else {
      WithoutNoTwice(lists[p], w);
      var l := Without(lists[p], w);
      forall i | 0 <= i < |l|
        ensures l[i].w.priority == p
      {
        WithoutIn(lists[p], w, l[i]);
      }
    }
  }

  lemma {:induction false} TidyAfterAll(lists: seq<seq<Entry>>, actions: seq<Action>)
    requires Tidy(lists) && InReach(actions, |lists|)
    ensures Tidy(AfterAll(lists, actions))
    decreases |actions|
  {
    if actions != [] {
      hide Tidy, After;
      TidyAfter(lists, actions[0]);
      TidyAfterAll(After(lists, actions[0]), actions[1..]);
    }
  }

  lemma TidyNext(lists: seq<seq<Entry>>, script: Script)
    requires Tidy(lists) && AllInReach(script, |lists|) && Top(lists, |lists|) >= 0
    ensures Tidy(NextLists(lists, script))
  {
    assert Tidy(Popped(lists));
    if script != [] {
      TidyAfterAll(Popped(lists), script[0]);
    }
  }

  // ----- what is dispatched

  /** e is the last entry of its list, and no watcher with a higher priority is pending. */
  ghost predicate FromTop(lists: seq<seq<Entry>>, e: Entry) {
    && e.w.priority < |lists|
    && (var list := lists[e.w.priority]; list != [] && list[|list| - 1] == e)
    && forall p, i :: 0 <= p < |lists| && 0 <= i < |lists[p]| ==> lists[p][i].w.priority <= e.w.priority
  }

  lemma NextFromTop(lists: seq<seq<Entry>>)
    requires Tidy(lists) && Top(lists, |lists|) >= 0
    ensures FromTop(lists, NextEntry(lists))
  {
    assert NextEntry(lists).w.priority == Top(lists, |lists|);
  }

  /** The k-th dispatch takes the last entry of the highest priority that has any, so that no pending
      watcher has a higher priority, and the lists are tidy all along. */
  lemma {:induction false} HighestFirst(lists: seq<seq<Entry>>, script: Script, k: nat)
    requires Tidy(lists) && AllInReach(script, |lists|) && k < |Dispatched(lists, script)|
    ensures Tidy(Before(lists, script, k)) && FromTop(Before(lists, script, k), Dispatched(lists, script)[k])
    decreases k
  {
    hide Tidy, FromTop, Top, NextEntry, NextLists, Popped, InReach;
    if k == 0 {
      NextFromTop(lists);
    } else {
      TidyNext(lists, script);
      HighestFirst(NextLists(lists, script), Rest(script), k - 1);
    }
  }

  predicate Removes(a: Action, w: Watcher) { a.w == w && (a.Clear? || a.Stop? || a.Again?) }

  predicate Feeds(a: Action, w: Watcher) { a.w == w && a.Feed? }

  ghost predicate NeverFed(actions: seq<Action>, w: Watcher) { forall a <- actions :: !Feeds(a, w) }

  ghost predicate NeverRemoved(actions: seq<Action>, w: Watcher) { forall a <- actions :: !Removes(a, w) }

  ghost predicate NeverFedBy(script: Script, w: Watcher) { forall actions <- script :: NeverFed(actions, w) }

  ghost predicate NeverRemovedBy(script: Script, w: Watcher) { forall actions <- script :: NeverRemoved(actions, w) }

  ghost predicate Pending(lists: seq<seq<Entry>>, w: Watcher)
    requires w.priority < |lists|
  {
    Has(lists[w.priority], w)
  }

  lemma AbsentAfter(lists: seq<seq<Entry>>, a: Action, w: Watcher)
    requires w.priority < |lists| && a.w.priority < |lists| && !Feeds(a, w) && (!Pending(lists, w) || Removes(a, w))
    ensures !Pending(After(lists, a), w)
  {
    var p := w.priority;
    if a.w.priority == p {
      if a.Feed? {
        assert a.w != w;
      } else if !a.Start? {
        var l := Without(lists[p], a.w);
        forall i | 0 <= i < |l|
          ensures l[i].w != w
        {
          WithoutIn(lists[p], a.w, l[i]);
        }
      }
    }
  }

  lemma {:induction false} AbsentAfterAll(lists: seq<seq<Entry>>, actions: seq<Action>, w: Watcher)
    requires w.priority < |lists| && InReach(actions, |lists|) && NeverFed(actions, w) && !Pending(lists, w)
    ensures !Pending(AfterAll(lists, actions), w)
    decreases |actions|
  {
    if actions != [] {
      hide Pending, After;
      AbsentAfter(lists, actions[0], w);
      AbsentAfterAll(After(lists, actions[0]), actions[1..], w);
    }
  }

  lemma AbsentNext(lists: seq<seq<Entry>>, script: Script, w: Watcher)
    requires w.priority < |lists| && AllInReach(script, |lists|) && Top(lists, |lists|) >= 0
    requires NeverFedBy(script, w) && (!Pending(lists, w) || !Pending(Popped(lists), w))
    ensures !Pending(NextLists(lists, script), w)
  {
    assert !Pending(Popped(lists), w);
    if script != [] {
      AbsentAfterAll(Popped(lists), script[0], w);
    }
  }

  /** A watcher that is not pending is not dispatched unless it is fed. */
  lemma {:induction false} AbsentNotDispatched(lists: seq<seq<Entry>>, script: Script, w: Watcher)
    requires Tidy(lists) && w.priority < |lists| && AllInReach(script, |lists|)
    requires NeverFedBy(script, w) && !Pending(lists, w)
    ensures forall e <- Dispatched(lists, script) :: e.w != w
    decreases |script|, Size(lists)
  {
    if Top(lists, |lists|) >= 0 {
      assert NextEntry(lists).w != w by {
        var p := Top(lists, |lists|);
        assert lists[p][|lists[p]| - 1].w.priority == p;
      }
      hide Tidy, Pending;
      TidyNext(lists, script);
      AbsentNext(lists, script, w);
      AbsentNotDispatched(NextLists(lists, script), Rest(script), w);
    }
  }

  lemma {:induction false} RemovedAfterAll(lists: seq<seq<Entry>>, actions: seq<Action>, m: nat, w: Watcher)
    requires w.priority < |lists| && InReach(actions, |lists|)
    requires m < |actions| && Removes(actions[m], w) && NeverFed(actions[m + 1..], w)
    ensures !Pending(AfterAll(lists, actions), w)
    decreases m
  {
    hide Pending, After;
    var next := After(lists, actions[0]);
    if m == 0 {
      AbsentAfter(lists, actions[0], w);
      AbsentAfterAll(next, actions[1..], w);
    } else {
      assert actions[1..][m..] == actions[m + 1..];
      RemovedAfterAll(next, actions[1..], m - 1, w);
    }
  }

  /** A watcher that the k-th callback stops is not dispatched after that, unless it is fed again. */
  lemma {:induction false} StoppedStaysOut(lists: seq<seq<Entry>>, script: Script, k: nat, m: nat, w: Watcher)
    requires Tidy(lists) && w.priority < |lists| && AllInReach(script, |lists|)
    requires k < |Dispatched(lists, script)| && k < |script| && m < |script[k]| && Removes(script[k][m], w)
    requires NeverFed(script[k][m + 1..], w) && NeverFedBy(script[k + 1..], w)
    ensures forall j :: k < j < |Dispatched(lists, script)| ==> Dispatched(lists, script)[j].w != w
    decreases k
  {
    TidyNext(lists, script);
    var next := NextLists(lists, script);
    var d := Dispatched(next, script[1..]);
    assert Dispatched(lists, script) == [NextEntry(lists)] + d;
    hide Tidy, Pending, Dispatched;
    if k == 0 {
      RemovedAfterAll(Popped(lists), script[0], m, w);
      AbsentNotDispatched(next, script[1..], w);
    } else {
      assert script[1..][k..] == script[k + 1..];
      StoppedStaysOut(next, script[1..], k - 1, m, w);
    }
    NoneBehind(NextEntry(lists), d, k, w);
  }

  lemma NoneBehind(e: Entry, d: seq<Entry>, k: nat, w: Watcher)
    requires forall j :: k <= j < |d| ==> d[j].w != w
    ensures forall j :: k < j < |[e] + d| ==> ([e] + d)[j].w != w
  {
    forall j | k < j < |[e] + d|
      ensures ([e] + d)[j].w != w
    {
      assert ([e] + d)[j] == d[j - 1];
    }
  }

  // ----- no event is lost or invented

  /** w is pending, and is owed at least the events. */
  ghost predicate Owed(lists: seq<seq<Entry>>, w: Watcher, events: Revents)
    requires w.priority < |lists|
  {
    exists i :: 0 <= i < |lists[w.priority]| && lists[w.priority][i].w == w && events <= lists[w.priority][i].events
  }

  lemma OwedAfter(lists: seq<seq<Entry>>, a: Action, w: Watcher, events: Revents)
    requires w.priority < |lists| && a.w.priority < |lists| && !Removes(a, w) && Owed(lists, w, events)
    ensures Owed(After(lists, a), w, events)
  {
    var p := w.priority;
    var i :| 0 <= i < |lists[p]| && lists[p][i].w == w && events <= lists[p][i].events;
    var l := After(lists, a)[p];
    if a.w.priority == p && a.Feed? {
      assert l[i].w == w && events <= l[i].events;
    } else if a.w.priority == p && !a.Start? {
      WithoutIn(lists[p], a.w, lists[p][i]);
      var j :| 0 <= j < |l| && l[j] == lists[p][i];
    } else {
      assert l == lists[p];
    }
  }

  lemma {:induction false} OwedAfterAll(lists: seq<seq<Entry>>, actions: seq<Action>, w: Watcher, events: Revents)
    requires w.priority < |lists| && InReach(actions, |lists|) && NeverRemoved(actions, w) && Owed(lists, w, events)
    ensures Owed(AfterAll(lists, actions), w, events)
    decreases |actions|
  {
    if actions != [] {
      hide Owed, After;
      OwedAfter(lists, actions[0], w, events);
      OwedAfterAll(After(lists, actions[0]), actions[1..], w, events);
    }
  }

  lemma OwedNext(lists: seq<seq<Entry>>, script: Script, w: Watcher, events: Revents)
    requires Tidy(lists) && w.priority < |lists| && AllInReach(script, |lists|)
    requires NeverRemovedBy(script, w) && Owed(lists, w, events)
    ensures Top(lists, |lists|) >= 0
    ensures if NextEntry(lists).w == w then events <= NextEntry(lists).events
            else Owed(NextLists(lists, script), w, events)
  {
    var p, top := w.priority, Top(lists, |lists|);
    var i :| 0 <= i < |lists[p]| && lists[p][i].w == w && events <= lists[p][i].events;
    if NextEntry(lists).w == w {
      assert p == top;
      assert i == |lists[p]| - 1;
    } else {
      assert Popped(lists)[p][i] == lists[p][i];
      if script != [] {
        OwedAfterAll(Popped(lists), script[0], w, events);
      }
    }
  }

  /** The first dispatch of w is at k. */
  ghost predicate FirstAt(d: seq<Entry>, w: Watcher, k: nat) {
    k < |d| && d[k].w == w && forall j :: 0 <= j < k ==> d[j].w != w
  }

  lemma FirstLater(e: Entry, d: seq<Entry>, w: Watcher, k: nat)
    requires e.w != w && FirstAt(d, w, k)
    ensures FirstAt([e] + d, w, k + 1)
  {
  }

  /** What a watcher is owed is delivered by its first dispatch, unless the watcher is stopped before. */
  lemma {:induction false} NotLost(lists: seq<seq<Entry>>, script: Script, w: Watcher, events: Revents) returns (k: nat)
    requires Tidy(lists) && w.priority < |lists| && AllInReach(script, |lists|)
    requires NeverRemovedBy(script, w) && Owed(lists, w, events)
    ensures FirstAt(Dispatched(lists, script), w, k) && events <= Dispatched(lists, script)[k].events
    decreases |script|, Size(lists)
  {
    hide Tidy, Owed, Top, NextEntry, NextLists, Popped, InReach, Size;
    OwedNext(lists, script, w, events);
    if NextEntry(lists).w == w {
      k := 0;
    } else {
      TidyNext(lists, script);
      k := NotLost(NextLists(lists, script), Rest(script), w, events);
      FirstLater(NextEntry(lists), Dispatched(NextLists(lists, script), Rest(script)), w, k);
      k := k + 1;
    }
  }

  /** A delivered event was pending at first, or was fed by a callback before. */
  ghost predicate Fed0(lists: seq<seq<Entry>>, w: Watcher, x: Event) {
    exists p, i :: 0 <= p < |lists| && 0 <= i < |lists[p]| && lists[p][i].w == w && x in lists[p][i].events
  }

  predicate FeedsEvent(a: Action, w: Watcher, x: Event) { Feeds(a, w) && x in a.events }

  lemma FreshAfter(lists: seq<seq<Entry>>, a: Action, w: Watcher, x: Event)
    requires a.w.priority < |lists| && !Fed0(lists, w, x) && !FeedsEvent(a, w, x)
    ensures !Fed0(After(lists, a), w, x)
  {
    var q := a.w.priority;
    forall p, i | 0 <= p < |lists| && 0 <= i < |After(lists, a)[p]| && After(lists, a)[p][i].w == w
      ensures x !in After(lists, a)[p][i].events
    {
      var e := After(lists, a)[p][i];
      if p == q && !a.Feed? && !a.Start? {
        WithoutIn(lists[p], a.w, e);
        var j :| 0 <= j < |lists[p]| && lists[p][j] == e;
      }
    }
  }

  lemma {:induction false} FreshAfterAll(lists: seq<seq<Entry>>, actions: seq<Action>, w: Watcher, x: Event)
    requires InReach(actions, |lists|) && !Fed0(lists, w, x) && forall a <- actions :: !FeedsEvent(a, w, x)
    ensures !Fed0(AfterAll(lists, actions), w, x)
    decreases |actions|
  {
    if actions != [] {
      hide Fed0, After;
      FreshAfter(lists, actions[0], w, x);
      FreshAfterAll(After(lists, actions[0]), actions[1..], w, x);
    }
  }

  /** No event is delivered that was not pending at first and was not fed by an earlier callback. */
  lemma {:induction false} NotInvented(lists: seq<seq<Entry>>, script: Script, k: nat, x: Event)
    requires AllInReach(script, |lists|) && k < |Dispatched(lists, script)| && x in Dispatched(lists, script)[k].events
    ensures var w := Dispatched(lists, script)[k].w;
            || Fed0(lists, w, x)
            || exists j, i :: 0 <= j < k && j < |script| && 0 <= i < |script[j]| && FeedsEvent(script[j][i], w, x)
    decreases k
  {
    hide Fed0, Top, NextEntry, NextLists, Popped, InReach, FeedsEvent;
    var w := Dispatched(lists, script)[k].w;
    if k > 0 {
      var next, rest := NextLists(lists, script), Rest(script);
      assert Dispatched(lists, script)[k] == Dispatched(next, rest)[k - 1];
      NotInvented(next, rest, k - 1, x);
      if !Fed0(next, w, x) {
        var j, i :| 0 <= j < k - 1 && j < |rest| && 0 <= i < |rest[j]| && FeedsEvent(rest[j][i], w, x);
        assert FeedsEvent(script[j + 1][i], w, x);
      } else {
        FreshNext(lists, script, w, x);
      }
    } else {
      FreshTop(lists, x);
    }
  }

  lemma FreshTop(lists: seq<seq<Entry>>, x: Event)
    requires Top(lists, |lists|) >= 0 && x in NextEntry(lists).events
    ensures Fed0(lists, NextEntry(lists).w, x)
  {
    var p := Top(lists, |lists|);
    assert lists[p][|lists[p]| - 1].w == NextEntry(lists).w;
  }

  lemma FreshPopped(lists: seq<seq<Entry>>, w: Watcher, x: Event)
    requires Top(lists, |lists|) >= 0 && Fed0(Popped(lists), w, x)
    ensures Fed0(lists, w, x)
  {
    hide Size;
    var l: seq<seq<Entry>> := Popped(lists);
    var p: nat, i: nat :| 0 <= p < |l| && 0 <= i < |l[p]| && l[p][i].w == w && x in l[p][i].events;
    assert lists[p][i] == l[p][i];
  }

  lemma FreshNext(lists: seq<seq<Entry>>, script: Script, w: Watcher, x: Event)
    requires Top(lists, |lists|) >= 0 && AllInReach(script, |lists|) && Fed0(NextLists(lists, script), w, x)
    ensures Fed0(lists, w, x) || (script != [] && exists i :: 0 <= i < |script[0]| && FeedsEvent(script[0][i], w, x))
  {
    hide Fed0, FeedsEvent, Top, Popped, Size;
    if Fed0(Popped(lists), w, x) {
      FreshPopped(lists, w, x);
    } else if forall a <- script[0] :: !FeedsEvent(a, w, x) {
      FreshAfterAll(Popped(lists), script[0], w, x);
    } else {
      var a :| a in script[0] && FeedsEvent(a, w, x);
      var i :| 0 <= i < |script[0]| && script[0][i] == a;
    }
  }

  // ----- order

  lemma BehindAfter(lists: seq<seq<Entry>>, a: Action, x: Watcher, y: Watcher)
    requires x.priority < |lists| && a.w.priority < |lists| && !Removes(a, x) && !Removes(a, y)
    requires Behind(lists[x.priority], x, y)
    ensures Behind(After(lists, a)[x.priority], x, y)
  {
    var p := x.priority;
    if a.w.priority == p && a.Feed? {
      FedKeepsOrder(lists[p], a.w, a.events);
      var i, j :| 0 <= i < j < |lists[p]| && lists[p][i].w == y && lists[p][j].w == x;
      assert After(lists, a)[p][i].w == y && After(lists, a)[p][j].w == x;
    } else if a.w.priority == p && !a.Start? {
      WithoutBehind(lists[p], a.w, x, y);
    }
  }

  lemma {:induction false} WithoutBehind(list: seq<Entry>, w: Watcher, x: Watcher, y: Watcher)
    requires Behind(list, x, y) && w != x && w != y
    ensures Behind(Without(list, w), x, y)
    decreases |list|
  {
    var n := |list| - 1;
    var l := Without(list[..n], w);
    var i, j :| 0 <= i < j < |list| && list[i].w == y && list[j].w == x;
    if j < n {
      assert list[..n][i].w == y && list[..n][j].w == x;
      WithoutBehind(list[..n], w, x, y);
      var a, b :| 0 <= a < b < |l| && l[a].w == y && l[b].w == x;
      assert Without(list, w)[a].w == y && Without(list, w)[b].w == x;
    } else {
      WithoutIn(list[..n], w, list[i]);
      assert list[..n][i] == list[i];
      var a :| 0 <= a < |l| && l[a] == list[i];
      assert Without(list, w)[a].w == y && Without(list, w)[|l|].w == x;
    }
  }

  lemma {:induction false} BehindAfterAll(lists: seq<seq<Entry>>, actions: seq<Action>, x: Watcher, y: Watcher)
    requires x.priority < |lists| && InReach(actions, |lists|) && NeverRemoved(actions, x) && NeverRemoved(actions, y)
    requires Behind(lists[x.priority], x, y)
    ensures Behind(AfterAll(lists, actions)[x.priority], x, y)
    decreases |actions|
  {
    if actions != [] {
      hide Behind, After;
      BehindAfter(lists, actions[0], x, y);
      BehindAfterAll(After(lists, actions[0]), actions[1..], x, y);
    }
  }

  lemma BehindInit(list: seq<Entry>, x: Watcher, y: Watcher)
    requires NoTwice(list) && Behind(list, x, y)
    ensures list[|list| - 1].w != y && (list[|list| - 1].w == x || Behind(list[..|list| - 1], x, y))
    ensures exists i :: 0 <= i < |list| && list[i].w == y
  {
    var i, j :| 0 <= i < j < |list| && list[i].w == y && list[j].w == x;
    if j < |list| - 1 {
      var l := list[..|list| - 1];
      assert l[i].w == y && l[j].w == x;
    }
  }

  lemma BehindPopped(lists: seq<seq<Entry>>, x: Watcher, y: Watcher)
    requires Tidy(lists) && x.priority < |lists| && Behind(lists[x.priority], x, y)
    ensures Top(lists, |lists|) >= 0 && NextEntry(lists).w != y
    ensures NextEntry(lists).w == x || Behind(Popped(lists)[x.priority], x, y)
  {
    hide Size, Behind;
    var p := x.priority;
    BehindInit(lists[p], x, y);
    hide NoTwice;
    assert NextEntry(lists).w.priority == Top(lists, |lists|);
  }

  /** Either x is dispatched next, or x stays behind y. */
  lemma BehindNext(lists: seq<seq<Entry>>, script: Script, x: Watcher, y: Watcher)
    requires Tidy(lists) && x.priority < |lists| && AllInReach(script, |lists|)
    requires NeverRemovedBy(script, x) && NeverRemovedBy(script, y) && Behind(lists[x.priority], x, y)
    ensures Top(lists, |lists|) >= 0 && NextEntry(lists).w != y
    ensures NextEntry(lists).w == x || Behind(NextLists(lists, script)[x.priority], x, y)
  {
    hide Tidy, Behind, Top, NextEntry, Popped;
    BehindPopped(lists, x, y);
    if NextEntry(lists).w != x && script != [] {
      BehindAfterAll(Popped(lists), script[0], x, y);
    }
  }

  /** Of two watchers of one priority, the one that is behind on the list is dispatched first. */
  lemma {:induction false} BehindFirst(lists: seq<seq<Entry>>, script: Script, x: Watcher, y: Watcher) returns (k: nat)
    requires Tidy(lists) && x.priority < |lists| && AllInReach(script, |lists|)
    requires NeverRemovedBy(script, x) && NeverRemovedBy(script, y) && Behind(lists[x.priority], x, y)
    ensures FirstAt(Dispatched(lists, script), x, k)
    ensures forall j :: 0 <= j <= k ==> Dispatched(lists, script)[j].w != y
    decreases |script|, Size(lists)
  {
    hide Tidy, Behind, Top, NextEntry, NextLists, Popped, InReach, Size;
    BehindNext(lists, script, x, y);
    if NextEntry(lists).w == x {
      k := 0;
    } else {
      TidyNext(lists, script);
      k := BehindFirst(NextLists(lists, script), Rest(script), x, y);
      FirstLater(NextEntry(lists), Dispatched(NextLists(lists, script), Rest(script)), x, k);
      k := k + 1;
    }
  }
}
