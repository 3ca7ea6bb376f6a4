/** Pending events: one stack per priority, in which a stopped watcher's entry is overwritten by a
    dummy.  Without the dummies, a stack is a plain list of watchers with the events they are owed. */
module EvPending {
  import opened EvHeap

  datatype Event = Read | Write | TimerEvent | Custom | Async | Failure

  type Revents = set<Event>

  /** struct ANPENDING */
  datatype Entry = Entry(w: Watcher, events: Revents)

  const NUMPRI := 5

  /** The entries of a stack that are not dummies. */
  ghost function Live(stack: seq<Entry>, dummy: Watcher): seq<Entry> {
    if stack == [] then []
    else
      var n := |stack| - 1;
      if stack[n].w == dummy then Live(stack[..n], dummy) else Live(stack[..n], dummy) + [stack[n]]
  }

  /** The stacks have the same heights. */
  ghost predicate SameShape(a: seq<seq<Entry>>, b: seq<seq<Entry>>) {
    |a| == |b| && forall p :: 0 <= p < |a| ==> |a[p]| == |b[p]|
  }

  /** All stacks without the dummies. */
  ghost function AllLive(stacks: seq<seq<Entry>>, dummy: Watcher): (l: seq<seq<Entry>>)
    ensures |l| == |stacks|
  {
    seq(|stacks|, p requires 0 <= p < |stacks| => Live(stacks[p], dummy))
  }

  lemma AllLiveUpdate(stacks: seq<seq<Entry>>, dummy: Watcher, p: nat, stack: seq<Entry>)
    requires p < |stacks|
    ensures AllLive(stacks[p := stack], dummy) == AllLive(stacks, dummy)[p := Live(stack, dummy)]
  {
  }

  ghost predicate Has(list: seq<Entry>, w: Watcher) { exists i :: 0 <= i < |list| && list[i].w == w }

  /** The list with events added to the entry of w. */
  ghost function Bumped(list: seq<Entry>, w: Watcher, events: Revents): seq<Entry> {
    seq(|list|, i requires 0 <= i < |list| =>
      if list[i].w == w then Entry(w, list[i].events + events) else list[i])
  }

  /** What feeding events to w does to a list: it joins at the end, unless it is there already. */
  ghost function Fed(list: seq<Entry>, w: Watcher, events: Revents): seq<Entry> {
    if Has(list, w) then Bumped(list, w, events) else list + [Entry(w, events)]
  }

  /** The list without w. */
  ghost function Without(list: seq<Entry>, w: Watcher): seq<Entry> {
    if list == [] then []
    else
      var n := |list| - 1;
      if list[n].w == w then Without(list[..n], w) else Without(list[..n], w) + [list[n]]
  }

  /** No watcher but the dummy occurs twice. */
  ghost predicate Unique(stack: seq<Entry>, dummy: Watcher) {
    forall i, j :: 0 <= i < j < |stack| && stack[i].w == stack[j].w ==> stack[i].w == dummy
  }

  lemma {:induction false} LiveHas(stack: seq<Entry>, dummy: Watcher, w: Watcher)
    requires w != dummy
    ensures Has(Live(stack, dummy), w) <==> Has(stack, w)
    decreases |stack|
  {
    if stack != [] {
      var n := |stack| - 1;
      LiveHas(stack[..n], dummy, w);
      var l := Live(stack[..n], dummy);
      if Has(stack, w) {
        var i :| 0 <= i < |stack| && stack[i].w == w;
        if i < n {
          assert stack[..n][i].w == w;
          var j :| 0 <= j < |l| && l[j].w == w;
          assert Live(stack, dummy)[j].w == w;
        } else {
          assert Live(stack, dummy)[|l|].w == w;
        }
      }
      if Has(Live(stack, dummy), w) {
        var j :| 0 <= j < |Live(stack, dummy)| && Live(stack, dummy)[j].w == w;
        if j < |l| {
          assert l[j].w == w;
          var i :| 0 <= i < n && stack[..n][i].w == w;
          assert stack[i].w == w;
        } else {
          assert stack[n].w == w;
        }
      }
    }
  }

  /** Adding events to an entry in place. */
  lemma {:induction false} LiveBumped(stack: seq<Entry>, dummy: Watcher, i: nat, events: Revents)
    requires i < |stack| && Unique(stack, dummy) && stack[i].w != dummy
    ensures var w := stack[i].w;
            Live(stack[i := Entry(w, stack[i].events + events)], dummy) == Bumped(Live(stack, dummy), w, events)
    decreases |stack|
  {
    var n, w := |stack| - 1, stack[i].w;
    var t := stack[i := Entry(w, stack[i].events + events)];
    var l := Live(stack[..n], dummy);
    if i == n {
      assert t[..n] == stack[..n];
      LiveHas(stack[..n], dummy, w);
      assert !Has(l, w) by {
        assert forall j :: 0 <= j < n ==> stack[..n][j].w == stack[j].w;
      }
      assert Bumped(l + [stack[n]], w, events) == l + [t[n]];
    } else {
      assert t[..n] == stack[..n][i := Entry(w, stack[i].events + events)];
      assert Unique(stack[..n], dummy);
      LiveBumped(stack[..n], dummy, i, events);
      assert stack[n].w != w;
      assert Bumped(l + [stack[n]], w, events) == Bumped(l, w, events) + [stack[n]];
    }
  }

  lemma {:induction false} WithoutAbsent(list: seq<Entry>, w: Watcher)
    requires !Has(list, w)
    ensures Without(list, w) == list
    decreases |list|
  {
    if list != [] {
      var n := |list| - 1;
      assert forall j :: 0 <= j < n ==> list[..n][j] == list[j];
      WithoutAbsent(list[..n], w);
      assert list == list[..n] + [list[n]];
    }
  }

  lemma WithoutAppend(list: seq<Entry>, e: Entry, w: Watcher)
    ensures Without(list + [e], w) == if e.w == w then Without(list, w) else Without(list, w) + [e]
  {
    assert (list + [e])[..|list|] == list;
  }

  /** Overwriting an entry by the dummy. */
  lemma {:induction false} LiveCleared(stack: seq<Entry>, dummy: Watcher, i: nat)
    requires i < |stack| && Unique(stack, dummy) && stack[i].w != dummy
    ensures Live(stack[i := Entry(dummy, stack[i].events)], dummy) == Without(Live(stack, dummy), stack[i].w)
    decreases |stack|
  {
    var n, w := |stack| - 1, stack[i].w;
    var t := stack[i := Entry(dummy, stack[i].events)];
    var l := Live(stack[..n], dummy);
    if i == n {
      assert t[..n] == stack[..n];
      LiveHas(stack[..n], dummy, w);
      assert !Has(l, w) by {
        assert forall j :: 0 <= j < n ==> stack[..n][j].w == stack[j].w;
      }
      WithoutAbsent(l, w);
      WithoutAppend(l, stack[n], w);
    } else {
      assert t[..n] == stack[..n][i := Entry(dummy, stack[i].events)];
      assert Unique(stack[..n], dummy);
      LiveCleared(stack[..n], dummy, i);
      assert stack[n].w != w;
      WithoutAppend(l, stack[n], w);
    }
  }

  lemma LiveAppend(stack: seq<Entry>, dummy: Watcher, e: Entry)
    ensures Live(stack + [e], dummy) == if e.w == dummy then Live(stack, dummy) else Live(stack, dummy) + [e]
  {
    assert (stack + [e])[..|stack|] == stack;
  }

  lemma {:induction false} WithoutNone(list: seq<Entry>, w: Watcher)
    ensures !Has(Without(list, w), w)
    decreases |list|
  {
    if list != [] {
      WithoutNone(list[..|list| - 1], w);
    }
  }

  /** The list without the watchers in gone. */
  ghost function Minus(list: seq<Entry>, gone: set<Watcher>): seq<Entry> {
    if list == [] then []
    else
      var n := |list| - 1;
      if list[n].w in gone then Minus(list[..n], gone) else Minus(list[..n], gone) + [list[n]]
  }

  lemma {:induction false} MinusOne(list: seq<Entry>, gone: set<Watcher>, w: Watcher)
    ensures Minus(list, gone + {w}) == Without(Minus(list, gone), w)
    decreases |list|
  {
    if list != [] {
      var n := |list| - 1;
      MinusOne(list[..n], gone, w);
      if list[n].w !in gone {
        WithoutAppend(Minus(list[..n], gone), list[n], w);
      }
    }
  }

  lemma {:induction false} MinusNone(list: seq<Entry>)
    ensures Minus(list, {}) == list
    decreases |list|
  {
    if list != [] {
      MinusNone(list[..|list| - 1]);
      assert list == list[..|list| - 1] + [list[|list| - 1]];
    }
  }

  /** All lists after events are fed to the watchers ws, the last one first. */
  ghost function FedBack(lists: seq<seq<Entry>>, ws: seq<Watcher>, events: Revents): (l: seq<seq<Entry>>)
    requires forall w <- ws :: w.priority < |lists|
    ensures |l| == |lists|
    decreases |ws|
  {
    if ws == [] then lists
    else
      var n := |ws| - 1;
      var w := ws[n];
      FedBack(lists[w.priority := Fed(lists[w.priority], w, events)], ws[..n], events)
  }

  /** x is behind y on the list, so that x will be taken off first. */
  ghost predicate Behind(list: seq<Entry>, x: Watcher, y: Watcher) {
    exists i, j :: 0 <= i < j < |list| && list[i].w == y && list[j].w == x
  }

  lemma FedKeepsOrder(list: seq<Entry>, w: Watcher, events: Revents)
    ensures |list| <= |Fed(list, w, events)|
    ensures forall i :: 0 <= i < |list| ==> Fed(list, w, events)[i].w == list[i].w
  {
  }

  lemma {:induction false} FedBackKeepsOrder(lists: seq<seq<Entry>>, ws: seq<Watcher>, events: Revents, p: nat)
    requires p < |lists| && forall w <- ws :: w.priority < |lists|
    ensures |lists[p]| <= |FedBack(lists, ws, events)[p]|
    ensures forall i :: 0 <= i < |lists[p]| ==> FedBack(lists, ws, events)[p][i].w == lists[p][i].w
    decreases |ws|
  {
    if ws != [] {
      var n := |ws| - 1;
      var w := ws[n];
      FedKeepsOrder(lists[w.priority], w, events);
      FedBackKeepsOrder(lists[w.priority := Fed(lists[w.priority], w, events)], ws[..n], events, p);
    }
  }

  /** What is fed back joins the lists, if it is not there yet. */
  lemma {:induction false} FedBackHas(lists: seq<seq<Entry>>, ws: seq<Watcher>, events: Revents, k: nat)
    requires k < |ws| && forall w <- ws :: w.priority < |lists|
    ensures Has(FedBack(lists, ws, events)[ws[k].priority], ws[k])
    decreases |ws|
  {
    var n := |ws| - 1;
    var w := ws[n];
    var next := lists[w.priority := Fed(lists[w.priority], w, events)];
    if k == n {
      var list := Fed(lists[w.priority], w, events);
      assert Has(list, w) by {
        if Has(lists[w.priority], w) {
          var i :| 0 <= i < |lists[w.priority]| && lists[w.priority][i].w == w;
          assert list[i].w == w;
        } else {
          assert list[|lists[w.priority]|].w == w;
        }
      }
      var i :| 0 <= i < |list| && list[i].w == w;
      FedBackKeepsOrder(next, ws[..n], events, w.priority);
      assert FedBack(next, ws[..n], events)[w.priority][i].w == w;
    } else {
      FedBackHas(next, ws[..n], events, k);
    }
  }

  /** Of two watchers of one priority that were not pending, the one that comes first among those fed
      back ends up behind the other. */
  lemma {:induction false} FedBackOrder(lists: seq<seq<Entry>>, ws: seq<Watcher>, events: Revents, i: nat, j: nat)
    requires i < j < |ws| && ws[i] != ws[j] && ws[i].priority == ws[j].priority
    requires forall w <- ws :: w.priority < |lists|
    requires forall a, b :: 0 <= a < b < |ws| ==> ws[a] != ws[b]
    requires !Has(lists[ws[i].priority], ws[i]) && !Has(lists[ws[j].priority], ws[j])
    ensures Behind(FedBack(lists, ws, events)[ws[i].priority], ws[i], ws[j])
    decreases |ws|
  {
    var n, p := |ws| - 1, ws[i].priority;
    var w := ws[n];
    var next := lists[w.priority := Fed(lists[w.priority], w, events)];
    assert !Has(next[p], ws[i]);
    if j == n {
      var at := |lists[p]|;
      assert next[p][at].w == w;
      FedBackKeepsOrder(next, ws[..n], events, p);
      FedBackHas(next, ws[..n], events, i);
      var end := FedBack(next, ws[..n], events)[p];
      var k :| 0 <= k < |end| && end[k].w == ws[i];
      assert k > at by {
        assert forall l :: 0 <= l < |next[p]| ==> end[l].w == next[p][l].w;
      }
      assert end[at].w == ws[j];
    } else {
      assert !Has(next[p], ws[j]);
      FedBackOrder(next, ws[..n], events, i, j);
    }
  }

  lemma {:induction false} MinusHas(list: seq<Entry>, gone: set<Watcher>, w: Watcher)
    requires !Has(list, w)
    ensures !Has(Minus(list, gone), w)
    decreases |list|
  {
    if list != [] {
      var n := |list| - 1;
      assert forall j :: 0 <= j < n ==> list[..n][j] == list[j];
      MinusHas(list[..n], gone, w);
    }
  }

  /** Every entry of a list belongs to its priority. */
  ghost predicate Sorted(lists: seq<seq<Entry>>) {
    forall p, i :: 0 <= p < |lists| && 0 <= i < |lists[p]| ==> lists[p][i].w.priority == p
  }

  /** Stopping w changes the list of its priority only. */
  lemma StopOne(lists: seq<seq<Entry>>, gone: set<Watcher>, w: Watcher, p: nat)
    requires Sorted(lists) && p < |lists|
    ensures Minus(lists[p], gone + {w}) ==
            if p == w.priority then Without(Minus(lists[p], gone), w) else Minus(lists[p], gone)
  {
    MinusOne(lists[p], gone, w);
    if p != w.priority {
      MinusHas(lists[p], gone, w);
      WithoutAbsent(Minus(lists[p], gone), w);
    }
  }

  lemma {:induction false} LiveSubset(stack: seq<Entry>, dummy: Watcher, e: Entry)
    requires e in Live(stack, dummy)
    ensures e in stack && e.w != dummy
    decreases |stack|
  {
    var n := |stack| - 1;
    if e != stack[n] {
      LiveSubset(stack[..n], dummy, e);
    } else if stack[n].w == dummy {
      LiveSubset(stack[..n], dummy, e);
    }
  }

  /** lists are lists0 without the watchers in gone. */
  ghost predicate AllMinus(lists: seq<seq<Entry>>, lists0: seq<seq<Entry>>, gone: set<Watcher>) {
    |lists| == |lists0| && forall p :: 0 <= p < |lists0| ==> lists[p] == Minus(lists0[p], gone)
  }

  lemma AllMinusOne(lists: seq<seq<Entry>>, lists0: seq<seq<Entry>>, gone: set<Watcher>, w: Watcher)
    requires Sorted(lists0) && AllMinus(lists, lists0, gone) && w.priority < |lists|
    ensures AllMinus(lists[w.priority := Without(lists[w.priority], w)], lists0, gone + {w})
  {
    hide Sorted, Minus, Without;
    forall p | 0 <= p < |lists0|
      ensures lists[w.priority := Without(lists[w.priority], w)][p] == Minus(lists0[p], gone + {w})
    {
      StopOne(lists0, gone, w, p);
    }
  }

  lemma AllMinusNone(lists: seq<seq<Entry>>)
    ensures AllMinus(lists, lists, {})
  {
    forall p | 0 <= p < |lists|
      ensures lists[p] == Minus(lists[p], {})
    {
      MinusNone(lists[p]);
    }
  }

  lemma {:induction false} LiveNoTwice(stack: seq<Entry>, dummy: Watcher)
    requires Unique(stack, dummy)
    ensures var l := Live(stack, dummy); forall i, j :: 0 <= i < j < |l| ==> l[i].w != l[j].w
    decreases |stack|
  {
    if stack != [] {
      var n := |stack| - 1;
      LiveNoTwice(stack[..n], dummy);
      var l := Live(stack[..n], dummy);
      forall i | 0 <= i < |l|
        ensures l[i].w != stack[n].w
      {
        LiveSubset(stack[..n], dummy, l[i]);
      }
    }
  }
}
