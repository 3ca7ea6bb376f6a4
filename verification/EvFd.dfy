/** I/O watchers: the watchers of each file descriptor, the list of descriptors that changed, and how
    fd_reify brings the backend up to date. */
module EvFd {
  import opened EvHeap
  import opened EvPending
  import opened EvDispatch
  import opened EvLoop
  import opened EvPoll

  /** struct ev_io */
  class IoWatcher {
    const w: Watcher  // the part that all watchers have
    var fd: nat
    var events: Mask
    var fdset: bool   // EV__IOFDSET: the descriptor was set since the last start
    var active: bool

    constructor (w: Watcher)
      ensures this.w == w && !active
    {
      this.w := w;
      fd, events, fdset, active := 0, {}, false, false;
    }
  }

  datatype Flag = Reify | FdSet

  datatype Anfd = Anfd(head: seq<IoWatcher>, events: Mask, reify: set<Flag>)

  /** The events that some watcher of the list waits for. */
  ghost function Union(head: seq<IoWatcher>): Mask
    reads head`events
  {
    set i, e | 0 <= i < |head| && e in head[i].events :: e
  }

  ghost predicate NoRepeat<T>(s: seq<T>) {
    forall i, j :: 0 <= i < j < |s| ==> s[i] != s[j]
  }

  /** What the backend is to wait for. */
  ghost function Wanted(anfds: seq<Anfd>): map<nat, Mask> {
    map fd | 0 <= fd < |anfds| && anfds[fd].events != {} :: anfds[fd].events
  }

  /** The changes name exactly the descriptors that are to be reified, each once. */
  ghost predicate NotedIn(changes: seq<nat>, anfds: seq<Anfd>) {
    && NoRepeat(changes)
    && (forall fd <- changes :: fd < |anfds| && anfds[fd].reify != {})
    && (forall fd :: 0 <= fd < |anfds| && anfds[fd].reify != {} ==> fd in changes)
  }

  function Flagged(anfds: seq<Anfd>, fd: nat, flags: set<Flag>): seq<Anfd>
    requires fd < |anfds|
  {
    anfds[fd := anfds[fd].(reify := anfds[fd].reify + flags)]
  }

  lemma NotedFlagged(changes: seq<nat>, anfds: seq<Anfd>, fd: nat, flags: set<Flag>)
    requires NotedIn(changes, anfds) && fd < |anfds| && flags != {}
    ensures NotedIn(if anfds[fd].reify == {} then changes + [fd] else changes, Flagged(anfds, fd, flags))
  {
    if anfds[fd].reify == {} {
      assert fd !in changes;
      assert forall f <- changes + [fd] :: f == fd || f in changes;
    }
  }

  function Refreshed(anfds: seq<Anfd>, fd: nat, events: Mask): seq<Anfd>
    requires fd < |anfds|
  {
    anfds[fd := Anfd(anfds[fd].head, events, {})]
  }

  lemma NotedRefreshed(changes: seq<nat>, anfds: seq<Anfd>, events: Mask)
    requires NotedIn(changes, anfds) && changes != []
    ensures changes[0] < |anfds| && NotedIn(changes[1..], Refreshed(anfds, changes[0], events))
  {
    var fd := changes[0];
    assert fd in changes;
    var after := Refreshed(anfds, fd, events);
    forall f | 0 <= f < |after| && after[f].reify != {}
      ensures f in changes[1..]
    {
      assert f in changes && f != fd;
    }
    forall f <- changes[1..]
      ensures f < |after| && after[f].reify != {}
    {
      assert f in changes && f != fd;
    }
  }

  lemma WantedRefreshed(anfds: seq<Anfd>, fd: nat, events: Mask)
    requires fd < |anfds|
    ensures Wanted(Refreshed(anfds, fd, events)) ==
            if events == {} then Wanted(anfds) - {fd} else Wanted(anfds)[fd := events]
    ensures anfds[fd].events == if fd in Wanted(anfds) then Wanted(anfds)[fd] else {}
  {
  }

  /** What fd_kill does to the pending events: every watcher is stopped, then told of the failure. */
  ghost function KillActions(head: seq<IoWatcher>): seq<Action> {
    if head == [] then []
    else [Action.Clear(head[0].w), Action.Feed(head[0].w, {Failure, Read, Write})] + KillActions(head[1..])
  }

  lemma AfterTwo(lists: seq<seq<Entry>>, a: Action, b: Action, rest: seq<Action>)
    requires InReach([a, b] + rest, |lists|)
    ensures a in [a, b] + rest && b in [a, b] + rest && InReach(rest, |lists|)
    ensures AfterAll(lists, [a, b] + rest) == AfterAll(After(After(lists, a), b), rest)
  {
    var all := [a, b] + rest;
    assert all[0] == a && all[1] == b && all[1..][0] == b && all[1..][1..] == rest;
    assert forall i :: 0 <= i < |rest| ==> all[i + 2] == rest[i];
    assert AfterAll(lists, all) == AfterAll(After(lists, a), all[1..]);
  }

  lemma NoneKilled(lists: seq<seq<Entry>>)
    ensures InReach(KillActions([]), |lists|) && AfterAll(lists, KillActions([])) == lists
  {
  }

  /** wlist_del */
  function Del(head: seq<IoWatcher>, x: IoWatcher): (l: seq<IoWatcher>)
  {
    if head == [] then []
    else if head[0] == x then head[1..]
    else [head[0]] + Del(head[1..], x)
  }

  /** Of a list without repetition, Del takes out just x, and keeps the order of the others. */
  lemma {:induction false} DelOne(head: seq<IoWatcher>, x: IoWatcher, k: nat)
    requires k < |head| && head[k] == x && NoRepeat(head)
    ensures Del(head, x) == head[..k] + head[k + 1..]
    decreases |head|
  {
    if k > 0 {
      DelOne(head[1..], x, k - 1);
      assert head == [head[0]] + head[1..];
    }
  }

  lemma DelMembers(head: seq<IoWatcher>, x: IoWatcher, k: nat)
    requires k < |head| && head[k] == x && NoRepeat(head)
    ensures NoRepeat(Del(head, x))
    ensures forall y :: y in Del(head, x) <==> y in head && y != x
  {
    DelOne(head, x, k);
    var l := head[..k] + head[k + 1..];
    hide Del;
    forall y
      ensures y in l <==> y in head && y != x
    {
      if y in head && y != x {
        var i :| 0 <= i < |head| && head[i] == y;
        assert l[if i < k then i else i - 1] == y;
      }
    }
  }

  class Fds {
    const loop: Loop
    const poll: Poll
    var anfds: seq<Anfd>
    var fdchanges: seq<nat>
    ghost var ios: set<IoWatcher>  // the I/O watchers used with this loop

    ghost predicate Listed(x: IoWatcher, fd: nat)
      reads this`ios, ios`active, ios`fd
    {
      x in ios && x.active && x.fd == fd
    }

    ghost predicate OnList(x: IoWatcher)
      reads this`anfds, x`fd
    {
      x.fd < |anfds| && x in anfds[x.fd].head
    }

    /** The lists hold exactly the active watchers, each once and with its descriptor. */
    ghost predicate Registered()
      reads this`ios, this`anfds, ios`active, ios`fd
    {
      && (forall fd, i :: 0 <= fd < |anfds| && 0 <= i < |anfds[fd].head| ==> Listed(anfds[fd].head[i], fd))
      && (forall fd :: 0 <= fd < |anfds| ==> NoRepeat(anfds[fd].head))
      && (forall x <- ios :: x.active ==> OnList(x))
    }

    /** From the given place on, the change list names exactly the descriptors that are to be reified,
        each once.  Outside fd_reify the place is 0. */
    ghost predicate Noted(from: nat)
      reads this`anfds, this`fdchanges
    {
      from <= |fdchanges| && NotedIn(fdchanges[from..], anfds)
    }

    /** The recorded events of a descriptor are those its watchers wait for. */
    ghost predicate InSync(fd: nat)
      requires fd < |anfds|
      reads this`anfds, anfds[fd].head`events
    {
      anfds[fd].events == Union(anfds[fd].head)
    }

    /** So it is for all descriptors that are not to be reified, but for the one given. */
    ghost predicate SyncedBut(but: int)
      reads this`anfds, this`ios, ios`events
    {
      forall fd :: 0 <= fd < |anfds| && fd != but && anfds[fd].reify == {} ==>
        (forall x <- anfds[fd].head :: x in ios) && InSync(fd)
    }

    ghost predicate Polled()
      reads poll, this`anfds
    {
      poll.Valid() && poll.Interest() == Wanted(anfds)
    }

    ghost predicate Known()
      reads this`ios, loop`pendings, loop`ws, loop.ws`pending, loop.pendingW`pending
    {
      loop.Queued() && forall x <- ios :: x.w in loop.ws
    }

    ghost predicate Valid(from: nat)
      reads this`ios, this`anfds, this`fdchanges, ios`active, ios`fd, ios`events,
            poll, loop`pendings, loop`ws, loop.ws`pending, loop.pendingW`pending
    {
      Registered() && Noted(from) && SyncedBut(-1) && Polled() && Known()
    }

    constructor (loop: Loop, ios: set<IoWatcher>)
      requires loop.Queued() && forall x <- ios :: x.w in loop.ws && !x.active
      ensures Valid(0) && this.loop == loop && this.ios == ios && anfds == [] && fdchanges == []
    {
      this.loop, this.ios := loop, ios;
      anfds, fdchanges := [], [];
      poll := new Poll();
    }

    ghost function HeadOf(fd: nat): seq<IoWatcher>
      reads this`anfds
    {
      if fd < |anfds| then anfds[fd].head else []
    }

    /** How the descriptor is marked to be reified. */
    ghost function MarkOf(fd: nat): set<Flag>
      reads this`anfds
    {
      if fd < |anfds| then anfds[fd].reify else {}
    }

    ghost function ActiveIos(): set<IoWatcher>
      reads this`ios, ios`active
    {
      set x | x in ios && x.active
    }

    /** ev_io_set */
    method IoSet(x: IoWatcher, fd: nat, events: Mask, ghost from: nat)
      requires Valid(from) && x in ios && !x.active
      modifies x`fd, x`events, x`fdset
      ensures Valid(from) && x.fd == fd && x.events == events && x.fdset && forall f :: HeadOf(f) == old(HeadOf(f))
    {
      hide Polled, Known, Noted;
      x.fd, x.events, x.fdset := fd, events, true;
      assert forall f :: 0 <= f < |anfds| ==> x !in anfds[f].head;
    }

    /** fd_change */
    method FdChange(fd: nat, flags: set<Flag>, ghost from: nat)
      requires fd < |anfds| && Noted(from) && flags != {}
      requires Registered() && SyncedBut(fd) && Polled()
      modifies this`anfds, this`fdchanges
      ensures Noted(from)
      ensures Registered() && SyncedBut(-1) && Polled() && |anfds| == |old(anfds)|
      ensures forall f :: HeadOf(f) == old(HeadOf(f))
      ensures forall f :: MarkOf(f) == if f == fd then old(MarkOf(f)) + flags else old(MarkOf(f))
    {
      hide NotedIn;
      NotedFlagged(fdchanges[from..], anfds, fd, flags);
      var reify := anfds[fd].reify;
      anfds := Flagged(anfds, fd, flags);
      assert Wanted(anfds) == Wanted(old(anfds));
      if reify == {} {
        assert (fdchanges + [fd])[from..] == fdchanges[from..] + [fd];
        fdchanges := fdchanges + [fd];
      }
    }

    /** array_needsize for the descriptor */
    method Grow(fd: nat, ghost from: nat)
      requires Registered() && Noted(from) && SyncedBut(-1) && Polled()
      modifies this`anfds
      ensures Registered() && Noted(from) && SyncedBut(-1) && Polled() && fd < |anfds|
      ensures forall f :: HeadOf(f) == old(HeadOf(f)) && MarkOf(f) == old(MarkOf(f))
    {
      if fd >= |anfds| {
        anfds := anfds + seq(fd + 1 - |anfds|, _ => Anfd([], {}, {}));
        assert Wanted(anfds) == Wanted(old(anfds));
      }
    }

    /** ev_io_start */
    method IoStart(x: IoWatcher, ghost from: nat)
      requires Valid(from) && x in ios
      modifies this`anfds, this`fdchanges, x`active, x`fdset
      ensures Valid(from) && x.active
      ensures HeadOf(x.fd) == if old(x.active) then old(HeadOf(x.fd)) else [x] + old(HeadOf(x.fd))
      ensures forall f :: f != x.fd ==> HeadOf(f) == old(HeadOf(f))
      ensures ActiveIos() == old(ActiveIos()) + {x} && x.fdset == (old(x.active) && old(x.fdset))
      ensures forall f :: MarkOf(f) == old(MarkOf(f)) +
                if f != x.fd || old(x.active) then {} else if old(x.fdset) then {FdSet, Reify} else {Reify}
    {
      hide Known, Noted, Registered, Polled, SyncedBut, HeadOf, MarkOf;
      if x.active {
        return;
      }
      Grow(x.fd, from);
      Link(x, from);
      FdChange(x.fd, if x.fdset then {FdSet, Reify} else {Reify}, from);
      x.fdset := false;
    }

    /** Put x on its list; the descriptor is yet to be marked as changed. */
    method Link(x: IoWatcher, ghost from: nat)
      requires Registered() && Noted(from) && SyncedBut(-1) && Polled() && x in ios && !x.active && x.fd < |anfds|
      modifies this`anfds, x`active
      ensures Registered() && Noted(from) && SyncedBut(x.fd) && Polled() && x.active && |anfds| == |old(anfds)|
      ensures HeadOf(x.fd) == [x] + old(HeadOf(x.fd)) && forall f :: f != x.fd ==> HeadOf(f) == old(HeadOf(f))
      ensures forall f :: MarkOf(f) == old(MarkOf(f))
    {
      hide NotedIn, Union;
      var fd := x.fd;
      x.active := true;
      anfds := anfds[fd := anfds[fd].(head := [x] + anfds[fd].head)];
      NewHead(old(anfds), from, fd, anfds[fd].head);
    }

    /** A change of a list does not matter to the change list and the poll backend. */
    lemma NewHead(was: seq<Anfd>, from: nat, fd: nat, head: seq<IoWatcher>)
      requires fd < |was| && anfds == was[fd := was[fd].(head := head)]
      ensures Wanted(anfds) == Wanted(was)
      ensures from <= |fdchanges| ==> NotedIn(fdchanges[from..], was) == NotedIn(fdchanges[from..], anfds)
    {
    }

    /** What is left of x's list without it. */
    lemma WithoutX(x: IoWatcher)
      requires Registered() && x in ios && x.active
      ensures x.fd < |anfds| && NoRepeat(Del(anfds[x.fd].head, x))
      ensures forall y :: y in Del(anfds[x.fd].head, x) <==> y in anfds[x.fd].head && y != x
    {
      assert OnList(x);
      var k :| 0 <= k < |anfds[x.fd].head| && anfds[x.fd].head[k] == x;
      DelMembers(anfds[x.fd].head, x, k);
    }

    /** Take x off its list; the descriptor is yet to be marked as changed. */
    method Unlink(x: IoWatcher, ghost from: nat)
      requires Registered() && Noted(from) && SyncedBut(-1) && Polled() && x in ios && x.active
      modifies this`anfds, x`active
      ensures Registered() && Noted(from) && SyncedBut(x.fd) && Polled() && !x.active && x.fd < |anfds| == |old(anfds)|
      ensures HeadOf(x.fd) == Del(old(HeadOf(x.fd)), x) && forall f :: f != x.fd ==> HeadOf(f) == old(HeadOf(f))
      ensures forall f :: MarkOf(f) == old(MarkOf(f))
    {
      hide Del, NotedIn, NoRepeat, Union;
      WithoutX(x);
      var fd := x.fd;
      anfds := anfds[fd := anfds[fd].(head := Del(anfds[fd].head, x))];
      x.active := false;
      forall f, i | 0 <= f < |anfds| && 0 <= i < |anfds[f].head|
        ensures Listed(anfds[f].head[i], f)
      {
        assert anfds[f].head[i] in old(anfds)[f].head;
      }
      NewHead(old(anfds), from, fd, anfds[fd].head);
    }

    /** ev_io_stop */
    method IoStop(x: IoWatcher, ghost from: nat)
      requires Valid(from) && x in ios
      modifies this`anfds, this`fdchanges, x`active, loop`pendings, x.w`pending
      ensures Valid(from) && !x.active && |anfds| == |old(anfds)|
      ensures HeadOf(x.fd) == if old(x.active) then Del(old(HeadOf(x.fd)), x) else old(HeadOf(x.fd))
      ensures forall f :: f != x.fd ==> HeadOf(f) == old(HeadOf(f))
      ensures ActiveIos() == old(ActiveIos()) - {x}
      ensures forall f :: MarkOf(f) == old(MarkOf(f)) + if f == x.fd && old(x.active) then {Reify} else {}
      ensures x.w.priority < |old(loop.Lists())| && loop.Lists() == After(old(loop.Lists()), Action.Clear(x.w))
    {
      hide Noted, Registered, Polled, SyncedBut, HeadOf, MarkOf, Loop.Queued, Loop.Lists, Without;
      loop.InRange(x.w);
      loop.ClearPending(x.w);
      if !x.active {
        return;
      }
      Unlink(x, from);
      FdChange(x.fd, {Reify}, from);
    }

    /** The set method of ev::io: an active watcher is stopped, set and started again. */
    method IoReset(x: IoWatcher, fd: nat, events: Mask, ghost from: nat)
      requires Valid(from) && x in ios
      modifies this`anfds, this`fdchanges, x`active, x`fd, x`events, x`fdset, loop`pendings, x.w`pending
      ensures Valid(from) && x.fd == fd && x.events == events && ActiveIos() == old(ActiveIos())
      ensures forall f :: HeadOf(f) ==
                var rest := if f == old(x.fd) && old(x.active) then Del(old(HeadOf(f)), x) else old(HeadOf(f));
                if f == fd && x.active then [x] + rest else rest
      ensures (forall f :: old(MarkOf(f)) <= MarkOf(f)) && (x.active ==> FdSet in MarkOf(fd))
    {
      hide Valid, HeadOf, MarkOf, Del, Loop.Lists, Without;
      var active := x.active;
      if active {
        IoStop(x, from);
      }
      IoSet(x, fd, events, from);
      if active {
        IoStart(x, from);
      }
    }

    lemma HeadActive(fd: nat)
      requires Registered() && HeadOf(fd) != []
      ensures fd < |anfds| && HeadOf(fd) == anfds[fd].head
      ensures HeadOf(fd)[0] in ios && HeadOf(fd)[0] in ActiveIos() && HeadOf(fd)[0].fd == fd
    {
      assert Listed(anfds[fd].head[0], fd);
    }

    /** One round of fd_kill. */
    method KillOne(fd: nat, ghost from: nat) returns (x: IoWatcher)
      requires Valid(from) && HeadOf(fd) != []
      modifies this`anfds, this`fdchanges, ios`active, loop`pendings, loop`pendingpri, loop.ws`pending
      ensures Valid(from) && x == old(HeadOf(fd)[0]) && HeadOf(fd) == old(HeadOf(fd)[1..]) && |anfds| == |old(anfds)|
      ensures forall f :: f != fd ==> HeadOf(f) == old(HeadOf(f))
      ensures ActiveIos() < old(ActiveIos()) && forall f :: old(MarkOf(f)) <= MarkOf(f)
      ensures x.w.priority < |old(loop.Lists())|
      ensures loop.Lists() == After(After(old(loop.Lists()), Action.Clear(x.w)),
                                    Action.Feed(x.w, {Failure, Read, Write}))
    {
      hide Noted, Polled, SyncedBut, Registered, HeadOf, MarkOf, Loop.Queued, Loop.Lists, Fed, Without;
      HeadActive(fd);
      x := anfds[fd].head[0];
      assert Del(HeadOf(fd), x) == HeadOf(fd)[1..];
      IoStop(x, from);
      loop.FeedEvent(x.w, {Failure, Read, Write});
    }

    /** fd_kill */
    method FdKill(fd: nat, ghost from: nat)
      requires Valid(from) && fd < |anfds|
      modifies this`anfds, this`fdchanges, ios`active, loop`pendings, loop`pendingpri, loop.ws`pending
      ensures Valid(from) && HeadOf(fd) == [] && |anfds| == |old(anfds)|
      ensures forall f :: f != fd ==> HeadOf(f) == old(HeadOf(f))
      ensures old(HeadOf(fd)) == [] ==> fdchanges == old(fdchanges) && ActiveIos() == old(ActiveIos())
      ensures old(HeadOf(fd)) != [] ==> ActiveIos() < old(ActiveIos())
      ensures forall f :: old(MarkOf(f)) <= MarkOf(f)
      ensures InReach(KillActions(old(HeadOf(fd))), |old(loop.Lists())|)
      ensures loop.Lists() == AfterAll(old(loop.Lists()), KillActions(old(HeadOf(fd))))
    {
      KillsInReach(fd);
      hide Valid, Loop.Lists, After, ActiveIos, AfterAll, InReach, HeadOf, MarkOf;
      HeadIs(fd);
      ghost var goal := AfterAll(loop.Lists(), KillActions(HeadOf(fd)));
      while anfds[fd].head != []
        invariant Valid(from) && fd < |anfds| == |old(anfds)| && |loop.Lists()| == |old(loop.Lists())|
        invariant HeadOf(fd) == anfds[fd].head
        invariant forall f :: f != fd ==> HeadOf(f) == old(HeadOf(f))
        invariant |HeadOf(fd)| == |old(HeadOf(fd))| ==> fdchanges == old(fdchanges) && ActiveIos() == old(ActiveIos())
        invariant |HeadOf(fd)| < |old(HeadOf(fd))| ==> ActiveIos() < old(ActiveIos())
        invariant |HeadOf(fd)| <= |old(HeadOf(fd))| && forall f :: old(MarkOf(f)) <= MarkOf(f)
        invariant InReach(KillActions(HeadOf(fd)), |loop.Lists()|)
        invariant goal == AfterAll(loop.Lists(), KillActions(HeadOf(fd)))
        decreases |HeadOf(fd)|
      {
        ghost var w := HeadOf(fd)[0].w;
        AfterTwo(loop.Lists(), Action.Clear(w), Action.Feed(w, {Failure, Read, Write}), KillActions(HeadOf(fd)[1..]));
        var _ := KillOne(fd, from);
        HeadIs(fd);
      }
      NoneKilled(loop.Lists());
    }

    lemma HeadIs(fd: nat)
      requires fd < |anfds|
      ensures HeadOf(fd) == anfds[fd].head
    {
    }

    lemma KillsInReach(fd: nat)
      requires Registered() && Known() && fd < |anfds|
      ensures InReach(KillActions(HeadOf(fd)), |loop.Lists()|)
    {
      KillReach(HeadOf(fd));
    }

    lemma {:induction false} KillReach(head: seq<IoWatcher>)
      requires Known() && forall x <- head :: x in ios
      ensures InReach(KillActions(head), NUMPRI)
      decreases |head|
    {
      if head != [] {
        KillReach(head[1..]);
        loop.InRange(head[0].w);
      }
    }

    /** The union of the watchers' events, as the loop in fd_reify collects it. */
    method Collect(head: seq<IoWatcher>) returns (events: Mask)
      ensures events == Union(head)
    {
      events := {};
      for i := 0 to |head|
        invariant events == Union(head[..i])
      {
        assert head[..i + 1] == head[..i] + [head[i]];
        UnionAppend(head[..i], head[i]);
        events := events + head[i].events;
      }
      assert head[..|head|] == head;
    }

    lemma UnionAppend(head: seq<IoWatcher>, x: IoWatcher)
      ensures Union(head + [x]) == Union(head) + x.events
    {
      var all := head + [x];
      forall e
        ensures e in Union(all) <==> e in Union(head) || e in x.events
      {
        if e in Union(head) {
          var i :| 0 <= i < |head| && e in head[i].events;
          assert e in all[i].events;
        }
        if e in x.events {
          assert e in all[|head|].events;
        }
      }
    }

    /** Clear the mark of the descriptor at i, and record what its watchers wait for. */
    method Recompute(i: nat) returns (events: Mask)
      requires Registered() && Noted(i) && SyncedBut(-1) && i < |fdchanges| && fdchanges[i] < |anfds|
      modifies this`anfds
      ensures Registered() && Noted(i + 1) && SyncedBut(-1)
      ensures anfds == Refreshed(old(anfds), fdchanges[i], events) && events == Union(old(anfds)[fdchanges[i]].head)
    {
      hide NotedIn, NoRepeat;
      var fd := fdchanges[i];
      events := Collect(anfds[fd].head);
      assert fdchanges[i..][0] == fd && fdchanges[i..][1..] == fdchanges[i + 1..];
      NotedRefreshed(fdchanges[i..], anfds, events);
      assert forall x <- anfds[fd].head :: x in ios;
      anfds := Refreshed(anfds, fd, events);
    }

    lemma NotedInRange(i: nat)
      requires Noted(i) && i < |fdchanges|
      ensures fdchanges[i] < |anfds|
    {
      assert fdchanges[i] in fdchanges[i..] by {
        assert fdchanges[i..][0] == fdchanges[i];
      }
    }

    /** The descriptor has to be passed to the backend: its watchers wait for something else than before, or
        it was set anew. */
    ghost predicate MustTell(fd: nat)
      requires fd < |anfds|
      reads this`anfds, anfds[fd].head`events
    {
      !InSync(fd) || FdSet in anfds[fd].reify
    }

    /** A round of fd_reify, all but what the backend may do in it besides keeping its tables. */
    method Refresh(i: nat) returns (modified: bool)
      requires Valid(i) && i < |fdchanges|
      modifies this`anfds, poll
      ensures Valid(i + 1) && |anfds| == |old(anfds)| && forall f :: HeadOf(f) == old(HeadOf(f))
      ensures fdchanges[i] < |old(anfds)| && modified == old(MustTell(fdchanges[i]))
      ensures forall f :: MarkOf(f) == if f == fdchanges[i] then {} else old(MarkOf(f))
    {
      hide Registered, Noted, SyncedBut, Known, Wanted, Poll.Valid, Poll.Interest;
      NotedInRange(i);
      var fd := fdchanges[i];
      var before, reify := anfds[fd].events, anfds[fd].reify;
      var events := Recompute(i);
      WantedRefreshed(old(anfds), fd, events);
      modified := before != events || FdSet in reify;
      if modified {
        poll.Modify(fd, before, events);
      } else {
        SameWanted(old(anfds), fd);
      }
    }

    lemma SameWanted(was: seq<Anfd>, fd: nat)
      requires fd < |was|
      ensures Wanted(Refreshed(was, fd, was[fd].events)) == Wanted(was)
    {
    }

    /** Kill descriptors, one after the other. */
    method KillAll(fds: seq<nat>, ghost from: nat)
      requires Valid(from) && forall fd <- fds :: fd < |anfds|
      modifies this`anfds, this`fdchanges, ios`active, loop`pendings, loop`pendingpri, loop.ws`pending
      ensures Valid(from) && |anfds| == |old(anfds)|
      ensures forall f :: HeadOf(f) == if f in fds then [] else old(HeadOf(f))
      ensures ActiveIos() < old(ActiveIos()) || (ActiveIos() == old(ActiveIos()) && fdchanges == old(fdchanges))
      ensures fds == [] ==> loop.Lists() == old(loop.Lists())
      ensures forall f :: old(MarkOf(f)) <= MarkOf(f)
    {
      hide Valid, Loop.Lists, ActiveIos, MarkOf;
      for i := 0 to |fds|
        invariant Valid(from) && |anfds| == |old(anfds)|
        invariant forall f :: HeadOf(f) == if f in fds[..i] then [] else old(HeadOf(f))
        invariant ActiveIos() < old(ActiveIos()) || (ActiveIos() == old(ActiveIos()) && fdchanges == old(fdchanges))
        invariant i == 0 ==> loop.Lists() == old(loop.Lists())
        invariant forall f :: old(MarkOf(f)) <= MarkOf(f)
      {
        assert fds[i] in fds;
        FdKill(fds[i], from);
        assert fds[..i + 1] == fds[..i] + [fds[i]];
      }
      assert fds[..|fds|] == fds;
    }

    /** A round of fd_reify.  If the backend is called, it may kill the descriptors of kills[0]. */
    method ReifyOne(i: nat, kills: seq<seq<nat>>) returns (rest: seq<seq<nat>>, modified: bool)
      requires Valid(i) && i < |fdchanges| && forall fds <- kills, fd <- fds :: fd < |anfds|
      modifies this`anfds, this`fdchanges, poll, ios`active, loop`pendings, loop`pendingpri, loop.ws`pending
      ensures Valid(i + 1) && |anfds| == |old(anfds)| && (rest == kills || (kills != [] && rest == kills[1..]))
      ensures forall f :: HeadOf(f) == old(HeadOf(f)) || (HeadOf(f) == [] && kills != [] && f in kills[0])
      ensures ActiveIos() < old(ActiveIos()) || (ActiveIos() == old(ActiveIos()) && fdchanges == old(fdchanges))
      ensures kills == [] ==> loop.Lists() == old(loop.Lists())
      ensures i < |old(fdchanges)| && old(fdchanges)[i] < |old(anfds)| && modified == old(MustTell(fdchanges[i]))
      ensures forall f :: f != old(fdchanges)[i] ==> old(MarkOf(f)) <= MarkOf(f)
    {
      hide Valid, Loop.Lists, ActiveIos, HeadOf, MarkOf, MustTell;
      modified := Refresh(i);
      rest := kills;
      if modified && kills != [] {
        KillAll(kills[0], i + 1);
        rest := kills[1..];
      }
    }

    /** fd_reify.  Afterwards the change list is empty, and for every descriptor the poll set holds just
        what its watchers wait for; descriptors are killed only by the backend.  told: the descriptors that
        were passed to the backend, among them all that were set anew. */
    method FdReify(kills: seq<seq<nat>>) returns (told: seq<nat>)
      requires Valid(0) && forall fds <- kills, fd <- fds :: fd < |anfds|
      modifies this`anfds, this`fdchanges, poll, ios`active, loop`pendings, loop`pendingpri, loop.ws`pending
      ensures Valid(0) && fdchanges == [] && |anfds| == |old(anfds)|
      ensures forall fd :: 0 <= fd < |anfds| ==> anfds[fd].reify == {}
      ensures forall f :: HeadOf(f) == old(HeadOf(f)) || (HeadOf(f) == [] && exists fds <- kills :: f in fds)
      ensures kills == [] ==> loop.Lists() == old(loop.Lists())
      ensures forall f :: FdSet in old(MarkOf(f)) ==> f in told
    {
      hide Registered, SyncedBut, Polled, Known, NotedIn, Loop.Lists, ActiveIos, HeadOf, MustTell;
      told := [];
      var i := 0;
      var rest: seq<seq<nat>> := kills;
      while i < |fdchanges|
        invariant Valid(i) && |anfds| == |old(anfds)|
        invariant (forall fds <- rest :: fds in kills) && forall fds <- rest, fd <- fds :: fd < |anfds|
        invariant forall f :: HeadOf(f) == old(HeadOf(f)) || (HeadOf(f) == [] && exists fds <- kills :: f in fds)
        invariant kills == [] ==> rest == [] && loop.Lists() == old(loop.Lists())
        invariant forall f :: FdSet in old(MarkOf(f)) ==> f in told || FdSet in MarkOf(f)
        decreases ActiveIos(), |fdchanges| - i
      {
        var fd, modified := fdchanges[i], false;
        MarkTells(fd);
        rest, modified := ReifyOne(i, rest);
        if modified {
          told := told + [fd];
        }
        i := i + 1;
      }
      assert fdchanges[i..] == [];
      fdchanges := [];
      NoneNoted();
    }

    lemma MarkTells(fd: nat)
      ensures FdSet in MarkOf(fd) ==> fd < |anfds| && MustTell(fd)
    {
    }

    lemma NoneNoted()
      requires NotedIn([], anfds)
      ensures forall fd :: 0 <= fd < |anfds| ==> anfds[fd].reify == {}
    {
    }

    /** When nothing is left to be reified, the poll set is exactly what the watchers wait for. */
    lemma PollSet(fd: nat)
      requires Valid(0) && fdchanges == []
      ensures poll.Asked(fd) == Union(HeadOf(fd))
      ensures forall x <- ios :: x.active && x.fd == fd ==> x.events <= poll.Asked(fd)
    {
      if fd < |anfds| {
        assert InSync(fd);
        forall x <- ios | x.active && x.fd == fd
          ensures x.events <= Union(HeadOf(fd))
        {
          assert OnList(x);
        }
      } else {
        assert Union(HeadOf(fd)) == {};
      }
    }
  }
}
