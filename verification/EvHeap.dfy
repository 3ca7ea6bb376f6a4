/** libev's watchers and the 4-ary heap that keeps its timers: what moving an entry up or down does
    to the order, on sequences.  The first entry of the heap is at index HEAP0. */
module EvHeap {

  /** The fields of ev_watcher and ev_timer that the scheduler core uses.  The priority is counted
      from 0 and fixed. */
  class Watcher {
    var active: int
    var pending: nat
    const priority: nat
    var at: real
    var repeat: real

    constructor (priority: nat, at: real, repeat: real)
      ensures active == 0 && pending == 0 && this.priority == priority && this.at == at && this.repeat == repeat
    {
      active, pending, this.priority, this.at, this.repeat := 0, 0, priority, at, repeat;
    }
  }

  /** A heap entry: a watcher and its cached time. */
  datatype Anhe = Anhe(at: real, w: Watcher)

  const DHEAP := 4
  const HEAP0 := 3

  /** HPARENT, with C's division: the parent of the root is the root. */
  function Parent(k: nat): (p: nat)
    requires k >= HEAP0
    ensures HEAP0 <= p <= k && (k > HEAP0 ==> p < k)
  {
    if k == HEAP0 then HEAP0 else (k - HEAP0 - 1) / DHEAP + HEAP0
  }

  function FirstChild(k: nat): nat
    requires k >= HEAP0
  {
    DHEAP * (k - HEAP0) + HEAP0 + 1
  }

  lemma ParentOfChild(i: nat, k: nat)
    requires i > HEAP0 && k >= HEAP0
    ensures Parent(i) == k <==> FirstChild(k) <= i < FirstChild(k) + DHEAP
  {
  }

  /** The entry at i is not before its parent. */
  ghost predicate Below(s: seq<Anhe>, i: nat)
    requires HEAP0 <= i < |s|
  {
    s[Parent(i)].at <= s[i].at
  }

  /** A heap with n entries. */
  ghost predicate IsHeap(s: seq<Anhe>, n: nat)
    requires n + HEAP0 <= |s|
  {
    forall i :: HEAP0 < i < n + HEAP0 ==> Below(s, i)
  }

  /** The children of k are not before k's parent. */
  ghost predicate Grandparent(s: seq<Anhe>, n: nat, k: nat)
    requires n + HEAP0 <= |s| && HEAP0 <= k < n + HEAP0
  {
    forall i :: HEAP0 < i < n + HEAP0 && Parent(i) == k ==> s[Parent(k)].at <= s[i].at
  }

  /** A heap but for k, which may be before its parent. */
  ghost predicate HeapButUp(s: seq<Anhe>, n: nat, k: nat)
    requires n + HEAP0 <= |s| && HEAP0 <= k < n + HEAP0
  {
    && (forall i :: HEAP0 < i < n + HEAP0 && i != k ==> Below(s, i))
    && (k > HEAP0 ==> Grandparent(s, n, k))
  }

  /** A heap but for k, which may be behind its children. */
  ghost predicate HeapButDown(s: seq<Anhe>, n: nat, k: nat)
    requires n + HEAP0 <= |s| && HEAP0 <= k < n + HEAP0
  {
    && (forall i :: HEAP0 < i < n + HEAP0 && Parent(i) != k ==> Below(s, i))
    && (k > HEAP0 ==> Grandparent(s, n, k))
  }

  function Swap(s: seq<Anhe>, i: nat, j: nat): seq<Anhe>
    requires i < |s| && j < |s|
  {
    s[i := s[j]][j := s[i]]
  }

  /** upheap: move the entry at k towards the root as long as its parent is behind it. */
  function Up(s: seq<Anhe>, k: nat): (t: seq<Anhe>)
    requires HEAP0 <= k < |s|
    ensures |t| == |s|
    decreases k
  {
    var p := Parent(k);
    if p == k || s[p].at <= s[k].at then s else Up(Swap(s, k, p), p)
  }

  /** The first of the earliest children at pos.., bounded by end. */
  function MinChild(s: seq<Anhe>, pos: nat, end: nat): (m: nat)
    requires pos < end <= |s|
    ensures pos <= m < end && m < pos + DHEAP
    ensures forall i :: pos <= i < end && i < pos + DHEAP ==> s[m].at <= s[i].at
  {
    var a := pos;
    var b := if pos + 1 < end && s[pos + 1].at < s[a].at then pos + 1 else a;
    var c := if pos + 2 < end && s[pos + 2].at < s[b].at then pos + 2 else b;
    if pos + 3 < end && s[pos + 3].at < s[c].at then pos + 3 else c
  }

  /** downheap: move the entry at k away from the root as long as a child is before it. */
  function Down(s: seq<Anhe>, n: nat, k: nat): (t: seq<Anhe>)
    requires n + HEAP0 <= |s| && HEAP0 <= k < n + HEAP0
    ensures |t| == |s|
    decreases n + HEAP0 - k
  {
    var pos := FirstChild(k);
    if pos >= n + HEAP0 then s
    else
      var m := MinChild(s, pos, n + HEAP0);
      if s[k].at <= s[m].at then s else Down(Swap(s, k, m), n, m)
  }

  // ----- order

  lemma SwapUp(s: seq<Anhe>, n: nat, k: nat)
    requires n + HEAP0 <= |s| && HEAP0 < k < n + HEAP0 && HeapButUp(s, n, k) && s[Parent(k)].at > s[k].at
    ensures HeapButUp(Swap(s, k, Parent(k)), n, Parent(k))
  {
    var p := Parent(k);
    var t := Swap(s, k, p);
    forall i | HEAP0 < i < n + HEAP0 && i != p
      ensures Below(t, i)
    {
      assert i != k ==> Below(s, i);
    }
    if p > HEAP0 {
      assert Below(s, p);
      forall i | HEAP0 < i < n + HEAP0 && Parent(i) == p
        ensures t[Parent(p)].at <= t[i].at
      {
        assert i != k ==> Below(s, i);
      }
    }
  }

  /** Moving up repairs a heap in which one entry is too far down. */
  lemma {:induction false} UpIsHeap(s: seq<Anhe>, n: nat, k: nat)
    requires n + HEAP0 <= |s| && HEAP0 <= k < n + HEAP0 && HeapButUp(s, n, k)
    ensures IsHeap(Up(s, k), n)
    decreases k
  {
    var p := Parent(k);
    if p == k || s[p].at <= s[k].at {
      assert k > HEAP0 ==> Below(s, k);
    } else {
      SwapUp(s, n, k);
      UpIsHeap(Swap(s, k, p), n, p);
    }
  }

  lemma SwapDown(s: seq<Anhe>, n: nat, k: nat)
    requires n + HEAP0 <= |s| && HEAP0 <= k < n + HEAP0 && HeapButDown(s, n, k) && FirstChild(k) < n + HEAP0
    requires s[k].at > s[MinChild(s, FirstChild(k), n + HEAP0)].at
    ensures var m := MinChild(s, FirstChild(k), n + HEAP0); HeapButDown(Swap(s, k, m), n, m)
  {
    var m := MinChild(s, FirstChild(k), n + HEAP0);
    var t := Swap(s, k, m);
    ParentOfChild(m, k);
    forall i | HEAP0 < i < n + HEAP0 && Parent(i) != m
      ensures Below(t, i)
    {
      ParentOfChild(i, k);
      assert Parent(i) != k ==> Below(s, i);
      if Parent(i) == k {
        assert s[m].at <= s[i].at;
      }
    }
    forall i | HEAP0 < i < n + HEAP0 && Parent(i) == m
      ensures t[Parent(m)].at <= t[i].at
    {
      assert Below(s, i);
    }
  }

  /** Moving down repairs a heap in which one entry is too far up. */
  lemma {:induction false} DownIsHeap(s: seq<Anhe>, n: nat, k: nat)
    requires n + HEAP0 <= |s| && HEAP0 <= k < n + HEAP0 && HeapButDown(s, n, k)
    ensures IsHeap(Down(s, n, k), n)
    decreases n + HEAP0 - k
  {
    var pos := FirstChild(k);
    if pos >= n + HEAP0 || s[k].at <= s[MinChild(s, pos, n + HEAP0)].at {
      forall i | HEAP0 < i < n + HEAP0
        ensures Below(s, i)
      {
        ParentOfChild(i, k);
      }
    } else {
      SwapDown(s, n, k);
      var m := MinChild(s, pos, n + HEAP0);
      DownIsHeap(Swap(s, k, m), n, m);
    }
  }

  /** The root is the earliest entry. */
  lemma {:induction false} RootIsMin(s: seq<Anhe>, n: nat, i: nat)
    requires n + HEAP0 <= |s| && HEAP0 <= i < n + HEAP0 && IsHeap(s, n)
    ensures s[HEAP0].at <= s[i].at
    decreases i
  {
    if i > HEAP0 {
      assert Below(s, i);
      RootIsMin(s, n, Parent(i));
    }
  }

  // ----- contents

  /** The entries of a heap with n entries. */
  ghost function Entries(s: seq<Anhe>, n: nat): set<Anhe>
    requires n + HEAP0 <= |s|
  {
    set i | HEAP0 <= i < n + HEAP0 :: s[i]
  }

  ghost predicate Distinct(s: seq<Anhe>, n: nat)
    requires n + HEAP0 <= |s|
  {
    forall i, j :: HEAP0 <= i < j < n + HEAP0 ==> s[i].w != s[j].w
  }

  lemma SwapEntries(s: seq<Anhe>, n: nat, i: nat, j: nat)
    requires n + HEAP0 <= |s| && HEAP0 <= i < n + HEAP0 && HEAP0 <= j < n + HEAP0
    ensures Entries(Swap(s, i, j), n) == Entries(s, n)
    ensures Distinct(s, n) ==> Distinct(Swap(s, i, j), n)
  {
    var t := Swap(s, i, j);
    forall e | e in Entries(s, n)
      ensures e in Entries(t, n)
    {
      var k :| HEAP0 <= k < n + HEAP0 && s[k] == e;
      var l := if k == i then j else if k == j then i else k;
      assert t[l] == e;
    }
    forall e | e in Entries(t, n)
      ensures e in Entries(s, n)
    {
      var k :| HEAP0 <= k < n + HEAP0 && t[k] == e;
      var l := if k == i then j else if k == j then i else k;
      assert s[l] == e;
    }
  }

  /** Moving up keeps the entries, and what is behind k. */
  lemma {:induction false} UpEntries(s: seq<Anhe>, n: nat, k: nat)
    requires n + HEAP0 <= |s| && HEAP0 <= k < n + HEAP0
    ensures Entries(Up(s, k), n) == Entries(s, n)
    ensures Distinct(s, n) ==> Distinct(Up(s, k), n)
    ensures forall i :: k < i < |s| ==> Up(s, k)[i] == s[i]
    decreases k
  {
    var p := Parent(k);
    if !(p == k || s[p].at <= s[k].at) {
      SwapEntries(s, n, k, p);
      UpEntries(Swap(s, k, p), n, p);
    }
  }

  /** Moving down keeps the entries. */
  lemma {:induction false} DownEntries(s: seq<Anhe>, n: nat, k: nat)
    requires n + HEAP0 <= |s| && HEAP0 <= k < n + HEAP0
    ensures Entries(Down(s, n, k), n) == Entries(s, n)
    ensures Distinct(s, n) ==> Distinct(Down(s, n, k), n)
    decreases n + HEAP0 - k
  {
    var pos := FirstChild(k);
    if pos < n + HEAP0 {
      var m := MinChild(s, pos, n + HEAP0);
      if s[k].at > s[m].at {
        SwapEntries(s, n, k, m);
        DownEntries(Swap(s, k, m), n, m);
      }
    }
  }

  // ----- in place

  /** The watchers of a heap. */
  ghost function Watchers(s: seq<Anhe>, n: nat): set<Watcher>
    requires n + HEAP0 <= |s|
  {
    set i | HEAP0 <= i < n + HEAP0 :: s[i].w
  }

  /** Every watcher of the heap, except possibly the one at k, knows its index. */
  ghost predicate IndexedBut(s: seq<Anhe>, n: nat, k: int)
    requires n + HEAP0 <= |s|
    reads Watchers(s, n)`active
  {
    forall i :: HEAP0 <= i < n + HEAP0 && i != k ==> s[i].w.active == i
  }

  /** upheap, with a hole instead of swaps; n is the number of entries. */
  method UpHeap(heap: array<Anhe>, ghost n: nat, k0: nat)
    requires n + HEAP0 <= heap.Length && HEAP0 <= k0 < n + HEAP0
    requires Distinct(heap[..], n) && IndexedBut(heap[..], n, k0)
    modifies heap, Watchers(heap[..], n)`active
    ensures heap[..] == Up(old(heap[..]), k0)
    ensures Watchers(heap[..], n) == old(Watchers(heap[..], n)) && IndexedBut(heap[..], n, -1)
  {
    var k, he := k0, heap[k0];
    ghost var ws := Watchers(heap[..], n);
    ghost var s := heap[..];
    while true
      invariant HEAP0 <= k < n + HEAP0 && |s| == heap.Length
      invariant s == heap[..][k := he]
      invariant Up(s, k) == Up(old(heap[..]), k0)
      invariant Distinct(s, n) && Watchers(s, n) == ws && IndexedBut(s, n, k)
      decreases k
    {
      var p := Parent(k);
      if p == k || heap[p].at <= he.at {
        break;
      }
      SwapEntries(s, n, k, p);
      SwapWatchers(s, n, k, p);
      s := Swap(s, k, p);
      heap[k] := heap[p];
      heap[k].w.active := k;
      k := p;
    }
    heap[k] := he;
    he.w.active := k;
    assert heap[..] == s;
  }

  lemma SwapWatchers(s: seq<Anhe>, n: nat, i: nat, j: nat)
    requires n + HEAP0 <= |s| && HEAP0 <= i < n + HEAP0 && HEAP0 <= j < n + HEAP0
    ensures Watchers(Swap(s, i, j), n) == Watchers(s, n)
  {
    EntriesWatchers(s, n);
    EntriesWatchers(Swap(s, i, j), n);
    SwapEntries(s, n, i, j);
  }

  lemma EntriesWatchers(s: seq<Anhe>, n: nat)
    requires n + HEAP0 <= |s|
    ensures Watchers(s, n) == set e | e in Entries(s, n) :: e.w
  {
    forall w | w in Watchers(s, n)
      ensures w in set e | e in Entries(s, n) :: e.w
    {
      var i :| HEAP0 <= i < n + HEAP0 && s[i].w == w;
      assert s[i] in Entries(s, n);
    }
  }

  /** The search for the earliest child, with its fast path for four children. */
  method FindMinChild(heap: array<Anhe>, pos: nat, end: nat) returns (m: nat)
    requires pos < end <= heap.Length
    ensures m == MinChild(heap[..], pos, end)
  {
    m := pos;
    var minat := heap[m].at;
    if pos + DHEAP - 1 < end {
      if heap[pos + 1].at < minat { m := pos + 1; minat := heap[m].at; }
      if heap[pos + 2].at < minat { m := pos + 2; minat := heap[m].at; }
      if heap[pos + 3].at < minat { m := pos + 3; minat := heap[m].at; }
    } else {
      if pos + 1 < end && heap[pos + 1].at < minat { m := pos + 1; minat := heap[m].at; }
      if pos + 2 < end && heap[pos + 2].at < minat { m := pos + 2; minat := heap[m].at; }
      assert !(pos + 3 < end);  // so the source's fourth comparison, which asks this first, is not made
    }
  }

  /** MinChild looks at the children only. */
  lemma MinChildSame(s: seq<Anhe>, t: seq<Anhe>, pos: nat, end: nat)
    requires pos < end <= |s| == |t| && forall i :: pos <= i < end ==> s[i] == t[i]
    ensures MinChild(s, pos, end) == MinChild(t, pos, end)
  {
  }

  lemma WatcherIn(s: seq<Anhe>, n: nat, i: nat)
    requires n + HEAP0 <= |s| && HEAP0 <= i < n + HEAP0
    ensures s[i].w in Watchers(s, n)
  {
  }

  lemma DownStep(s: seq<Anhe>, n: nat, k: nat)
    requires n + HEAP0 <= |s| && HEAP0 <= k < n + HEAP0
    ensures var pos := FirstChild(k);
            if pos < n + HEAP0 && s[MinChild(s, pos, n + HEAP0)].at < s[k].at
            then var m := MinChild(s, pos, n + HEAP0); Down(s, n, k) == Down(Swap(s, k, m), n, m)
            else Down(s, n, k) == s
  {
  }

  /** downheap, with a hole instead of swaps. */
  method DownHeap(heap: array<Anhe>, n: nat, k0: nat)
    requires n + HEAP0 <= heap.Length && HEAP0 <= k0 < n + HEAP0
    requires Distinct(heap[..], n) && IndexedBut(heap[..], n, k0)
    modifies heap, Watchers(heap[..], n)`active
    ensures heap[..] == Down(old(heap[..]), n, k0)
    ensures Watchers(heap[..], n) == old(Watchers(heap[..], n)) && IndexedBut(heap[..], n, -1)
  {
    hide MinChild, Entries, Down, Watchers;
    var k, he := k0, heap[k0];
    ghost var ws := Watchers(heap[..], n);
    ghost var s := heap[..];
    while true
      invariant HEAP0 <= k < n + HEAP0 && |s| == heap.Length
      invariant s == heap[..][k := he]
      invariant Down(s, n, k) == Down(old(heap[..]), n, k0)
      invariant Distinct(s, n) && Watchers(s, n) == ws && IndexedBut(s, n, k)
      decreases n + HEAP0 - k
    {
      DownStep(s, n, k);
      var pos := FirstChild(k);
      if pos >= n + HEAP0 {
        break;
      }
      var m := FindMinChild(heap, pos, n + HEAP0);
      MinChildSame(s, heap[..], pos, n + HEAP0);
      if he.at <= heap[m].at {
        break;
      }
      SwapEntries(s, n, k, m);
      SwapWatchers(s, n, k, m);
      WatcherIn(s, n, m);
      s := Swap(s, k, m);
      heap[k] := heap[m];
      heap[k].w.active := k;
      k := m;
    }
    WatcherIn(s, n, k);
    heap[k] := he;
    he.w.active := k;
    assert heap[..] == s;
  }

  /** The heap that adjustheap makes of s. */
  function Adjusted(s: seq<Anhe>, n: nat, k: nat): (t: seq<Anhe>)
    requires n + HEAP0 <= |s| && HEAP0 <= k < n + HEAP0
    ensures |t| == |s|
  {
    if k > HEAP0 && s[k].at <= s[Parent(k)].at then Up(s, k) else Down(s, n, k)
  }

  /** adjustheap */
  method AdjustHeap(heap: array<Anhe>, n: nat, k: nat)
    requires n + HEAP0 <= heap.Length && HEAP0 <= k < n + HEAP0
    requires Distinct(heap[..], n) && IndexedBut(heap[..], n, k)
    modifies heap, Watchers(heap[..], n)`active
    ensures heap[..] == Adjusted(old(heap[..]), n, k)
    ensures Watchers(heap[..], n) == old(Watchers(heap[..], n)) && IndexedBut(heap[..], n, -1)
  {
    if k > HEAP0 && heap[k].at <= heap[Parent(k)].at {
      UpHeap(heap, n, k);
    } else {
      DownHeap(heap, n, k);
    }
  }

  /** A heap but for k, whose time is arbitrary. */
  ghost predicate HeapBut(s: seq<Anhe>, n: nat, k: nat)
    requires n + HEAP0 <= |s| && HEAP0 <= k < n + HEAP0
  {
    && (forall i :: HEAP0 < i < n + HEAP0 && i != k && Parent(i) != k ==> Below(s, i))
    && (k > HEAP0 ==> Grandparent(s, n, k))
  }

  /** adjustheap repairs a heap in which one entry is anywhere. */
  lemma AdjustedIsHeap(s: seq<Anhe>, n: nat, k: nat)
    requires n + HEAP0 <= |s| && HEAP0 <= k < n + HEAP0 && HeapBut(s, n, k)
    ensures IsHeap(Adjusted(s, n, k), n)
    ensures Entries(Adjusted(s, n, k), n) == Entries(s, n)
    ensures Distinct(s, n) ==> Distinct(Adjusted(s, n, k), n)
  {
    UpEntries(s, n, k);
    DownEntries(s, n, k);
    if k > HEAP0 && s[k].at <= s[Parent(k)].at {
      forall i | HEAP0 < i < n + HEAP0 && i != k
        ensures Below(s, i)
      {
      }
      UpIsHeap(s, n, k);
    } else {
      assert k > HEAP0 ==> Below(s, k);
      DownIsHeap(s, n, k);
    }
  }

  /** Any entry of a heap may change its time, or be replaced. */
  lemma HeapButReplaced(s: seq<Anhe>, n: nat, k: nat, e: Anhe)
    requires n + HEAP0 <= |s| && HEAP0 <= k < n + HEAP0 && IsHeap(s, n)
    ensures HeapBut(s[k := e], n, k)
  {
    var t := s[k := e];
    forall i | HEAP0 < i < n + HEAP0 && i != k && Parent(i) != k
      ensures Below(t, i)
    {
      assert Below(s, i);
    }
    if k > HEAP0 {
      forall i | HEAP0 < i < n + HEAP0 && Parent(i) == k
        ensures t[Parent(k)].at <= t[i].at
      {
        assert Below(s, i) && Below(s, k);
      }
    }
  }

  /** reheap: make a heap of n entries in any order, whatever indices their watchers have. */
  method ReHeap(heap: array<Anhe>, n: nat)
    requires n + HEAP0 <= heap.Length && Distinct(heap[..], n)
    modifies heap, Watchers(heap[..], n)`active
    ensures IsHeap(heap[..], n) && Distinct(heap[..], n) && IndexedBut(heap[..], n, -1)
    ensures Entries(heap[..], n) == old(Entries(heap[..], n))
  {
    ghost var ws := Watchers(heap[..], n);
    for i := 0 to n
      invariant IsHeap(heap[..], i) && Distinct(heap[..], n) && IndexedBut(heap[..], i, -1)
      invariant Entries(heap[..], n) == old(Entries(heap[..], n)) && Watchers(heap[..], n) == ws
    {
      ghost var s := heap[..];
      forall j | HEAP0 < j < i + 1 + HEAP0 && j != i + HEAP0
        ensures Below(s, j)
      {
      }
      assert HeapButUp(s, i + 1, i + HEAP0);
      UpIsHeap(s, i + 1, i + HEAP0);
      UpEntries(s, n, i + HEAP0);
      FewerWatchers(s, i + 1, n);
      UpHeap(heap, i + 1, i + HEAP0);
      EntriesWatchers(s, n);
      EntriesWatchers(heap[..], n);
    }
  }

  lemma FewerWatchers(s: seq<Anhe>, m: nat, n: nat)
    requires m <= n && n + HEAP0 <= |s|
    ensures Watchers(s, m) <= Watchers(s, n)
    ensures Distinct(s, n) ==> Distinct(s, m)
  {
  }

  // ----- adding, removing and changing an entry

  /** t is s with e added behind its n entries. */
  lemma Appended(s: seq<Anhe>, t: seq<Anhe>, n: nat, e: Anhe)
    requires n + HEAP0 <= |s| && n + HEAP0 < |t|
    requires (forall i :: HEAP0 <= i < n + HEAP0 ==> t[i] == s[i]) && t[n + HEAP0] == e
    requires IsHeap(s, n) && Distinct(s, n) && e.w !in Watchers(s, n)
    ensures HeapButUp(t, n + 1, n + HEAP0) && Distinct(t, n + 1)
    ensures Entries(t, n + 1) == Entries(s, n) + {e} && Watchers(t, n + 1) == Watchers(s, n) + {e.w}
  {
    assert Entries(t, n + 1) == Entries(s, n) + {e} by {
      forall i | HEAP0 <= i < n + HEAP0
        ensures s[i] in Entries(t, n + 1)
      {
        assert s[i] == t[i];
      }
    }
    assert Watchers(t, n + 1) == Watchers(s, n) + {e.w} by {
      forall i | HEAP0 <= i < n + HEAP0
        ensures s[i].w in Watchers(t, n + 1)
      {
        assert s[i].w == t[i].w;
      }
    }
    forall i | HEAP0 < i < n + 1 + HEAP0 && i != n + HEAP0
      ensures Below(t, i)
    {
      assert Below(s, i);
    }
  }

  lemma RemovedEntries(s: seq<Anhe>, n: nat, k: nat)
    requires n + 1 + HEAP0 <= |s| && HEAP0 <= k < n + 1 + HEAP0 && Distinct(s, n + 1)
    ensures var t := s[k := s[n + HEAP0]];
            Entries(t, n) == Entries(s, n + 1) - {s[k]} && Watchers(t, n) == Watchers(s, n + 1) - {s[k].w}
  {
    var t := s[k := s[n + HEAP0]];
    forall i | HEAP0 <= i < n + 1 + HEAP0 && i != k
      ensures s[i] in Entries(t, n) && s[i].w in Watchers(t, n)
    {
      assert t[if i == n + HEAP0 then k else i] == s[i];
    }
    assert forall i :: HEAP0 <= i < n + HEAP0 ==> t[i] == s[if i == k then n + HEAP0 else i];
  }

  /** s with the last of its n + 1 entries moved to k, where the entry of k is lost. */
  lemma Removed(s: seq<Anhe>, n: nat, k: nat)
    requires n + 1 + HEAP0 <= |s| && HEAP0 <= k < n + 1 + HEAP0 && IsHeap(s, n + 1) && Distinct(s, n + 1)
    ensures var t := s[k := s[n + HEAP0]];
            && Distinct(t, n) && Entries(t, n) == Entries(s, n + 1) - {s[k]}
            && Watchers(t, n) == Watchers(s, n + 1) - {s[k].w}
            && (if k < n + HEAP0 then HeapBut(t, n, k) else IsHeap(t, n))
  {
    RemovedEntries(s, n, k);
    hide Entries, Watchers, HeapBut;
    forall i | HEAP0 < i < n + HEAP0
      ensures Below(s, i)
    {
    }
    if k < n + HEAP0 {
      HeapButReplaced(s, n, k, s[n + HEAP0]);
    } else {
      assert s[k := s[n + HEAP0]] == s;
    }
  }

  /** t is s with the entry at k replaced by one for the same watcher. */
  lemma Changed(s: seq<Anhe>, n: nat, k: nat, e: Anhe)
    requires n + HEAP0 <= |s| && HEAP0 <= k < n + HEAP0 && IsHeap(s, n) && Distinct(s, n) && e.w == s[k].w
    ensures var t := s[k := e];
            && Distinct(t, n) && Entries(t, n) == Entries(s, n) - {s[k]} + {e}
            && Watchers(t, n) == Watchers(s, n) && HeapBut(t, n, k)
  {
    var t := s[k := e];
    HeapButReplaced(s, n, k, e);
    forall i | HEAP0 <= i < n + HEAP0
      ensures i != k ==> s[i] in Entries(t, n)
      ensures s[i].w in Watchers(t, n)
    {
      assert i != k ==> t[i] == s[i];
      assert t[i].w == s[i].w;
    }
    assert t[k] in Entries(t, n);
  }
}
