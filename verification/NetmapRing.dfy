/** The netmap receive ring.  The buffers of received packets go to the stack without a copy as long as
    the pool has contexts for them; behind the current slot, a stretch of reserved slots waits for the
    buffers to come back. */
module NetmapRing {
  import opened NetmapCirc
  import opened NetmapPool

  /** Every buffer is in one slot in use or is held by one bufinfo. */
  ghost predicate Conserved(live: seq<nat>, nm: seq<nat>, held: set<nat>, buffers: set<nat>) {
    && NoRepeat(live) && (forall b <- live :: b in buffers)
    && (forall bi <- held :: bi < |nm| && nm[bi] in buffers && nm[bi] !in live)
    && (forall bi <- held, bj <- held :: bi != bj ==> nm[bi] != nm[bj])
    && (forall b <- buffers :: b in live || exists bi <- held :: nm[bi] == b)
  }

  /** The first buffer goes to the stack, with the bufinfo bi. */
  lemma Lend(b: nat, rest: seq<nat>, nm: seq<nat>, held: set<nat>, buffers: set<nat>, bi: nat)
    requires Conserved([b] + rest, nm, held, buffers) && bi !in held && bi < |nm|
    ensures Conserved(rest, nm[bi := b], held + {bi}, buffers)
  {
    var live, nm', held' := [b] + rest, nm[bi := b], held + {bi};
    assert live[0] == b && forall k :: 0 <= k < |rest| ==> live[k + 1] == rest[k];
    assert forall x :: x in live <==> x == b || x in rest;
    assert b !in rest by {
      assert forall j :: 1 <= j < |live| ==> live[j] != live[0];
    }
    forall x <- buffers
      ensures x in rest || exists j <- held' :: nm'[j] == x
    {
      if x == b {
        assert nm'[bi] == x;
      } else if x !in rest {
        var j :| j in held && nm[j] == x;
        assert nm'[j] == x;
      }
    }
    assert NoRepeat(rest) by {
      forall i, j | 0 <= i < j < |rest|
        ensures rest[i] != rest[j]
      {
        assert live[i + 1] != live[j + 1];
      }
    }
  }

  /** What a bufinfo says that is not held does not matter. */
  lemma NotHeldNoMatter(live: seq<nat>, nm: seq<nat>, held: set<nat>, buffers: set<nat>, bi: nat, b: nat)
    requires Conserved(live, nm, held, buffers) && bi !in held && bi < |nm|
    ensures Conserved(live, nm[bi := b], held, buffers)
  {
    forall x <- buffers
      ensures x in live || exists j <- held :: nm[bi := b][j] == x
    {
      if x !in live {
        var j :| j in held && nm[j] == x;
        assert nm[bi := b][j] == x;
      }
    }
  }

  /** The first buffer is put back at the end. */
  lemma Rotate(b: nat, rest: seq<nat>, nm: seq<nat>, held: set<nat>, buffers: set<nat>)
    requires Conserved([b] + rest, nm, held, buffers)
    ensures Conserved(rest + [b], nm, held, buffers)
  {
    var live, live' := [b] + rest, rest + [b];
    assert live[0] == b && forall k :: 0 <= k < |rest| ==> live[k + 1] == rest[k];
    assert forall x :: x in live <==> x == b || x in rest;
    assert forall x :: x in live' <==> x == b || x in rest;
    forall i, j | 0 <= i < j < |live'|
      ensures live'[i] != live'[j]
    {
      if j == |rest| {
        assert live[i + 1] != live[0];
      } else {
        assert live[i + 1] != live[j + 1];
      }
    }
  }

  /** The buffer that bi holds comes back. */
  lemma Return(live: seq<nat>, nm: seq<nat>, held: set<nat>, buffers: set<nat>, bi: nat)
    requires Conserved(live, nm, held, buffers) && bi in held
    ensures Conserved(live + [nm[bi]], nm, held - {bi}, buffers)
  {
    var live', held' := live + [nm[bi]], held - {bi};
    assert forall x :: x in live' <==> x == nm[bi] || x in live;
    forall x <- buffers
      ensures x in live' || exists j <- held' :: nm[j] == x
    {
      if x !in live' {
        var j :| j in held && nm[j] == x;
        assert j in held';
      }
    }
  }

  /** NETMAP_RING_NEXT */
  function NextSlot(i: nat, size: nat): nat { if i + 1 == size then 0 else i + 1 }

  /** Where the reserved stretch begins is just behind the slots in use. */
  lemma BeginBehind(cur: nat, begin: nat, lent: nat, size: nat)
    requires begin < size && lent < size && cur == Wrap(begin + lent, size)
    ensures cur < size && Wrap(cur + (size - lent), size) == begin
  {
  }

  /** Reading a slot and writing its buffer to the begin of the reserved stretch. */
  lemma PutBackLive(s: seq<nat>, cur: nat, begin: nat, lent: nat)
    requires begin < |s| && lent < |s| && cur == Wrap(begin + lent, |s|)
    ensures cur < |s| && NextSlot(cur, |s|) == Wrap(NextSlot(begin, |s|) + lent, |s|)
    ensures var live := Circ(s, cur, |s| - lent);
            live[0] == s[cur] && Circ(s[begin := s[cur]], NextSlot(cur, |s|), |s| - lent) == live[1..] + [s[cur]]
  {
    CircFirst(s, cur, |s| - lent);
    BeginBehind(cur, begin, lent, |s|);
    CircAppend(s, NextSlot(cur, |s|), |s| - lent - 1, s[cur]);
  }

  /** Writing a buffer to the begin of the reserved stretch, which thereby becomes shorter. */
  lemma ReturnLive(s: seq<nat>, cur: nat, begin: nat, lent: nat, b: nat)
    requires begin < |s| && 0 < lent < |s| && cur == Wrap(begin + lent, |s|)
    ensures cur < |s| && cur == Wrap(NextSlot(begin, |s|) + (lent - 1), |s|)
    ensures Circ(s[begin := b], cur, |s| - (lent - 1)) == Circ(s, cur, |s| - lent) + [b]
  {
    BeginBehind(cur, begin, lent, |s|);
    CircAppend(s, cur, |s| - lent, b);
  }

  /** What happens to a packet: whether there is no mbuf for it, and what other threads do before it is
      looked at and once it was tried to get a bufinfo for it. */
  datatype Round = Round(before: seq<FreeStep>, nomem: bool, env: seq<FreeStep>)

  /** One pass of the receive loop: how many packets the kernel reports, and what happens.  Other threads
      may free at any time: between passes, with each packet, and before and in the sweep. */
  datatype Pass = Pass(before: seq<FreeStep>, avail: nat, rounds: seq<Round>,
                       beforeSweep: seq<FreeStep>, sweep: seq<seq<FreeStep>>)

  function RoundOf(rounds: seq<Round>, n: nat): Round {
    if n < |rounds| then rounds[n] else Round([], false, [])
  }

  /** Of the buffers seen, those that stay in the ring, when avail bufinfos are available: the packets
      for which there is no bufinfo left or no mbuf. */
  function Copied(seen: seq<nat>, rounds: seq<Round>, avail: nat): seq<nat>
    decreases |seen|
  {
    if seen == [] then []
    else
      var n := |seen| - 1;
      var before := Copied(seen[..n], rounds, avail);
      if n - |before| < avail && !RoundOf(rounds, n).nomem then before else before + [seen[n]]
  }

  /** No more packets are lent than there are bufinfos. */
  lemma {:induction false} CopiedSize(seen: seq<nat>, rounds: seq<Round>, avail: nat)
    ensures |seen| - |Copied(seen, rounds, avail)| <= avail && |Copied(seen, rounds, avail)| <= |seen|
    ensures seen == [] ==> Copied(seen, rounds, avail) == []
    decreases |seen|
  {
    if seen != [] {
      CopiedSize(seen[..|seen| - 1], rounds, avail);
    }
  }

  /** With the next packet. */
  lemma PacketCopied(live: seq<nat>, n: nat, rounds: seq<Round>, avail: nat)
    requires n < |live|
    ensures live[..n] + [live[n]] == live[..n + 1]
    ensures var copied := Copied(live[..n], rounds, avail);
            && |copied| <= n && (live[n..] + copied)[0] == live[n]
            && (live[n..] + copied)[1..] == live[n + 1..] + copied
            && (live[n..] + copied)[1..] + [live[n]] == live[n + 1..] + (copied + [live[n]])
            && Copied(live[..n + 1], rounds, avail)
               == if n - |copied| < avail && !RoundOf(rounds, n).nomem then copied else copied + [live[n]]
  {
    CopiedSize(live[..n], rounds, avail);
    assert live[..n + 1][..n] == live[..n];
  }

  /** The buffers of some bufinfos. */
  ghost function BuffersOf(nm: seq<nat>, bis: seq<nat>): seq<nat> {
    seq(|bis|, k requires 0 <= k < |bis| => if bis[k] < |nm| then nm[bis[k]] else 0)
  }

  lemma BuffersOfMore(nm: seq<nat>, list: seq<nat>, i: nat, j: nat)
    requires i <= j < |list| && list[j] < |nm|
    ensures BuffersOf(nm, list[i..j + 1]) == BuffersOf(nm, list[i..j]) + [nm[list[j]]]
  {
  }

  // ----- what a pass does to the pool

  /** A packet that has got the first bufinfo of v: it is undone if there is no mbuf. */
  ghost function Tried(v: View, nomem: bool, env: seq<FreeStep>): View
    requires v.avail > 0 && v.head < |v.free|
  {
    var b := AllStepped(Taken(v), env);
    if !nomem then b.(just := -1) else if b.just >= 0 then Untaken(b) else b
  }

  ghost function PacketPool(v: View, nomem: bool, env: seq<FreeStep>): View {
    if v.avail > 0 && v.head < |v.free| then Tried(v, nomem, env) else AllStepped(v, env)
  }

  /** The first n packets of a pass. */
  ghost function PacketsPool(v: View, rounds: seq<Round>, n: nat): View {
    if n == 0 then v
    else
      var r := RoundOf(rounds, n - 1);
      PacketPool(AllStepped(PacketsPool(v, rounds, n - 1), r.before), r.nomem, r.env)
  }

  function EnvAt(env: seq<seq<FreeStep>>, n: nat): seq<FreeStep> { if n < |env| then env[n] else [] }

  /** The first n rounds of a sweep. */
  ghost function SweepPool(v: View, env: seq<seq<FreeStep>>, n: nat): View {
    if n == 0 then v else SweptOne(AllStepped(SweepPool(v, env, n - 1), EnvAt(env, n - 1)))
  }

  /** A whole sweep of n bufinfos. */
  ghost function SweptPool(v: View, env: seq<seq<FreeStep>>, n: nat): View {
    var w := AllStepped(SweepPool(v, env, n), EnvAt(env, n));
    if w.swept <= w.returnable then SweepEnded(w) else w
  }

  /** When the sweep of a pass starts. */
  ghost function BeforeSweep(v: View, p: Pass): View {
    AllStepped(PacketsPool(AllStepped(v, p.before), p.rounds, p.avail), p.beforeSweep)
  }

  /** The ring between passes. */
  datatype Shot = Shot(size: nat, live: seq<nat>, nm: seq<nat>, pool: View, cur: nat, begin: nat, reserved: nat)

  /** What a pass has done: the buffers it read, in order, how many it returned to the ring, and where
      the kernel was told that the slots it may fill end. */
  datatype Report = Idle | Took(seen: seq<nat>, returned: nat, head: int)

  /** A pass, if the kernel can report that many packets: the packets are those in the ring when it
      starts.  Behind the others then come those of them that were copied, and behind these the buffers
      of the bufinfos that were freed, in the order in which they were freed, at least of those freed
      before the first packet.  The kernel may fill the slots up to where the reserved ones begin. */
  ghost predicate Passed(s: Shot, p: Pass, r: Report, s': Shot) {
    if 0 < p.avail <= s.size - s.reserved then
      && r.Took? && |s.live| == s.size - s.reserved && r.seen == s.live[..p.avail] && r.head == s'.begin
      && r.returned == BeforeSweep(s.pool, p).returnable >= AllStepped(s.pool, p.before).returnable
      && s'.pool == SweptPool(BeforeSweep(s.pool, p), p.sweep, r.returned)
      && var copied := Copied(r.seen, p.rounds, s.pool.avail);
         && s'.reserved == s.reserved + (p.avail - |copied|) - r.returned
         && s'.pool.avail == s.pool.avail - (p.avail - |copied|) + r.returned
         && r.returned <= s'.pool.avail <= |InPool(s'.pool)|
         && s'.live == s.live[p.avail..] + copied
                       + BuffersOf(s'.nm, InPool(s'.pool)[s'.pool.avail - r.returned..s'.pool.avail])
    else r.Idle? && s' == s
  }

  class Ring {
    const slots: array<nat>  // the buffer of each slot
    const pool: Pool
    var cur: nat             // the next slot to read
    var rsvdBegin: nat       // hw_rx_rsvd_begin
    var reserved: nat
    ghost const buffers: set<nat>

    ghost predicate InRange()
      reads this, slots, pool, pool.freeList
    {
      && pool.Ok() && 0 < slots.Length && pool.nmIndex.Length == slots.Length / 2
      && slots != pool.freeList && slots != pool.nmIndex
      && cur < slots.Length && rsvdBegin < slots.Length
    }

    /** How many slots are reserved. */
    ghost function OnLoan(): int
      reads pool, pool.freeList
    {
      Lent(pool.V())
    }

    /** The buffers of the slots that are not reserved, from the current one on. */
    ghost function Live(): seq<nat>
      reads this, slots, pool, pool.freeList
    {
      if 0 <= OnLoan() <= slots.Length && cur < slots.Length then Circ(slots[..], cur, slots.Length - OnLoan()) else []
    }

    /** The reserved slots are those from begin up to the current one, and no buffer is lost or doubled. */
    ghost predicate Valid(begin: nat)
      reads this, slots, pool, pool.freeList, pool.nmIndex
    {
      && InRange() && begin < slots.Length && 0 <= OnLoan() <= slots.Length / 2
      && cur == Wrap(begin + OnLoan(), slots.Length)
      && Conserved(Live(), pool.nmIndex[..], Held(pool.V()), buffers)
    }

    constructor (bufs: seq<nat>)
      requires bufs != [] && NoRepeat(bufs)
      ensures Valid(rsvdBegin) && reserved == 0 == OnLoan() && cur == 0 && rsvdBegin == 0
      ensures pool.swept == 0 && pool.just == -1 && buffers == Elems(bufs) && fresh(pool) && Live() == bufs
    {
      slots := new nat[|bufs|](i requires 0 <= i < |bufs| => bufs[i]);
      pool := new Pool(|bufs| / 2);
      cur, rsvdBegin, reserved := 0, 0, 0;
      buffers := Elems(bufs);
      new;
      assert slots[..] == bufs;
      FreshValid(|bufs| / 2);
      CircAt(bufs, 0, |bufs|);
      assert Live() == bufs;
      hide NetmapPool.Valid, Held, InPool;
    }

    /** What other threads do while the receive thread is between two steps: it touches no buffer. */
    method Meanwhile(env: seq<FreeStep>, ghost begin: nat)
      requires Valid(begin)
      modifies pool`freeing, pool`returnable, pool`out, pool`tail, pool.freeList
      ensures Valid(begin) && Live() == old(Live()) && OnLoan() == old(OnLoan())
      ensures pool.V() == AllStepped(old(pool.V()), env) && old(pool.returnable) <= pool.returnable
      ensures Held(pool.V()) == old(Held(pool.V())) && old(InPool(pool.V())) <= InPool(pool.V())
    {
      hide Conserved, Circ, NetmapPool.Valid, Held, AllStepped, InPool;
      pool.Others(env);
    }

    /** A packet whose buffer stays in the ring: it is moved to the begin of the reserved stretch. */
    method PutBack(b: nat)
      requires Valid(rsvdBegin) && Live()[0] == b
      modifies this`cur, this`rsvdBegin, slots
      ensures Valid(rsvdBegin) && Live() == old(Live()[1..]) + [b]
    {
      hide Conserved, Circ, NetmapPool.Valid, Held;
      ghost var before, live := slots[..], Live();
      PutBackLive(before, cur, rsvdBegin, OnLoan());
      assert live == [b] + live[1..];
      Rotate(b, live[1..], pool.nmIndex[..], Held(pool.V()), buffers);
      slots[rsvdBegin] := b;
      assert slots[..] == before[rsvdBegin := b];
      rsvdBegin := NextSlot(rsvdBegin, slots.Length);
      cur := NextSlot(cur, slots.Length);
    }

    /** The buffer of a packet goes to the stack; nm and held are as before the bufinfo was taken. */
    method HandOut(bi: nat, b: nat, ghost nm: seq<nat>, ghost held: set<nat>)
      requires InRange() && pool.just == bi && pool.swept == 0 && 0 < OnLoan() <= slots.Length / 2
      requires cur == Wrap(rsvdBegin + (OnLoan() - 1), slots.Length) && slots[cur] == b
      requires Conserved(Circ(slots[..], cur, slots.Length - (OnLoan() - 1)), nm, held, buffers)
      requires bi < |nm| && bi !in held && pool.nmIndex[..] == nm[bi := b] && Held(pool.V()) == held + {bi}
      modifies this`cur, pool`just
      ensures Valid(rsvdBegin) && pool.just == -1 && OnLoan() == old(OnLoan())
      ensures pool.V() == old(pool.V()).(just := -1)
      ensures Circ(slots[..], old(cur), slots.Length - (OnLoan() - 1)) == [b] + Live()
    {
      hide Conserved, Circ, NetmapPool.Valid, Held;
      CircFirst(slots[..], cur, slots.Length - (OnLoan() - 1));
      Lend(b, Circ(slots[..], NextSlot(cur, slots.Length), slots.Length - OnLoan()), nm, held, buffers, bi);
      KeepValid(pool.V());
      pool.KeepBufinfo();
      cur := NextSlot(cur, slots.Length);
    }

    /** There is no mbuf for the packet: the bufinfo goes back to the pool, the buffer stays in the ring. */
    method Undo(bi: nat, b: nat, ghost nm: seq<nat>, ghost held: set<nat>)
      requires InRange() && pool.just == bi && pool.swept == 0 && 0 < OnLoan() <= slots.Length / 2 + 1
      requires cur == Wrap(rsvdBegin + (OnLoan() - 1), slots.Length) && slots[cur] == b
      requires Conserved(Circ(slots[..], cur, slots.Length - (OnLoan() - 1)), nm, held, buffers)
      requires bi < |nm| && bi !in held && pool.nmIndex[..] == nm[bi := b] && Held(pool.V()) == held + {bi}
      modifies this`cur, this`rsvdBegin, slots, pool`avail, pool`head, pool`out, pool`just
      ensures Valid(rsvdBegin) && pool.just == -1 && OnLoan() == old(OnLoan()) - 1
      ensures pool.V() == Untaken(old(pool.V()))
      ensures Live() == old(Circ(slots[..], cur, slots.Length - (OnLoan() - 1))[1..]) + [b]
    {
      hide Conserved, Circ, NetmapPool.Valid, Held, Wrap, InPool;
      ghost var live := Circ(slots[..], cur, slots.Length - (OnLoan() - 1));
      CircFirst(slots[..], cur, slots.Length - (OnLoan() - 1));
      UntakenValid(pool.V());
      pool.UntakeBufinfo();
      NotHeldNoMatter(live, nm, held, buffers, bi, b);
      PutBack(b);
    }

    /** The packet at the current slot, once it has a bufinfo; v and nm are as before that. */
    method ZeroCopy(bi: nat, b: nat, nomem: bool, env: seq<FreeStep>, ghost v: View,
                    ghost nm: seq<nat>) returns (lent: bool)
      requires InRange() && NetmapPool.Valid(v) && v.just == -1 && v.swept == 0 && v.avail > 0
      requires pool.V() == Taken(v) && bi == v.free[v.head] && bi < |nm| && pool.nmIndex[..] == nm[bi := b]
      requires 0 <= Lent(v) <= slots.Length / 2 && cur == Wrap(rsvdBegin + Lent(v), slots.Length) && slots[cur] == b
      requires Conserved(Circ(slots[..], cur, slots.Length - Lent(v)), nm, Held(v), buffers)
      modifies this`cur, this`rsvdBegin, slots, pool, pool.freeList
      ensures Valid(rsvdBegin) && pool.swept == 0 && pool.just == -1 && old(pool.returnable) <= pool.returnable
      ensures lent <==> !nomem
      ensures var live := old(Circ(slots[..], cur, slots.Length - Lent(v)));
              live[0] == b && Live() == if lent then live[1..] else live[1..] + [b]
      ensures OnLoan() == Lent(v) + if lent then 1 else 0
      ensures v.head < |v.free| && pool.V() == Tried(v, nomem, env)
    {
      hide Conserved, Circ, NetmapPool.Valid, Held, InPool, AllStepped, Wrap;
      ghost var live := Circ(slots[..], cur, slots.Length - Lent(v));
      CircFirst(slots[..], cur, slots.Length - Lent(v));
      TakenValid(v);
      pool.Others(env);
      if nomem {
        Undo(bi, b, nm, Held(v));
        lent := false;
      } else {
        LentRange(pool.V());
        HandOut(bi, b, nm, Held(v));
        lent := true;
      }
    }

    /** The body of the packet loop.  nomem: m_gethdr fails; env: what other threads do meanwhile.  The
        packet is copied exactly if no bufinfo is available or there is no mbuf. */
    method Packet(nomem: bool, env: seq<FreeStep>) returns (b: nat, lent: bool)
      requires Valid(rsvdBegin) && pool.swept == 0 && pool.just == -1
      modifies this`cur, this`rsvdBegin, slots, pool, pool.freeList, pool.nmIndex
      ensures Valid(rsvdBegin) && pool.swept == 0 && pool.just == -1 && old(pool.returnable) <= pool.returnable
      ensures lent <==> old(pool.avail) > 0 && !nomem
      ensures |old(Live())| > 0 && b == old(Live()[0])
      ensures Live() == if lent then old(Live()[1..]) else old(Live()[1..]) + [b]
      ensures OnLoan() == old(OnLoan()) + if lent then 1 else 0
      ensures pool.V() == PacketPool(old(pool.V()), nomem, env)
    {
      hide Conserved, Circ, NetmapPool.Valid, Held, InPool, AllStepped, Wrap, Tried;
      ghost var nm, v := pool.nmIndex[..], pool.V();
      CircFirst(slots[..], cur, slots.Length - OnLoan());
      b := slots[cur];
      var bi := pool.TakeBufinfo(b);
      if bi == -1 {
        Meanwhile(env, rsvdBegin);
        PutBack(b);
        lent := false;
      } else {
        lent := ZeroCopy(bi, b, nomem, env, v, nm);
      }
    }

    /** One round of the sweep: the buffer of the next bufinfo that was freed goes to the slot at begin. */
    method SweepOne(begin: nat) returns (next: nat)
      requires Valid(begin) && pool.swept < pool.returnable
      modifies slots, pool`trail, pool`swept
      ensures Valid(next) && pool.swept == old(pool.swept) + 1 && OnLoan() == old(OnLoan()) - 1
      ensures pool.V() == SweptOne(old(pool.V())) && InPool(pool.V()) == old(InPool(pool.V()))
      ensures var n := pool.avail + old(pool.swept);
              && n < |InPool(pool.V())| && InPool(pool.V())[n] < pool.nmIndex.Length
              && Live() == old(Live()) + [pool.nmIndex[InPool(pool.V())[n]]]
    {
      hide Conserved, Circ, NetmapPool.Valid, Held;
      ghost var v, before, live := pool.V(), slots[..], Live();
      SweptOneValid(v);
      LentRange(v);
      LentRange(SweptOne(v));
      var bi := pool.SweepNext();
      ReturnLive(before, cur, begin, Lent(v), pool.nmIndex[bi]);
      Return(live, pool.nmIndex[..], Held(v), buffers, bi);
      slots[begin] := pool.nmIndex[bi];
      assert slots[..] == before[begin := pool.nmIndex[bi]];
      next := NextSlot(begin, slots.Length);
    }

    /** What was swept so far, when the pool had avail bufinfos available and the ring held live. */
    ghost predicate SweptSo(live: seq<nat>, avail: nat)
      reads this, slots, pool, pool.freeList, pool.nmIndex
    {
      && pool.avail == avail && avail + pool.swept <= |InPool(pool.V())|
      && Live() == live + BuffersOf(pool.nmIndex[..], InPool(pool.V())[avail..avail + pool.swept])
    }

    lemma NothingSwept()
      requires pool.Ok() && pool.swept == 0
      ensures SweptSo(Live(), pool.avail)
    {
      hide Conserved, Circ, NetmapPool.Valid, Held, Wrap, InPool;
      LentRange(pool.V());
    }

    /** Other threads do not change what was swept. */
    method MeanwhileSwept(env: seq<FreeStep>, ghost begin: nat, ghost live: seq<nat>)
      requires Valid(begin) && SweptSo(live, pool.avail)
      modifies pool`freeing, pool`returnable, pool`out, pool`tail, pool.freeList
      ensures Valid(begin) && OnLoan() == old(OnLoan()) && SweptSo(live, pool.avail)
      ensures old(pool.returnable) <= pool.returnable && pool.V() == AllStepped(old(pool.V()), env)
    {
      hide Conserved, Circ, NetmapPool.Valid, Held, AllStepped, Wrap, InPool, BuffersOf;
      ghost var list, n := InPool(pool.V()), pool.avail + pool.swept;
      AllSteppedKeeps(pool.V(), env);
      Meanwhile(env, begin);
      assert InPool(pool.V())[pool.avail..n] == list[pool.avail..n];
    }

    /** A round of the sweep, in these terms. */
    method SweepRound(env: seq<FreeStep>, begin: nat, ghost live: seq<nat>) returns (next: nat)
      requires Valid(begin) && pool.swept < pool.returnable && SweptSo(live, pool.avail)
      modifies slots, pool`trail, pool`swept, pool`freeing, pool`returnable, pool`out, pool`tail, pool.freeList
      ensures Valid(next) && pool.swept == old(pool.swept) + 1 && OnLoan() == old(OnLoan()) - 1
      ensures old(pool.returnable) <= pool.returnable && SweptSo(live, pool.avail)
      ensures pool.V() == SweptOne(AllStepped(old(pool.V()), env))
    {
      hide Conserved, Circ, NetmapPool.Valid, Held, AllStepped, Wrap, InPool, BuffersOf;
      MeanwhileSwept(env, begin, live);
      ghost var n := pool.avail + pool.swept;
      next := SweepOne(begin);
      BuffersOfMore(pool.nmIndex[..], InPool(pool.V()), pool.avail, n);
    }

    /** The loop of if_netmap_sweep_trail, from which i is where the reserved stretch begins then. */
    method SweepLoop(env: seq<seq<FreeStep>>, returned: nat) returns (i: nat)
      requires Valid(rsvdBegin) && pool.swept == 0 && pool.just == -1 && returned == pool.returnable
      modifies slots, pool`trail, pool`swept, pool`freeing, pool`returnable, pool`out, pool`tail, pool.freeList
      ensures Valid(i) && pool.swept == returned <= pool.returnable && OnLoan() == old(OnLoan()) - returned
      ensures SweptSo(old(Live()), pool.avail)
      ensures pool.V() == AllStepped(SweepPool(old(pool.V()), env, returned), EnvAt(env, returned))
    {
      hide Conserved, Circ, NetmapPool.Valid, Held, AllStepped, Wrap, InPool, BuffersOf, SweptSo;
      NothingSwept();
      i := rsvdBegin;
      for n := 0 to returned
        invariant Valid(i) && pool.swept == n && returned <= pool.returnable
        invariant OnLoan() == old(OnLoan()) - n && SweptSo(old(Live()), pool.avail)
        invariant pool.V() == SweepPool(old(pool.V()), env, n)
      {
        i := SweepRound(EnvAt(env, n), i, old(Live()));
      }
      MeanwhileSwept(EnvAt(env, returned), i, old(Live()));
    }

    /** if_netmap_sweep_trail; env: what other threads do before each round and after the last. */
    method SweepTrail(env: seq<seq<FreeStep>>) returns (returned: nat)
      requires Valid(rsvdBegin) && pool.swept == 0 && pool.just == -1
      modifies this`rsvdBegin, slots, pool, pool.freeList
      ensures Valid(rsvdBegin) && pool.swept == 0 && pool.just == -1
      ensures returned == old(pool.returnable) && OnLoan() == old(OnLoan()) - returned
      ensures pool.avail == old(pool.avail) + returned <= |InPool(pool.V())|
      ensures Live() == old(Live()) + BuffersOf(pool.nmIndex[..], InPool(pool.V())[old(pool.avail)..pool.avail])
      ensures pool.V() == SweptPool(old(pool.V()), env, returned)
    {
      hide Conserved, Circ, NetmapPool.Valid, Held, AllStepped, Wrap, InPool, BuffersOf, SweepPool;
      returned := pool.returnable;
      rsvdBegin := SweepLoop(env, returned);
      SweepEndedValid(pool.V());
      LentRange(pool.V());
      pool.SweepDone(returned);
    }

    /** Between passes. */
    ghost predicate Steady()
      reads this, slots, pool, pool.freeList, pool.nmIndex
    {
      Valid(rsvdBegin) && pool.swept == 0 && pool.just == -1 && reserved == OnLoan()
    }

    /** What the ring holds after n packets. */
    ghost predicate PacketsSo(live: seq<nat>, n: nat, rounds: seq<Round>, avail: nat, newReserved: nat)
      reads this, slots, pool, pool.freeList
    {
      && n <= |live| && pool.avail == avail - newReserved && newReserved == n - |Copied(live[..n], rounds, avail)|
      && Live() == live[n..] + Copied(live[..n], rounds, avail)
    }

    /** The next packet, in these terms. */
    method PacketRound(rounds: seq<Round>, n: nat, ghost live: seq<nat>, ghost avail: nat, ghost newReserved: nat)
      returns (b: nat, lent: bool)
      requires Valid(rsvdBegin) && pool.swept == 0 && pool.just == -1
      requires n < |live| && PacketsSo(live, n, rounds, avail, newReserved)
      modifies this`cur, this`rsvdBegin, slots, pool, pool.freeList, pool.nmIndex
      ensures Valid(rsvdBegin) && pool.swept == 0 && pool.just == -1 && old(pool.returnable) <= pool.returnable
      ensures live[..n] + [b] == live[..n + 1] && OnLoan() == old(OnLoan()) + if lent then 1 else 0
      ensures PacketsSo(live, n + 1, rounds, avail, if lent then newReserved + 1 else newReserved)
      ensures var r := RoundOf(rounds, n);
              pool.V() == PacketPool(AllStepped(old(pool.V()), r.before), r.nomem, r.env)
    {
      hide Conserved, Circ, NetmapPool.Valid, Held, AllStepped, Copied, RoundOf, Wrap, InPool, PacketPool;
      var r := RoundOf(rounds, n);
      AllSteppedKeeps(pool.V(), r.before);
      Meanwhile(r.before, rsvdBegin);
      PacketCopied(live, n, rounds, avail);
      b, lent := Packet(r.nomem, r.env);
    }

    /** The packet loop: every packet is read as it was before the pass, in order; that is, no slot with
        an unread packet is written. */
    method Packets(p: Pass) returns (seen: seq<nat>, newReserved: nat)
      requires Steady() && p.avail <= slots.Length - reserved
      modifies this`cur, this`rsvdBegin, slots, pool, pool.freeList, pool.nmIndex
      ensures Valid(rsvdBegin) && pool.swept == 0 && pool.just == -1 && OnLoan() == reserved + newReserved
      ensures old(pool.returnable) <= pool.returnable && newReserved == old(pool.avail) - pool.avail
      ensures |old(Live())| == slots.Length - reserved && seen == old(Live()[..p.avail])
      ensures var copied := Copied(seen, p.rounds, old(pool.avail));
              newReserved == p.avail - |copied| && Live() == old(Live()[p.avail..]) + copied
      ensures pool.V() == PacketsPool(old(pool.V()), p.rounds, p.avail)
    {
      hide Conserved, Circ, NetmapPool.Valid, Held, AllStepped, Copied, RoundOf, Wrap, InPool, PacketPool;
      ghost var live := Live();
      seen, newReserved := [], 0;
      CopiedSize([], p.rounds, pool.avail);
      for n := 0 to p.avail
        invariant Valid(rsvdBegin) && pool.swept == 0 && pool.just == -1 && OnLoan() == reserved + newReserved
        invariant old(pool.returnable) <= pool.returnable && seen == live[..n]
        invariant PacketsSo(live, n, p.rounds, old(pool.avail), newReserved)
        invariant pool.V() == PacketsPool(old(pool.V()), p.rounds, n)
      {
        var b, lent := PacketRound(p.rounds, n, live, old(pool.avail), newReserved);
        seen := seen + [b];
        if lent {
          newReserved := newReserved + 1;
        }
      }
    }

    ghost function Now(): Shot
      reads this, slots, pool, pool.freeList, pool.nmIndex
    {
      Shot(slots.Length, Live(), pool.nmIndex[..], pool.V(), cur, rsvdBegin, reserved)
    }

    /** The part of a pass that ends with the packets. */
    method TakePackets(p: Pass) returns (seen: seq<nat>)
      requires Steady() && p.avail <= slots.Length - reserved
      modifies this, slots, pool, pool.freeList, pool.nmIndex
      ensures Steady() && |old(Live())| == slots.Length - old(reserved) && seen == old(Live()[..p.avail])
      ensures pool.returnable >= AllStepped(old(pool.V()), p.before).returnable
      ensures pool.V() == BeforeSweep(old(pool.V()), p)
      ensures var copied := Copied(seen, p.rounds, old(pool.avail));
              && Live() == old(Live()[p.avail..]) + copied && reserved == old(reserved) + (p.avail - |copied|)
              && pool.avail == old(pool.avail) - (p.avail - |copied|)
    {
      hide Conserved, Circ, NetmapPool.Valid, Held, AllStepped, Wrap, InPool, Copied, BuffersOf, PacketsPool;
      AllSteppedKeeps(pool.V(), p.before);
      Meanwhile(p.before, rsvdBegin);
      var newReserved;
      seen, newReserved := Packets(p);
      reserved := reserved + newReserved;
      Meanwhile(p.beforeSweep, rsvdBegin);
    }

    /** A pass of if_netmap_receive: at least what was freed before it started is returned to the ring,
        also if all bufinfos were out. */
    method ReceivePass(p: Pass) returns (r: Report)
      requires Steady() && 0 < p.avail <= slots.Length - reserved
      modifies this, slots, pool, pool.freeList, pool.nmIndex
      ensures Steady() && Passed(old(Now()), p, r, Now())
    {
      hide Conserved, Circ, NetmapPool.Valid, Held, AllStepped, Wrap, InPool, Copied, BuffersOf, BeforeSweep, SweptPool;
      var seen := TakePackets(p);
      var returned, head := SweepAndTell(p.sweep);
      r := Took(seen, returned, head);
    }

    /** The part of a pass behind the packets. */
    method SweepAndTell(env: seq<seq<FreeStep>>) returns (returned: nat, head: int)
      requires Steady()
      modifies this, slots, pool, pool.freeList
      ensures Steady() && head == rsvdBegin && returned == old(pool.returnable) && reserved == old(reserved) - returned
      ensures pool.avail == old(pool.avail) + returned <= |InPool(pool.V())|
      ensures Live() == old(Live()) + BuffersOf(pool.nmIndex[..], InPool(pool.V())[old(pool.avail)..pool.avail])
      ensures pool.V() == SweptPool(old(pool.V()), env, returned)
    {
      hide Conserved, Circ, NetmapPool.Valid, Held, Wrap, InPool, BuffersOf, SweptPool;
      returned := SweepTrail(env);
      reserved := reserved - returned;
      head := RxUpdate();
    }

    /** A pool that ran dry recovers: if another thread has freed a bufinfo, then after a pass, all of
        whose packets were copied, one is available again. */
    method DryRecovers(bi: nat, p: Pass)
      requires Steady() && 0 < p.avail <= slots.Length - reserved && pool.avail == 0
      requires pool.freeing.Unlocked? && bi in pool.out && p.before == [Write(bi), Count, Advance]
      modifies this, slots, pool, pool.freeList, pool.nmIndex
      ensures Steady() && reserved < old(reserved) && pool.avail > 0
    {
      hide Conserved, Circ, NetmapPool.Valid, Held, AllStepped, Copied, BuffersOf, InPool, BeforeSweep, SweptPool;
      FreeReturns(pool.V(), bi);
      var r := ReceivePass(p);
      CopiedSize(r.seen, p.rounds, 0);
    }

    /** if_netmap_rxupdate: the head that the kernel is told is where the reserved stretch begins. */
    method RxUpdate() returns (head: int)
      requires Steady()
      ensures head == rsvdBegin
    {
      hide Conserved, NetmapPool.Valid, Held;
      head := cur - reserved;
      if head < 0 {
        head := head + slots.Length;
      }
    }

    /** if_netmap_receive: through any number of passes, no buffer is lost or doubled, and the reserved
        stretch never has more than half of the slots.  at: the ring before each pass, and at the end. */
    method Receive(passes: seq<Pass>) returns (reports: seq<Report>, ghost at: seq<Shot>)
      requires Steady()
      modifies this, slots, pool, pool.freeList, pool.nmIndex
      ensures Steady() && reserved <= slots.Length / 2
      ensures Conserved(Live(), pool.nmIndex[..], Held(pool.V()), buffers)
      ensures |reports| == |passes| && |at| == |passes| + 1 && at[0] == old(Now()) && at[|passes|] == Now()
      ensures forall k :: 0 <= k < |passes| ==> Passed(at[k], passes[k], reports[k], at[k + 1])
    {
      hide Conserved, Circ, NetmapPool.Valid, Held, Passed;
      reports, at := [], [Now()];
      for k := 0 to |passes|
        invariant Steady() && |reports| == k && |at| == k + 1 && at[0] == old(Now()) && at[k] == Now()
        invariant forall j :: 0 <= j < k ==> Passed(at[j], passes[j], reports[j], at[j + 1])
      {
        var r := Idle;
        if 0 < passes[k].avail <= slots.Length - reserved {  // all that the kernel may report
          r := ReceivePass(passes[k]);
        } else {
          IdlePass(Now(), passes[k]);
        }
        reports, at := reports + [r], at + [Now()];
      }
    }
  }

  lemma IdlePass(s: Shot, p: Pass)
    requires !(0 < p.avail <= s.size - s.reserved)
    ensures Passed(s, p, Idle, s)
  {
  }
}
