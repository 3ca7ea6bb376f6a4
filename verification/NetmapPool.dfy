/** The pool of buffer contexts for zero-copy receive: a free list in a circular array, taken from at
    head by the receive thread, filled at tail by whichever thread frees a buffer, and swept at trail
    by the receive thread. */
module NetmapPool {
  import opened NetmapCirc

  /** What the holder of tail_lock has done. */
  datatype Freeing = Unlocked | Written(bi: nat) | Counted

  /** The steps of if_netmap_bufinfo_free in another thread. */
  datatype FreeStep = Write(bi: nat) | Count | Advance

  /** Every bufinfo is either in the free list, and there once, or handed out. */
  ghost predicate Partition(list: seq<nat>, out: set<nat>, max: nat) {
    && NoRepeat(list)
    && (forall bi <- list :: bi < max && bi !in out)
    && (forall bi <- out :: bi < max)
    && (forall bi :: 0 <= bi < max ==> bi in out || bi in list)
  }

  lemma TakeFirst(bi: nat, rest: seq<nat>, out: set<nat>, max: nat)
    requires Partition([bi] + rest, out, max)
    ensures bi < max && bi !in out && Partition(rest, out + {bi}, max)
  {
    var list := [bi] + rest;
    assert list[0] == bi && forall k :: 0 <= k < |rest| ==> list[k + 1] == rest[k];
    assert forall x :: x in list <==> x == bi || x in rest;
    assert NoRepeat(rest) by {
      forall i, j | 0 <= i < j < |rest|
        ensures rest[i] != rest[j]
      {
        assert list[i + 1] != list[j + 1];
      }
    }
    assert bi !in rest by {
      assert forall j :: 1 <= j < |list| ==> list[j] != list[0];
      assert forall k :: 0 <= k < |rest| ==> rest[k] == list[k + 1];
    }
  }

  lemma PutFirst(bi: nat, rest: seq<nat>, out: set<nat>, max: nat)
    requires Partition(rest, out, max) && bi in out
    ensures Partition([bi] + rest, out - {bi}, max)
  {
    var list := [bi] + rest;
    assert forall x :: x in list <==> x == bi || x in rest;
  }

  lemma PutLast(bi: nat, rest: seq<nat>, out: set<nat>, max: nat)
    requires Partition(rest, out, max) && bi in out
    ensures Partition(rest + [bi], out - {bi}, max)
  {
    var list := rest + [bi];
    assert forall x :: x in list <==> x == bi || x in rest;
  }

  ghost function Elems(list: seq<nat>): set<nat> { set x | x in list }

  /** struct if_netmap_bufinfo_pool, with what the threads hold. */
  datatype View = View(
    free: seq<nat>,            // free_list
    avail: nat,
    returnable: nat,
    head: nat,
    tail: nat,
    trail: nat,
    freeing: Freeing,
    out: set<nat>,             // the bufinfos handed out
    just: int,                 // the one just handed out, if the receive thread may still undo that, or -1
    swept: nat)                // how many the sweep under way has dealt with

  ghost predicate InRange(v: View) {
    && v.swept <= v.returnable && v.avail + v.returnable + |v.out| == |v.free|
    && (if v.free == [] then v.head == v.tail == v.trail == 0
        else v.head < |v.free| && v.tail < |v.free| && v.trail < |v.free|)
  }

  /** The bufinfos in the free list, in order: first those to be handed out, then those freed. */
  ghost function InPool(v: View): (list: seq<nat>)
    ensures InRange(v) ==> |list| == v.avail + v.returnable
  {
    if InRange(v) then Circ(v.free, v.head, v.avail + v.returnable) else []
  }

  /** The bufinfos that hold a buffer: handed out, or freed and not yet swept. */
  ghost function Held(v: View): set<nat> {
    v.out + if InRange(v) then Elems(InPool(v)[v.avail + v.swept..]) else {}
  }

  /** How many there are. */
  function Lent(v: View): int { |v.free| - v.avail - v.swept }

  /** The three places follow each other around the array. */
  ghost predicate Chasing(v: View)
    requires InRange(v)
  {
    && v.trail == Wrap(v.head + v.avail + v.swept, |v.free|)
    && (if v.freeing.Counted? then
          v.free != [] && Wrap(v.tail + 1, |v.free|) == Wrap(v.head + v.avail + v.returnable, |v.free|)
        else v.tail == Wrap(v.head + v.avail + v.returnable, |v.free|))
  }

  function Before(i: nat, size: nat): nat { if i > 0 then i - 1 else if size > 0 then size - 1 else 0 }

  ghost predicate Valid(v: View) {
    && InRange(v) && Chasing(v) && Partition(InPool(v), v.out, |v.free|)
    && (v.freeing.Written? ==> v.freeing.bi in v.out && v.freeing.bi != v.just && v.free[v.tail] == v.freeing.bi)
    && -1 <= v.just && (v.just >= 0 ==> v.just in v.out && v.free[Before(v.head, |v.free|)] == v.just)
  }

  function Next(i: nat, size: nat): nat { if i + 1 == size then 0 else i + 1 }

  // ----- the receive thread takes and puts back

  function Taken(v: View): View
    requires v.avail > 0 && v.head < |v.free|
  {
    var bi := v.free[v.head];
    v.(avail := v.avail - 1, head := Next(v.head, |v.free|), out := v.out + {bi}, just := bi)
  }

  lemma TakenChasing(v: View)
    requires InRange(v) && Chasing(v) && v.swept == 0 && v.avail > 0 && v.free[v.head] !in v.out
    ensures InRange(Taken(v)) && Chasing(Taken(v)) && Before(Next(v.head, |v.free|), |v.free|) == v.head
  {
    WrapNext(v.head, v.avail - 1, |v.free|);
    WrapNext(v.head, v.avail - 1 + v.returnable, |v.free|);
    hide Wrap;
  }

  lemma TakenKeeps(v: View)
    requires Valid(v) && v.just == -1 && v.swept == 0 && v.avail > 0
    ensures var v', bi := Taken(v), v.free[v.head];
            Valid(v') && bi < |v.free| && bi !in v.out && InPool(v) == [bi] + InPool(v')
  {
    hide Partition, Circ, Chasing;
    var bi, n := v.free[v.head], |v.free|;
    CircFirst(v.free, v.head, v.avail + v.returnable);
    TakeFirst(bi, Circ(v.free, Wrap(v.head + 1, n), v.avail + v.returnable - 1), v.out, n);
    TakenChasing(v);
  }

  /** A bufinfo that is handed out was in the pool, and is not handed out again while it is out. */
  lemma TakenValid(v: View)
    requires Valid(v) && v.just == -1 && v.swept == 0 && v.avail > 0
    ensures v.head < |v.free|
    ensures var v', bi := Taken(v), v.free[v.head];
            && Valid(v') && bi < |v.free| && bi !in v.out && InPool(v) == [bi] + InPool(v')
            && bi !in Held(v) && Held(v') == Held(v) + {bi}
  {
    hide Partition, Circ, Chasing;
    var v', bi := Taken(v), v.free[v.head];
    TakenKeeps(v);
    HeldShift(InPool(v'), bi, v'.avail);
    NotHeld(v', bi);
    hide Elems;
  }

  function Untaken(v: View): View
    requires v.just >= 0
  {
    v.(avail := v.avail + 1, head := Before(v.head, |v.free|), out := v.out - {v.just as nat}, just := -1)
  }

  lemma UntakenChasing(v: View)
    requires InRange(v) && Chasing(v) && v.swept == 0 && v.just >= 0 && v.just as nat in v.out
    ensures InRange(Untaken(v)) && Chasing(Untaken(v)) && Wrap(Untaken(v).head + 1, |v.free|) == v.head
  {
    var before := Before(v.head, |v.free|);
    assert |v.out - {v.just as nat}| == |v.out| - 1;
    WrapNext(before, v.avail, |v.free|);
    WrapNext(before, v.avail + v.returnable, |v.free|);
    hide Wrap;
  }

  lemma UntakenKeeps(v: View)
    requires Valid(v) && v.just >= 0 && v.swept == 0
    ensures Valid(Untaken(v)) && InPool(Untaken(v)) == [v.just as nat] + InPool(v)
  {
    hide Partition, Circ, Chasing, Wrap;
    PutFirst(v.just, InPool(v), v.out, |v.free|);
    UntakenChasing(v);
    CircFirst(v.free, Untaken(v).head, v.avail + v.returnable + 1);
  }

  /** Undoing an alloc restores the pool, whatever other threads have freed in between. */
  lemma UntakenValid(v: View)
    requires Valid(v) && v.just >= 0 && v.swept == 0
    ensures v.free != []
    ensures var v' := Untaken(v);
            && Valid(v') && InPool(v') == [v.just as nat] + InPool(v) && Held(v') == Held(v) - {v.just as nat}
  {
    hide Partition, Circ, Chasing;
    UntakenKeeps(v);
    NotHeld(v, v.just);
    HeldShift(InPool(v), v.just, v.avail);
    hide Elems;
  }

  lemma HeldShift(list: seq<nat>, bi: nat, n: nat)
    requires n <= |list|
    ensures ([bi] + list)[n + 1..] == list[n..]
  {
  }

  lemma NotHeld(v: View, bi: nat)
    requires InRange(v) && Partition(InPool(v), v.out, |v.free|) && bi in v.out
    ensures bi !in Elems(InPool(v)[v.avail + v.swept..])
  {
  }

  // ----- other threads free

  ghost predicate CanStep(v: View, step: FreeStep) {
    if step.Write? then v.freeing.Unlocked? && step.bi in v.out && step.bi != v.just && v.tail < |v.free|
    else if step.Count? then v.freeing.Written?
    else v.freeing.Counted?
  }

  /** One step of if_netmap_bufinfo_free: write the entry under the lock, count it, advance the tail. */
  function Stepped(v: View, step: FreeStep): View
    requires v.tail < |v.free| && (step.Count? ==> v.freeing.Written?)
  {
    if step.Write? then v.(free := v.free[v.tail := step.bi], freeing := Written(step.bi))
    else if step.Count? then v.(returnable := v.returnable + 1, out := v.out - {v.freeing.bi}, freeing := Counted)
    else v.(tail := Next(v.tail, |v.free|), freeing := Unlocked)
  }

  lemma WroteValid(v: View, bi: nat)
    requires Valid(v) && CanStep(v, Write(bi))
    ensures Valid(Stepped(v, Write(bi))) && InPool(Stepped(v, Write(bi))) == InPool(v)
  {
    hide Partition, Circ;
    assert |v.out - {bi}| == |v.out| - 1;
    if v.just >= 0 {
      assert v.just as nat in v.out - {bi};
    }
    CircOutside(v.free, v.head, v.avail + v.returnable, v.avail + v.returnable, bi);
  }

  lemma CountedValid(v: View)
    requires Valid(v) && v.freeing.Written?
    ensures var v' := Stepped(v, Count); Valid(v') && InPool(v') == InPool(v) + [v.freeing.bi] && Held(v') == Held(v)
  {
    hide Partition, Circ, Elems;
    var bi := v.freeing.bi;
    PutLast(bi, InPool(v), v.out, |v.free|);
    assert |v.out - {bi}| == |v.out| - 1;
    CircAppend(v.free, v.head, v.avail + v.returnable, bi);
    assert v.free[v.tail := bi] == v.free;
    ElemsAppend(InPool(v), v.avail + v.swept, bi);
  }

  lemma ElemsAppend(list: seq<nat>, n: nat, bi: nat)
    requires n <= |list|
    ensures Elems((list + [bi])[n..]) == Elems(list[n..]) + {bi}
  {
    assert (list + [bi])[n..] == list[n..] + [bi];
  }

  /** Whatever another thread does, the receive thread's part of the pool stays, and so does the set of
      bufinfos that hold a buffer. */
  lemma SteppedValid(v: View, step: FreeStep)
    requires Valid(v) && CanStep(v, step)
    ensures v.tail < |v.free| && Valid(Stepped(v, step))
    ensures InPool(v) <= InPool(Stepped(v, step)) && Held(Stepped(v, step)) == Held(v)
    ensures var v' := Stepped(v, step);
            v' == v.(free := v'.free, freeing := v'.freeing, returnable := v'.returnable, out := v'.out,
                     tail := v'.tail)
  {
    hide Partition, Circ, Elems;
    if step.Write? {
      WroteValid(v, step.bi);
    } else if step.Count? {
      CountedValid(v);
    }
  }

  /** Steps of other threads, without those that are not possible. */
  ghost function AllStepped(v: View, steps: seq<FreeStep>): View
    decreases |steps|
  {
    if steps == [] then v
    else AllStepped(if CanStep(v, steps[0]) && v.tail < |v.free| then Stepped(v, steps[0]) else v, steps[1..])
  }

  /** Other threads leave alone what is the receive thread's. */
  lemma {:induction false} AllSteppedKeeps(v: View, steps: seq<FreeStep>)
    ensures var v' := AllStepped(v, steps);
            && v'.avail == v.avail && v'.swept == v.swept && v'.just == v.just && v'.head == v.head
            && v'.trail == v.trail && |v'.free| == |v.free| && v.returnable <= v'.returnable
    decreases |steps|
  {
    if steps != [] {
      AllSteppedKeeps(if CanStep(v, steps[0]) && v.tail < |v.free| then Stepped(v, steps[0]) else v, steps[1..]);
    }
  }

  /** Another thread's free, from its begin to its end: the bufinfo is no longer out, and is the last of
      those that can be returned to the ring. */
  lemma FreeReturns(v: View, bi: nat)
    requires Valid(v) && v.freeing.Unlocked? && bi in v.out && bi != v.just
    ensures var v' := AllStepped(v, [Write(bi), Count, Advance]);
            && Valid(v') && v'.freeing.Unlocked? && v'.returnable == v.returnable + 1 && v'.avail == v.avail
            && v'.out == v.out - {bi} && InPool(v') == InPool(v) + [bi]
  {
    hide Valid, InPool, Held, Stepped;
    assert v.tail < |v.free| by { OutHasRoom(v, bi); }
    WroteValid(v, bi);
    var v1 := Stepped(v, Write(bi));
    SteppedIs(v, bi);
    CountedValid(v1);
    var v2 := Stepped(v1, Count);
    CountedIs(v1);
    SteppedValid(v2, Advance);
    AdvancedIs(v2);
    var steps := [Write(bi), Count, Advance];
    assert steps[1..] == [Count, Advance] && [Count, Advance][1..] == [Advance] && [Advance][1..] == [];
    assert AllStepped(v1, [Count, Advance]) == AllStepped(v2, [Advance]);
  }

  lemma OutHasRoom(v: View, bi: nat)
    requires Valid(v) && bi in v.out
    ensures v.tail < |v.free|
  {
  }

  lemma SteppedIs(v: View, bi: nat)
    requires v.tail < |v.free|
    ensures var v' := Stepped(v, Write(bi)); v' == v.(free := v'.free, freeing := Written(bi)) && |v'.free| == |v.free|
  {
  }

  lemma CountedIs(v: View)
    requires v.tail < |v.free| && v.freeing.Written?
    ensures Stepped(v, Count) == v.(returnable := v.returnable + 1, out := v.out - {v.freeing.bi}, freeing := Counted)
  {
  }

  lemma AdvancedIs(v: View)
    requires Valid(v) && v.tail < |v.free| && v.freeing.Counted?
    ensures var v' := Stepped(v, Advance);
            v' == v.(tail := v'.tail, freeing := Unlocked) && InPool(v') == InPool(v)
  {
    SteppedValid(v, Advance);
  }

  // ----- the receive thread sweeps

  function SweptOne(v: View): View
  {
    v.(trail := Next(v.trail, |v.free|), swept := v.swept + 1)
  }

  lemma PartitionAt(list: seq<nat>, out: set<nat>, max: nat, n: nat)
    requires Partition(list, out, max) && n < |list|
    ensures NoRepeat(list) && list[n] < max && list[n] !in out
  {
    assert list[n] in list;
  }

  lemma ElemsFrom(list: seq<nat>, n: nat)
    requires NoRepeat(list) && n < |list|
    ensures Elems(list[n..]) == Elems(list[n + 1..]) + {list[n]} && list[n] !in Elems(list[n + 1..])
  {
    assert list[n..] == [list[n]] + list[n + 1..];
    assert list[n] !in list[n + 1..] by {
      assert forall k :: n < k < |list| ==> list[k] != list[n];
    }
  }

  /** The entry at trail is the first that was freed and not yet swept. */
  lemma AtTrail(v: View)
    requires Valid(v) && v.swept < v.returnable
    ensures v.trail < |v.free|
    ensures var bi, n := v.free[v.trail], v.avail + v.swept;
            && bi < |v.free| && bi !in v.out && bi == InPool(v)[n]
            && Elems(InPool(v)[n..]) == Elems(InPool(v)[n + 1..]) + {bi} && bi !in Elems(InPool(v)[n + 1..])
  {
    hide Circ, Elems, Partition;
    var n := v.avail + v.swept;
    CircIndex(v.free, v.head, v.avail + v.returnable, n);
    PartitionAt(InPool(v), v.out, |v.free|, n);
    ElemsFrom(InPool(v), n);
  }

  lemma SweptOneValid(v: View)
    requires Valid(v) && v.swept < v.returnable
    ensures v.trail < |v.free|
    ensures var v', bi := SweptOne(v), v.free[v.trail];
            && Valid(v') && bi < |v.free| && bi in Held(v) && Held(v') == Held(v) - {bi}
            && InPool(v') == InPool(v) && v.avail + v.swept < |InPool(v)| && bi == InPool(v)[v.avail + v.swept]
  {
    hide Circ, Partition, Elems;
    AtTrail(v);
  }

  /** The two updates at the end of a sweep: n fewer are returnable, then n more are available. */
  function Debit(v: View, n: nat): View
    requires n <= v.returnable
  {
    v.(returnable := v.returnable - n)
  }

  function Credit(v: View, n: nat): View { v.(avail := v.avail + n, swept := 0) }

  function SweepEnded(v: View): View
    requires v.swept <= v.returnable
  {
    Credit(Debit(v, v.swept), v.swept)
  }

  /** Other threads may free between the two: it is as if they did so before both. */
  lemma {:induction false} FreesAtSweepEnd(v: View, n: nat, steps: seq<FreeStep>)
    requires n <= v.returnable
    ensures var v' := AllStepped(v, steps);
            n <= v'.returnable && Credit(AllStepped(Debit(v, n), steps), n) == Credit(Debit(v', n), n)
    decreases |steps|
  {
    if steps != [] {
      var can := CanStep(v, steps[0]) && v.tail < |v.free|;
      assert can == (CanStep(Debit(v, n), steps[0]) && Debit(v, n).tail < |Debit(v, n).free|);
      if can {
        assert Stepped(Debit(v, n), steps[0]) == Debit(Stepped(v, steps[0]), n);
        FreesAtSweepEnd(Stepped(v, steps[0]), n, steps[1..]);
      } else {
        FreesAtSweepEnd(v, n, steps[1..]);
      }
    }
  }

  lemma SweepEndedValid(v: View)
    requires Valid(v)
    ensures var v' := SweepEnded(v); Valid(v') && InPool(v') == InPool(v) && Held(v') == Held(v) && Lent(v') == Lent(v)
  {
    hide Partition, Circ;
  }

  lemma LentRange(v: View)
    requires Valid(v)
    ensures 0 <= Lent(v) <= |v.free| && v.avail + v.swept + Lent(v) == |v.free|
    ensures |InPool(v)| == v.avail + v.returnable
  {
  }

  // ----- every interleaving

  datatype PoolStep = Alloc | Unalloc | Keep | Other(step: FreeStep) | SweepOne | SweepEnd

  ghost predicate Can(v: View, step: PoolStep) {
    match step
    case Alloc => v.just == -1 && v.swept == 0 && v.avail > 0 && v.head < |v.free|
    case Unalloc => v.just >= 0 && v.swept == 0
    case Keep => true
    case Other(f) => CanStep(v, f) && v.tail < |v.free|
    case SweepOne => v.swept < v.returnable
    case SweepEnd => v.swept <= v.returnable
  }

  ghost function Do(v: View, step: PoolStep): View
    requires Can(v, step)
  {
    match step
    case Alloc => Taken(v)
    case Unalloc => Untaken(v)
    case Keep => v.(just := -1)
    case Other(f) => Stepped(v, f)
    case SweepOne => SweptOne(v)
    case SweepEnd => SweepEnded(v)
  }

  ghost predicate CanRun(v: View, steps: seq<PoolStep>)
    decreases |steps|
  {
    steps == [] || (Can(v, steps[0]) && CanRun(Do(v, steps[0]), steps[1..]))
  }

  ghost function Run(v: View, steps: seq<PoolStep>): View
    requires CanRun(v, steps)
    decreases |steps|
  {
    if steps == [] then v else Run(Do(v, steps[0]), steps[1..])
  }

  lemma KeepValid(v: View)
    requires Valid(v)
    ensures var v' := v.(just := -1); Valid(v') && InPool(v') == InPool(v) && Held(v') == Held(v)
  {
    hide Partition, Circ, Elems;
  }

  lemma DoValid(v: View, step: PoolStep)
    requires Valid(v) && Can(v, step)
    ensures Valid(Do(v, step))
  {
    match step {
      case Alloc => TakenValid(v);
      case Unalloc => UntakenValid(v);
      case Keep => KeepValid(v);
      case Other(f) => SteppedValid(v, f);
      case SweepOne => SweptOneValid(v);
      case SweepEnd => SweepEndedValid(v);
    }
  }

  lemma {:induction false} RunValid(v: View, steps: seq<PoolStep>)
    requires Valid(v) && CanRun(v, steps)
    ensures Valid(Run(v, steps))
    decreases |steps|
  {
    if steps != [] {
      hide Valid, Can, Do;
      DoValid(v, steps[0]);
      RunValid(Do(v, steps[0]), steps[1..]);
    }
  }

  /** The pool as it is set up. */
  function Fresh(max: nat): View {
    View(seq(max, i requires 0 <= i < max => i), max, 0, 0, 0, 0, Unlocked, {}, -1, 0)
  }

  lemma FreshValid(max: nat)
    ensures Valid(Fresh(max)) && InPool(Fresh(max)) == Fresh(max).free && Held(Fresh(max)) == {}
  {
    var v := Fresh(max);
    CircAt(v.free, 0, max);
    forall bi | 0 <= bi < max
      ensures bi in InPool(v)
    {
      assert InPool(v)[bi] == bi;
    }
    assert InPool(v)[max..] == [];
  }

  /** In every interleaving of the receive thread and any threads that free: a bufinfo is available,
      returnable or handed out, never two of these; what is handed out next is not out; and undoing an
      alloc gives back the very bufinfo that was taken. */
  lemma PoolInEveryRun(max: nat, steps: seq<PoolStep>)
    requires CanRun(Fresh(max), steps)
    ensures var v := Run(Fresh(max), steps); |v.free| == max && Sound(v)
  {
    hide Valid, Can, Do, Sound;
    FreshValid(max);
    RunValid(Fresh(max), steps);
    RunSize(Fresh(max), steps);
    ValidSound(Run(Fresh(max), steps));
  }

  ghost predicate Sound(v: View) {
    && InRange(v) && Partition(InPool(v), v.out, |v.free|)
    && (Can(v, Alloc) ==> v.free[v.head] !in v.out && InPool(v) == [v.free[v.head]] + InPool(Do(v, Alloc)))
    && (Can(v, Unalloc) ==> InPool(Do(v, Unalloc)) == [v.just as nat] + InPool(v))
  }

  lemma ValidSound(v: View)
    requires Valid(v)
    ensures Sound(v)
  {
    hide Partition, InPool, Chasing, Held, Taken, Untaken, CanStep;
    if Can(v, Alloc) {
      TakenValid(v);
    }
    if Can(v, Unalloc) {
      UntakenValid(v);
    }
  }

  lemma {:induction false} RunSize(v: View, steps: seq<PoolStep>)
    requires CanRun(v, steps)
    ensures |Run(v, steps).free| == |v.free|
    decreases |steps|
  {
    if steps != [] {
      RunSize(Do(v, steps[0]), steps[1..]);
    }
  }

  // ----- the pool itself

  class Pool {
    const freeList: array<nat>
    const nmIndex: array<nat>  // nm_index of each bufinfo
    var avail: nat
    var returnable: nat
    var head: nat
    var tail: nat
    var trail: nat
    var freeing: Freeing
    var out: set<nat>
    var just: int
    ghost var swept: nat

    ghost function V(): View
      reads this, freeList
    {
      View(freeList[..], avail, returnable, head, tail, trail, freeing, out, just, swept)
    }

    ghost predicate Ok()
      reads this, freeList
    {
      Valid(V()) && freeList != nmIndex && freeList.Length == nmIndex.Length
    }

    /** if_netmap_bufinfo_pool_init */
    constructor (max: nat)
      ensures Ok() && V() == Fresh(max) && fresh(freeList) && fresh(nmIndex)
    {
      freeList := new nat[max](i => i);
      nmIndex := new nat[max](_ => 0);
      avail, returnable, head, tail, trail, freeing := max, 0, 0, 0, 0, Unlocked;
      out, just, swept := {}, -1, 0;
      new;
      FreshValid(max);
      assert V() == Fresh(max);
    }

    /** if_netmap_bufinfo_alloc: the first available bufinfo, or -1. */
    method TakeBufinfo(slotindex: nat) returns (bi: int)
      requires Ok() && just == -1 && swept == 0
      modifies this`avail, this`head, this`out, this`just, nmIndex
      ensures Ok() && -1 <= bi && (bi == -1 <==> old(avail) == 0)
      ensures bi >= 0 ==> old(head) < freeList.Length && bi == old(V()).free[old(head)]
      ensures bi == -1 ==> V() == old(V()) && nmIndex[..] == old(nmIndex[..])
      ensures bi >= 0 ==>
                bi < nmIndex.Length && V() == Taken(old(V())) && nmIndex[..] == old(nmIndex[..])[bi := slotindex]
    {
      hide Valid, InPool, Held;
      bi := -1;
      if avail > 0 {
        ghost var v := V();
        TakenValid(v);
        avail := avail - 1;
        bi := freeList[head];
        nmIndex[bi] := slotindex;
        head := head + 1;
        if head == freeList.Length {
          head := 0;
        }
        out := out + {bi as nat};
        just := bi;
        assert V() == Taken(v);
      }
    }

    /** if_netmap_bufinfo_unalloc */
    method UntakeBufinfo()
      requires Ok() && just >= 0 && swept == 0
      modifies this`avail, this`head, this`out, this`just
      ensures Ok() && V() == Untaken(old(V()))
    {
      hide Valid, InPool, Held;
      ghost var v := V();
      UntakenValid(v);
      avail := avail + 1;
      if head > 0 {
        head := head - 1;
      } else {
        head := freeList.Length - 1;
      }
      out := out - {just as nat};
      just := -1;
      assert V() == Untaken(v);
    }

    /** The bufinfo just handed out goes to the stack. */
    method KeepBufinfo()
      requires Ok()
      modifies this`just
      ensures Ok() && V() == old(V()).(just := -1)
    {
      hide Valid, InPool, Held;
      KeepValid(V());
      just := -1;
    }

    /** A step of another thread in if_netmap_bufinfo_free. */
    method FreeStepBy(step: FreeStep)
      requires Ok() && CanStep(V(), step)
      modifies this`freeing, this`returnable, this`out, this`tail, freeList
      ensures Ok() && old(V()).tail < |old(V()).free| && V() == Stepped(old(V()), step)
    {
      hide Valid, InPool, Held;
      ghost var v := V();
      SteppedValid(v, step);
      match step {
        case Write(bi) =>
          freeList[tail] := bi;
          freeing := Written(bi);
        case Count =>
          returnable := returnable + 1;
          out := out - {freeing.bi};
          freeing := Counted;
        case Advance =>
          tail := tail + 1;
          if tail == freeList.Length {
            tail := 0;
          }
          freeing := Unlocked;
      }
      assert V() == Stepped(v, step);
    }

    /** Any steps of other threads; those that are not possible are left out. */
    method Others(steps: seq<FreeStep>)
      requires Ok()
      modifies this`freeing, this`returnable, this`out, this`tail, freeList
      ensures Ok() && V() == AllStepped(old(V()), steps)
      ensures Held(V()) == old(Held(V())) && old(returnable) <= returnable && |V().free| == old(|V().free|)
      ensures old(InPool(V())) <= InPool(V())
    {
      hide Valid, InPool, Held;
      ghost var goal := AllStepped(V(), steps);
      for k := 0 to |steps|
        invariant Ok() && AllStepped(V(), steps[k..]) == goal
        invariant Held(V()) == old(Held(V())) && old(returnable) <= returnable && |V().free| == old(|V().free|)
        invariant old(InPool(V())) <= InPool(V())
      {
        assert steps[k..][1..] == steps[k + 1..];
        var can := match steps[k]
          case Write(bi) => freeing.Unlocked? && bi in out && bi != just && tail < freeList.Length
          case Count => freeing.Written?
          case Advance => freeing.Counted?;
        assert can == CanStep(V(), steps[k]);
        if can {
          SteppedValid(V(), steps[k]);
          FreeStepBy(steps[k]);
        }
      }
    }

    /** One round of if_netmap_sweep_trail: the next bufinfo that was freed. */
    method SweepNext() returns (bi: nat)
      requires Ok() && swept < returnable
      modifies this`trail, this`swept
      ensures Ok() && bi < nmIndex.Length && old(trail) < freeList.Length && bi == freeList[old(trail)]
      ensures V() == SweptOne(old(V()))
    {
      hide Valid, InPool, Held;
      ghost var v := V();
      SweptOneValid(v);
      bi := freeList[trail];
      trail := trail + 1;
      if trail == freeList.Length {
        trail := 0;
      }
      swept := swept + 1;
      assert V() == SweptOne(v);
    }

    /** The end of the sweep: what was swept is available again. */
    method SweepDone(returned: nat)
      requires Ok() && swept == returned <= returnable
      modifies this`returnable, this`avail, this`swept
      ensures Ok() && V() == SweepEnded(old(V()))
    {
      hide Valid, InPool, Held;
      SweepEndedValid(V());
      returnable := returnable - returned;
      avail := avail + returned;
      swept := 0;
    }
  }
}
