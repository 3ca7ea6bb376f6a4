/** The poll backend: an array for poll(2), and a table from file descriptors to places in it. */
module EvPoll {
  import opened EvPending

  type Mask = m: set<Event> | m <= {Read, Write}

  datatype Pollfd = Pollfd(fd: nat, pollin: bool, pollout: bool)

  function MaskOf(p: Pollfd): Mask {
    (if p.pollin then {Read} else {}) + (if p.pollout then {Write} else {})
  }

  class Poll {
    var pollidxs: seq<int>
    var polls: seq<Pollfd>  // from pollcnt on the entries are stale
    var pollcnt: nat

    /** Array and table refer to each other, and no entry is without interest. */
    ghost predicate Valid()
      reads this
    {
      && pollcnt <= |polls|
      && (forall i :: 0 <= i < pollcnt ==> polls[i].fd < |pollidxs| && pollidxs[polls[i].fd] == i)
      && (forall fd :: 0 <= fd < |pollidxs| ==> AtPlace(fd))
    }

    ghost predicate AtPlace(fd: nat)
      requires fd < |pollidxs|
      reads this
    {
      var i := pollidxs[fd];
      i >= 0 ==> i < pollcnt && i < |polls| && polls[i].fd == fd && MaskOf(polls[i]) != {}
    }

    /** What is passed to poll(2), as a map. */
    ghost function Interest(): map<nat, Mask>
      requires Valid()
      reads this
    {
      map fd | 0 <= fd < |pollidxs| && pollidxs[fd] >= 0 :: assert AtPlace(fd); MaskOf(polls[pollidxs[fd]])
    }

    ghost function Asked(fd: nat): Mask
      requires Valid()
      reads this
    {
      if fd in Interest() then Interest()[fd] else {}
    }

    /** Every entry passed to poll(2) is in the map, and no descriptor is passed twice. */
    lemma EntriesAreInterest(i: nat)
      requires Valid() && i < pollcnt
      ensures polls[i].fd in Interest() && Interest()[polls[i].fd] == MaskOf(polls[i])
      ensures forall j :: 0 <= j < pollcnt && j != i ==> polls[j].fd != polls[i].fd
    {
    }

    constructor ()
      ensures Valid() && Interest() == map[]
    {
      pollidxs, polls, pollcnt := [], [], 0;
    }

    /** array_needsize with pollidx_init */
    method Grow(fd: nat)
      requires Valid()
      modifies this`pollidxs
      ensures Valid() && fd < |pollidxs| && Interest() == old(Interest())
    {
      if fd >= |pollidxs| {
        pollidxs := pollidxs + seq(fd + 1 - |pollidxs|, _ => -1);
        assert forall f :: 0 <= f < |pollidxs| && pollidxs[f] >= 0 ==> f < |old(pollidxs)| && old(AtPlace(f));
      }
    }

    /** A new entry for fd. */
    method Allocate(fd: nat, nev: Mask)
      requires Valid() && fd < |pollidxs| && pollidxs[fd] < 0 && nev != {}
      modifies this
      ensures Valid() && Interest() == old(Interest())[fd := nev]
    {
      var p := Pollfd(fd, Read in nev, Write in nev);
      pollidxs := pollidxs[fd := pollcnt];
      polls := polls[..pollcnt] + [p];
      pollcnt := pollcnt + 1;
      assert MaskOf(p) == nev;
      forall f | 0 <= f < |pollidxs|
        ensures AtPlace(f) && (f != fd && pollidxs[f] >= 0 ==> polls[pollidxs[f]] == old(polls)[pollidxs[f]])
      {
        assert f != fd ==> old(AtPlace(f));
      }
    }

    /** Change the mask of an entry. */
    method SetMask(fd: nat, nev: Mask)
      requires Valid() && fd < |pollidxs| && pollidxs[fd] >= 0 && nev != {}
      modifies this`polls
      ensures Valid() && Interest() == old(Interest())[fd := nev]
    {
      var idx := pollidxs[fd];
      assert AtPlace(fd);
      polls := polls[idx := Pollfd(fd, Read in nev, Write in nev)];
      assert MaskOf(polls[idx]) == nev;
      forall f | 0 <= f < |pollidxs|
        ensures AtPlace(f) && (f != fd && pollidxs[f] >= 0 ==> polls[pollidxs[f]] == old(polls)[pollidxs[f]])
      {
        assert old(AtPlace(f));
      }
    }

    /** Fill the gap with the last entry. */
    method SwapRemove(fd: nat)
      requires Valid() && fd < |pollidxs| && pollidxs[fd] >= 0
      modifies this
      ensures Valid() && |pollidxs| == |old(pollidxs)|
      ensures forall f :: 0 <= f < |pollidxs| ==> Kept(f, fd, old(pollidxs), old(polls))
    {
      var idx := pollidxs[fd];
      assert AtPlace(fd);
      ghost var last := polls[pollcnt - 1].fd;
      pollidxs := pollidxs[fd := -1];
      pollcnt := pollcnt - 1;
      if idx < pollcnt {
        polls := polls[idx := polls[pollcnt]];
        pollidxs := pollidxs[polls[idx].fd := idx];
      }
      forall f | 0 <= f < |pollidxs|
        ensures AtPlace(f) && Kept(f, fd, old(pollidxs), old(polls))
      {
        assert old(AtPlace(f));
        if f != fd && f != last {
          assert pollidxs[f] == old(pollidxs[f]);
        }
      }
    }

    /** Unless it is gone, the entry of f is as it was, maybe at another place. */
    ghost predicate Kept(f: nat, gone: nat, idxs: seq<int>, ps: seq<Pollfd>)
      requires f < |pollidxs| == |idxs|
      reads this
    {
      && (pollidxs[f] >= 0 <==> f != gone && idxs[f] >= 0)
      && (pollidxs[f] >= 0 ==> pollidxs[f] < |polls| && idxs[f] < |ps| && polls[pollidxs[f]] == ps[idxs[f]])
    }

    method Remove(fd: nat)
      requires Valid() && fd < |pollidxs| && pollidxs[fd] >= 0
      modifies this
      ensures Valid() && Interest() == old(Interest()) - {fd}
    {
      hide AtPlace;
      ghost var was := Interest();
      SwapRemove(fd);
      forall f
        ensures f in Interest() <==> f in was && f != fd
        ensures f in Interest() ==> Interest()[f] == was[f]
      {
        assert 0 <= f < |pollidxs| ==> Kept(f, fd, old(pollidxs), old(polls));
      }
    }

    /** poll_modify */
    method Modify(fd: nat, oev: Mask, nev: Mask)
      requires Valid() && oev == Asked(fd)
      modifies this
      ensures Valid() && Interest() == if nev == {} then old(Interest()) - {fd} else old(Interest())[fd := nev]
    {
      if oev == nev {
        assert fd < |pollidxs| ==> AtPlace(fd);
        return;
      }
      Grow(fd);
      assert AtPlace(fd);
      if pollidxs[fd] < 0 {
        Allocate(fd, nev);
      } else if nev != {} {
        SetMask(fd, nev);
      } else {
        Remove(fd);
      }
    }
  }
}
