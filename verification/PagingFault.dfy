/** When a fault spares the bytes of every page already mapped. */
module PagingFault {

  import opened Bits
  import opened Paging
  import opened PagingConservation
  import opened PagingOwnership
  import opened PagingRuns
  import opened Seqs

  /** The frame that changes hands, and the swap frame that its old page goes to. */
  ghost predicate Exchanges(v: View, victim: nat, f: nat, off: nat) {
    && Usable(v) && CanFault(v, 0)
    && victim == Last(v.mm.fifo) && victim < |v.mm.pgd| && v.mm.pgd[victim] == Resident(f)
    && off == v.swaps[v.active].free[0] && off < |v.swaps[v.active].frames|
  }

  lemma FaultExchanges(v: View) returns (victim: nat, f: nat, off: nat)
    requires Usable(v) && CanFault(v, 0)
    ensures Exchanges(v, victim, f, off)
  {
    victim := Last(v.mm.fifo);
    assert victim in v.mm.fifo;
    f, off := v.mm.pgd[victim].fpn, v.swaps[v.active].free[0];
    assert DeviceOk(v.swaps[v.active]) && off in v.swaps[v.active].free;
  }

  lemma FaultEntries(m: Machine, p: nat, v: View, g: nat, victim: nat, f: nat, off: nat)
    requires p < |m.mms| && v == Of(m, p) && Exchanges(v, victim, f, off) && g < MAX_PGN && EntryAt(m, p, g) == Absent
    ensures var m' := Put(m, p, Fault(v, g, 0));
            forall q: nat, h: nat :: EntryAt(m', q, h) ==
              if q == p && h == g then Resident(f) else if q == p && h == victim then Swapped(v.active, off)
              else EntryAt(m, q, h)
  {}

  /**
    The second copy of a fault overwrites one frame of the active swap device, the one whose number is
    that of the RAM frame changing hands, with the bytes of RAM's first frame.
   */
  lemma FaultBytes(m: Machine, p: nat, v: View, g: nat, victim: nat, f: nat, off: nat)
    requires p < |m.mms| && v == Of(m, p) && Exchanges(v, victim, f, off) && g < MAX_PGN
    ensures var v' := Fault(v, g, 0);
            && v'.ram == v.ram && v'.used == v.used && v'.active == v.active && |v'.swaps| == SWAPS
            && v'.swaps[v.active].free == v.swaps[v.active].free[1..]
            && (forall t :: 0 <= t < SWAPS && t != v.active ==> v'.swaps[t] == v.swaps[t])
            && |v'.swaps[v.active].frames| == |v.swaps[v.active].frames|
            && forall o :: 0 <= o < |v.swaps[v.active].frames| ==>
                 v'.swaps[v.active].frames[o] ==
                 if o == f then v.ram.frames[0] else if o == off then v.ram.frames[f] else v.swaps[v.active].frames[o]
  {}

  /**
    An access that faults finds in its page the bytes of the page whose frame it took over; a write changes one
    of them, and that byte then belongs to the page accessed.
   */
  lemma FaultingAccess(m: Machine, p: nat, addr: nat, b: Byte)
    requires Sound(m) && Allowed(m, Write(p, addr, b)) && EntryAt(m, p, addr / PAGE_SIZE) == Absent
    ensures Usable(Of(m, p)) && m.mms[p].fifo != [] && EntryAt(m, p, Last(m.mms[p].fifo)).Resident?
    ensures Stored(m.ram, m.swaps, EntryAt(m, p, Last(m.mms[p].fifo)))
    ensures Peek(GetPage(Of(m, p), addr / PAGE_SIZE), addr) == PageOf(m, p, Last(m.mms[p].fifo))[addr % PAGE_SIZE]
    ensures var m', e := Do(m, Write(p, addr, b)), EntryAt(m, p, Last(m.mms[p].fifo));
            && EntryAt(m', p, addr / PAGE_SIZE) == e && Stored(m'.ram, m'.swaps, e)
            && PageOf(m', p, addr / PAGE_SIZE) == PageOf(m, p, Last(m.mms[p].fifo))[addr % PAGE_SIZE := b]
  {
    OwnedIsUsable(m, [], p);
    DoSound(m, Write(p, addr, b));
    assert Last(m.mms[p].fifo) in m.mms[p].fifo;
    assert Stored(m.ram, m.swaps, EntryAt(m, p, Last(m.mms[p].fifo)));
    var v, g := Of(m, p), addr / PAGE_SIZE;
    assert GetPage(v, g) == Fault(v, g, 0);
    hide Owned;
  }

  /** What is at stake in that swap frame, if anything, are bytes that RAM's first frame holds too. */
  ghost predicate Harmless(m: Machine, v: View, f: nat, off: nat)
    requires v.active < |v.swaps| && 0 < |v.ram.frames| && f < |v.ram.frames| && f < |v.swaps[v.active].frames|
  {
    if off == f then v.ram.frames[f] == v.ram.frames[0]
    else InUse(m, Swapped(v.active, f)) ==> v.swaps[v.active].frames[f] == v.ram.frames[0]
  }

  /** What becomes of the bytes of one page. */
  lemma PageKept(m: Machine, p: nat, v: View, g: nat, victim: nat, f: nat, off: nat, q: nat, h: nat)
    requires Owned(m, []) && p < |m.mms| && v == Of(m, p) && Exchanges(v, victim, f, off)
    requires g < MAX_PGN && EntryAt(m, p, g) == Absent && EntryAt(m, q, h) != Absent
    ensures var m' := Put(m, p, Fault(v, g, 0));
            && EntryAt(m', q, h) != Absent
            && Stored(m.ram, m.swaps, EntryAt(m, q, h)) && Stored(m'.ram, m'.swaps, EntryAt(m', q, h))
            && (PageOf(m', q, h) == PageOf(m, q, h) <==>
                if q == p && h == victim then off != f || v.ram.frames[f] == v.ram.frames[0]
                else EntryAt(m, q, h) == Swapped(v.active, f) ==> v.swaps[v.active].frames[f] == v.ram.frames[0])
  {
    var m' := FaultOwned(m, p, v, g);
    FaultEntries(m, p, v, g, victim, f, off);
    FaultBytes(m, p, v, g, victim, f, off);
    assert EntryAt(m, p, victim) == Resident(f);
    assert Stored(m.ram, m.swaps, EntryAt(m, q, h)) && Stored(m'.ram, m'.swaps, EntryAt(m', q, h));
    FreeIsUnused(m, []);
    hide Owned, Fault, CanFault, Usable;
    assert off in v.swaps[v.active].free && !InUse(m, Swapped(v.active, off));
    assert EntryAt(m, q, h) != Swapped(v.active, off);
  }

  /** A fault keeps the bytes of every page mapped before exactly if it is harmless in this sense. */
  lemma FaultKeepsIffHarmless(m: Machine, p: nat, v: View, g: nat, victim: nat, f: nat, off: nat)
    requires Owned(m, []) && p < |m.mms| && v == Of(m, p) && Exchanges(v, victim, f, off)
    requires g < MAX_PGN && EntryAt(m, p, g) == Absent
    ensures Keeps(m, Put(m, p, Fault(v, g, 0))) <==> Harmless(m, v, f, off)
  {
    var m' := Put(m, p, Fault(v, g, 0));
    assert EntryAt(m, p, victim) == Resident(f);
    hide Owned, Fault, CanFault, Usable;
    forall q: nat, h: nat | EntryAt(m, q, h) != Absent
      ensures Stored(m.ram, m.swaps, EntryAt(m, q, h)) && Stored(m'.ram, m'.swaps, EntryAt(m', q, h))
      ensures EntryAt(m', q, h) != Absent
      ensures PageOf(m', q, h) == PageOf(m, q, h) <==>
              if q == p && h == victim then off != f || v.ram.frames[f] == v.ram.frames[0]
              else EntryAt(m, q, h) == Swapped(v.active, f) ==> v.swaps[v.active].frames[f] == v.ram.frames[0]
    {
      PageKept(m, p, v, g, victim, f, off, q, h);
    }
    if InUse(m, Swapped(v.active, f)) {
      var q: nat, h: nat :| EntryAt(m, q, h) == Swapped(v.active, f);
      assert !(q == p && h == victim);
    }
  }
}
