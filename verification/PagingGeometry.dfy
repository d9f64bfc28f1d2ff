/** How areas grow, and exactly when an extension succeeds. */
module PagingGeometry {

  import opened Bits
  import opened Paging
  import opened PagingBound
  import opened PagingOwnership
  import opened PagingRuns
  import Areas

  function Grown(m: Machine, op: Op): Mapped
    requires op.Extend? && op.p < |m.mms| && Usable(Of(m, op.p)) && InBounds(m, op)
  {
    IncVmaLimit(Of(m, op.p), op.vmaid, op.size, op.stale)
  }

  /** The pages an extension needs beyond RAM's free frames, each of which costs a victim and a swap frame. */
  function Shortage(m: Machine, size: nat): int {
    Areas.AlignUp(size) / PAGE_SIZE - |m.ram.free|
  }

  /**
    Exactly when an extension succeeds. The area's number is 1, and callers pass 0, so a non-empty area is tested
    against its own growth: the low 32 bits of the product of the old size and the increment must be neither zero nor
    above 2^31. A caller that passes 1 is never refused. Then every page beyond RAM's free frames must find a victim
    in the process's list and a free swap frame.
   */
  lemma ExtensionSucceeds(m: Machine, p: nat, vmaid: nat, size: nat, stale: seq<nat>)
    requires Sound(m) && InBounds(m, Extend(p, vmaid, size, stale))
    ensures Usable(Of(m, p))
    ensures var mm, amount, more := m.mms[p], Areas.AlignUp(size), Shortage(m, size);
            Grown(m, Extend(p, vmaid, size, stale)).ok <==>
            && (vmaid == 1 || mm.vmEnd == 0 || 1 <= (mm.vmEnd * amount) % 0x1_0000_0000 <= 0x8000_0000)
            && more <= |mm.fifo| && (more > 0 ==> more <= FreeSwap(m.swaps))
  {
    hide Owned, AllocOne, AllocPages;
    OwnedIsUsable(m, [], p);
    var v, amount := Of(m, p), Areas.AlignUp(size);
    assert Limits(m, p);
    ExtendOutcome(v, vmaid, size, stale);
    RangeTest(v.mm, amount);
  }

  lemma RangeTest(mm: Mm, amount: nat)
    requires mm.sbrk == mm.vmEnd && mm.vmEnd % PAGE_SIZE == 0 && mm.vmEnd + amount <= ADDRESS_LIMIT
    ensures RangeFree(mm, 1, amount)
    ensures RangeFree(mm, 0, amount) <==> mm.vmEnd == 0 || 1 <= (mm.vmEnd * amount) % 0x1_0000_0000 <= 0x8000_0000
  {
    if mm.vmEnd > 0 { Areas.ExtensionAccepted(0, 1, mm.vmEnd, amount); }
  }

  /** Two disjoint ranges of 64 KB: the product of their sizes is 2^32, so the second is refused. */
  lemma DoublingRefused(m: Machine, p: nat, stale: seq<nat>)
    requires Sound(m) && p < |m.mms| && m.mms[p].vmEnd == 0x1_0000
    ensures Allowed(m, Extend(p, 0, 0x1_0000, stale)) && Usable(Of(m, p))
    ensures !Grown(m, Extend(p, 0, 0x1_0000, stale)).ok
  {
    hide Owned, AllocOne, AllocPages, IncVmaLimit;
    assert Areas.AlignUp(0x1_0000) == 0x1_0000;
    ExtensionSucceeds(m, p, 0, 0x1_0000, stale);
    ExtendOutcome(Of(m, p), 0, 0x1_0000, stale);
  }

  /** Any process's first extension may lead there, whether or not its pages could be mapped. */
  lemma DoublingIsReached(m: Machine, p: nat, stale: seq<nat>)
    requires Booted(m) && p < |m.mms|
    ensures var grow := Extend(p, 0, 0x1_0000, stale);
            && Sound(m) && AllowedRun(m, [grow])
            && var n := Run(m, [grow]);
               Sound(n) && Allowed(n, grow) && Usable(Of(n, p)) && n.mms[p].vmEnd == 0x1_0000 && !Grown(n, grow).ok
  {
    var grow := Extend(p, 0, 0x1_0000, stale);
    BootedIsSound(m);
    assert Fresh(m.mms[p]);
    OwnedIsUsable(m, [], p);
    hide Owned, AllocOne, AllocPages, IncVmaLimit;
    assert Areas.AlignUp(0x1_0000) == 0x1_0000;
    DoSound(m, grow);
    var n := ExtendEffect(m, p, Of(m, p), 0, 0x1_0000, stale, Grown(m, grow));
    assert n == Do(m, grow);
    assert AllowedRun(m, [grow]) && Run(m, [grow]) == n by { assert [grow][1..] == [] && AllowedRun(n, []); }
    DoublingRefused(n, p, stale);
  }

  // ---------------------------------------------------------------------------------------------
  // Runs in which every extension succeeds
  // ---------------------------------------------------------------------------------------------

  ghost predicate AllGrown(m: Machine, ops: seq<Op>)
    requires Sound(m) && AllowedRun(m, ops)
    decreases |ops|
  {
    ops == [] ||
    (OwnedIsUsable(m, [], ops[0].p);
     DoSound(m, ops[0]);
     (ops[0].Extend? ==> Grown(m, ops[0]).ok) && AllGrown(Do(m, ops[0]), ops[1..]))
  }

  /** The bytes requested of process `p`, each request rounded up to whole pages. */
  function Requested(ops: seq<Op>, p: nat): nat {
    if ops == [] then 0
    else (if ops[0].Extend? && ops[0].p == p then Areas.AlignUp(ops[0].size) else 0) + Requested(ops[1..], p)
  }

  ghost predicate Filled(m: Machine) {
    forall p: nat, g: nat :: p < |m.mms| && g < m.mms[p].vmEnd / PAGE_SIZE ==> EntryAt(m, p, g) != Absent
  }

  lemma DoFilled(m: Machine, op: Op)
    requires Sound(m) && Allowed(m, op) && Filled(m) && Usable(Of(m, op.p))
    requires op.Extend? ==> Grown(m, op).ok
    ensures Sound(Do(m, op)) && Filled(Do(m, op))
    ensures op.Extend? ==> Succeeds(Of(m, op.p), op.vmaid, op.size)
  {
    hide Owned, AllocOne, AllocPages, IncVmaLimit;
    DoEffect(m, op);
    var m' := Do(m, op);
    if op.Extend? { ExtendOutcome(Of(m, op.p), op.vmaid, op.size, op.stale); }
    forall q: nat, g: nat | q < |m'.mms| && g < m'.mms[q].vmEnd / PAGE_SIZE ensures EntryAt(m', q, g) != Absent {
      assert Limits(m, q);
      assert EntryAt(m, q, g) == Absent ==> Maps(m, op, q, g);
    }
  }

  /** The pages that accesses of a run map for process `p`. */
  ghost function Faulted(m: Machine, ops: seq<Op>, p: nat): set<nat>
    requires Sound(m) && AllowedRun(m, ops)
    decreases |ops|
  {
    if ops == [] then {}
    else
      DoSound(m, ops[0]);
      FaultedBy(m, ops[0], p) + Faulted(Do(m, ops[0]), ops[1..], p)
  }

  function FaultedBy(m: Machine, op: Op, p: nat): set<nat> {
    if !op.Extend? && op.p == p && EntryAt(m, p, op.addr / PAGE_SIZE) == Absent then {op.addr / PAGE_SIZE} else {}
  }

  /**
    While no extension fails, an area is as long as what was requested, and mapped are exactly the pages
    below its end and those that faults beyond it have mapped.
   */
  lemma {:induction false} AreaIsFilled(m: Machine, ops: seq<Op>, p: nat)
    requires Sound(m) && Filled(m) && AllowedRun(m, ops) && AllGrown(m, ops) && p < |m.mms|
    ensures var n := Run(m, ops);
            && |n.mms| == |m.mms| && n.mms[p].vmEnd == m.mms[p].vmEnd + Requested(ops, p)
            && n.mms[p].sbrk == n.mms[p].vmEnd && n.mms[p].vmEnd % PAGE_SIZE == 0
            && forall g: nat :: EntryAt(n, p, g) != Absent <==>
                 g < n.mms[p].vmEnd / PAGE_SIZE || EntryAt(m, p, g) != Absent || g in Faulted(m, ops, p)
    decreases |ops|
  {
    hide Owned, CanPerform, Covers, Do, Filled;
    if ops == [] {
      assert Limits(m, p);
      assert forall g: nat :: g < m.mms[p].vmEnd / PAGE_SIZE ==> EntryAt(m, p, g) != Absent by { FilledBelow(m, p); }
    } else {
      OwnedIsUsable(m, [], ops[0].p);
      DoFilled(m, ops[0]);
      DoEffect(m, ops[0]);
      assert Limits(m, p);
      AreaIsFilled(Do(m, ops[0]), ops[1..], p);
    }
  }

  lemma FilledBelow(m: Machine, p: nat)
    requires Filled(m) && p < |m.mms|
    ensures forall g: nat :: g < m.mms[p].vmEnd / PAGE_SIZE ==> EntryAt(m, p, g) != Absent
  {}
}
