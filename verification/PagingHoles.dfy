/**
  Faults happen only beyond the end of an area. A page below it that is not mapped is left by an extension
  that ran out of frames, and from then on a fault of that process finds nothing to exchange.
 */
module PagingHoles {

  import opened Bits
  import opened Paging
  import opened PagingBound
  import opened PagingOwnership
  import opened PagingRuns
  import Areas

  /** RAM is used up, and the process has no page to evict or no device has room for it. */
  ghost predicate Exhausted(v: View) {
    v.ram.free == [] && |v.swaps| == SWAPS && (v.mm.fifo == [] || FreeSwap(v.swaps) == 0)
  }

  /** Free lists and the replacement list are no longer than they were. */
  ghost predicate Shrinks(v: View, v': View) {
    && |v.swaps| == |v'.swaps| == SWAPS
    && |v'.ram.free| <= |v.ram.free| && FreeSwap(v'.swaps) <= FreeSwap(v.swaps)
  }

  lemma OneShrinks(v: View, frames: seq<nat>, stale: seq<nat>)
    requires Usable(v)
    ensures var r := AllocOne(v, frames, stale);
            && Shrinks(v, r.view) && |r.view.mm.fifo| <= |v.mm.fifo|
            && (r.status != Success ==> Exhausted(r.view))
  {}

  lemma {:induction false} AllocShrinks(v: View, req: nat, frames: seq<nat>, stale: seq<nat>)
    requires Usable(v)
    ensures var r := AllocPages(v, req, frames, stale);
            && Shrinks(v, r.view) && |r.view.mm.fifo| <= |v.mm.fifo|
            && (r.status != Success ==> Exhausted(r.view))
    decreases req
  {
    hide AllocOne, Usable, Exhausted;
    if req == 0 {
      assert |v.swaps| == SWAPS by { OneShrinks(v, frames, stale); }
    } else {
      var r := AllocOne(v, frames, stale);
      OneShrinks(v, frames, stale);
      if r.status == Success { AllocShrinks(r.view, req - 1, r.frames, stale); }
    }
  }

  /** An extension that fails for want of frames leaves its process exhausted, and so does any that starts so. */
  lemma ExtendShrinks(v: View, vmaid: nat, size: nat, stale: seq<nat>)
    requires Usable(v) && vmaid <= 1 && v.mm.vmEnd + Areas.AlignUp(size) <= ADDRESS_LIMIT
    ensures var r := IncVmaLimit(v, vmaid, size, stale);
            && Shrinks(v, r.view)
            && (!r.ok && RangeFree(v.mm, vmaid, Areas.AlignUp(size)) ==> Exhausted(r.view))
            && (Exhausted(v) ==> Exhausted(r.view))
  {
    var amount := Areas.AlignUp(size);
    var v1 := v.(mm := v.mm.(sbrk := v.mm.sbrk + amount, vmEnd := v.mm.sbrk + amount));
    AllocShrinks(v1, amount / PAGE_SIZE, [], stale);
    ExactSuccessBound(v1, amount / PAGE_SIZE, [], stale);
    hide AllocOne;
    var r := IncVmaLimit(v, vmaid, size, stale);
    if Exhausted(v) && RangeFree(v.mm, vmaid, amount) && r.ok {
      assert amount / PAGE_SIZE == 0;
    }
  }

  /** Every process with an unmapped page below the end of its area is exhausted. */
  ghost predicate HolesExhausted(m: Machine) {
    forall p: nat, g: nat :: p < |m.mms| && g < m.mms[p].vmEnd / PAGE_SIZE && EntryAt(m, p, g) == Absent ==>
      Exhausted(Of(m, p))
  }

  lemma FaultShrinks(v: View, g: nat)
    requires Usable(v) && CanAccess(v, g)
    ensures Shrinks(v, GetPage(v, g)) && (v.mm.pgd[g] == Absent ==> !Exhausted(v))
    ensures v.mm.pgd[g] != Absent ==> GetPage(v, g) == v
  {}

  /** Of an operation, all that the exhaustion of a process depends on. */
  lemma DoShrinks(m: Machine, op: Op)
    requires Sound(m) && Allowed(m, op)
    ensures Do(m, op).mms == m.mms[op.p := Do(m, op).mms[op.p]] && Shrinks(Of(m, op.p), Of(Do(m, op), op.p))
    ensures Exhausted(Of(m, op.p)) ==> Exhausted(Of(Do(m, op), op.p))
    ensures op.Extend? && Growth(m, op, op.p) > 0 ==>
              Succeeds(Of(m, op.p), op.vmaid, op.size) || Exhausted(Of(Do(m, op), op.p))
  {
    OwnedIsUsable(m, [], op.p);
    hide Owned, AllocOne, AllocPages;
    var v := Of(m, op.p);
    PutOf(m, op.p, Perform(v, op), v);
    if op.Extend? {
      hide IncVmaLimit;
      ExtendShrinks(v, op.vmaid, op.size, op.stale);
      ExtendOutcome(v, op.vmaid, op.size, op.stale);
    } else {
      FaultShrinks(v, op.addr / PAGE_SIZE);
      hide GetPage;
    }
  }

  lemma DoHoles(m: Machine, op: Op)
    requires Sound(m) && Allowed(m, op) && HolesExhausted(m)
    ensures Sound(Do(m, op)) && HolesExhausted(Do(m, op))
  {
    DoEffect(m, op);
    DoShrinks(m, op);
    var m' := Do(m, op);
    hide Sound, Do, InBounds, Covers;
    forall q: nat, h: nat | q < |m'.mms| && h < m'.mms[q].vmEnd / PAGE_SIZE && EntryAt(m', q, h) == Absent
      ensures Exhausted(Of(m', q))
    {
      assert EntryAt(m, q, h) == Absent;
      if h < m.mms[q].vmEnd / PAGE_SIZE {
        assert Exhausted(Of(m, q));
      } else {
        assert q == op.p && Growth(m, op, q) > 0 && !Maps(m, op, q, h);
      }
    }
  }

  lemma {:induction false} RunHoles(m: Machine, ops: seq<Op>)
    requires Sound(m) && AllowedRun(m, ops) && HolesExhausted(m)
    ensures HolesExhausted(Run(m, ops))
    decreases |ops|
  {
    if ops == [] {
    } else {
      DoHoles(m, ops[0]);
      RunHoles(Do(m, ops[0]), ops[1..]);
    }
  }

  /**
    Below the end of an area an access to a page that is not mapped never finds what a fault exchanges: the
    replacement list is empty, or no swap device has a free frame. So every fault that follows no
    uninitialised index lies beyond the end.
   */
  lemma FaultsLieBeyondTheEnd(m: Machine, ops: seq<Op>, n: Machine, p: nat, addr: nat)
    requires Reaches(m, ops, n) && p < |n.mms| && EntryAt(n, p, addr / PAGE_SIZE) == Absent
    ensures addr < n.mms[p].vmEnd ==>
              n.mms[p].fifo == [] || forall t :: 0 <= t < |n.swaps| ==> n.swaps[t].free == []
    ensures InBounds(n, Read(p, addr)) ==> n.mms[p].vmEnd <= addr
  {
    assert forall q :: 0 <= q < |m.mms| ==> Fresh(m.mms[q]);
    RunHoles(m, ops);
    RunSound(m, ops);
    assert Limits(n, p);
    if addr < n.mms[p].vmEnd { assert Exhausted(Of(n, p)); }
  }
}
