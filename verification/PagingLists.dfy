/**
  The replacement list and the resident pages: a page resident but not on its process's list is never
  evicted. Only an extension that runs out of swap frames leaves one, the page it had taken off the list.
 */
module PagingLists {

  import opened Bits
  import opened Paging
  import opened PagingBound
  import opened PagingOwnership
  import opened PagingRuns
  import opened Seqs
  import Areas

  /** The resident pages that are not on the list. */
  function Unlisted(mm: Mm): set<nat> {
    set g: nat | g < |mm.pgd| && mm.pgd[g].Resident? && g !in mm.fifo
  }

  lemma OneUnlisted(v: View, frames: seq<nat>, stale: seq<nat>)
    requires Usable(v)
    ensures var r := AllocOne(v, frames, stale);
            Unlisted(r.view.mm) == Unlisted(v.mm) + if r.status == OutOfMemory then {Last(v.mm.fifo)} else {}
  {
    if v.ram.free == [] && v.mm.fifo != [] {
      DropLastNoDup(v.mm.fifo);
      assert Last(v.mm.fifo) in v.mm.fifo;
    }
  }

  /** An allocation takes one page off the list for good if it runs out of memory, and else none. */
  lemma {:induction false} AllocUnlisted(v: View, req: nat, frames: seq<nat>, stale: seq<nat>)
    requires Usable(v)
    ensures var r := AllocPages(v, req, frames, stale);
            && Unlisted(v.mm) <= Unlisted(r.view.mm)
            && |Unlisted(r.view.mm)| == |Unlisted(v.mm)| + if r.status == OutOfMemory then 1 else 0
    decreases req
  {
    if req == 0 {
    } else {
      var r := AllocOne(v, frames, stale);
      OneUnlisted(v, frames, stale);
      assert v.mm.fifo != [] ==> Last(v.mm.fifo) in v.mm.fifo;
      hide AllocOne;
      if r.status == Success { AllocUnlisted(r.view, req - 1, r.frames, stale); }
    }
  }

  lemma MapUnlisted(mm: Mm, first: nat, frames: seq<nat>)
    requires first + |frames| <= |mm.pgd|
    requires forall g :: first <= g < first + |frames| ==> mm.pgd[g] == Absent
    ensures Unlisted(MapPages(mm, first, frames)) == Unlisted(mm)
  {
    var mm' := MapPages(mm, first, frames);
    MapEntries(mm, first, frames);
    MapLists(mm, first, frames);
    MapsOnly(mm, first, frames);
    forall g: nat ensures g in Unlisted(mm') <==> g in Unlisted(mm) {
      assert mm'.fifo == mm'.fifo[..|frames|] + mm.fifo;
    }
  }

  lemma {:induction false} MapsOnly(mm: Mm, first: nat, frames: seq<nat>)
    requires first + |frames| <= |mm.pgd|
    ensures forall g :: g in MapPages(mm, first, frames).fifo ==> g in mm.fifo || first <= g < first + |frames|
    decreases |frames|
  {
    if frames == [] {
    } else {
      var mm1 := mm.(pgd := mm.pgd[first := Resident(frames[0])], fifo := [first] + mm.fifo);
      MapsOnly(mm1, first + 1, frames[1..]);
    }
  }

  lemma FaultUnlisted(v: View, g: nat)
    requires Usable(v) && CanAccess(v, g)
    ensures Unlisted(GetPage(v, g).mm) == Unlisted(v.mm)
  {
    if v.mm.pgd[g] == Absent {
      DropLastNoDup(v.mm.fifo);
      assert Last(v.mm.fifo) in v.mm.fifo;
    }
  }

  /** An extension finds a page to evict, but no room for it. */
  predicate Starves(v: View, vmaid: nat, size: nat) {
    && |v.swaps| == SWAPS && RangeFree(v.mm, vmaid, Areas.AlignUp(size))
    && Outcome(Areas.AlignUp(size) / PAGE_SIZE, |v.ram.free|, |v.mm.fifo|, FreeSwap(v.swaps)) == OutOfMemory
  }

  predicate RunsOut(m: Machine, op: Op, p: nat)
    requires op.p < |m.mms|
  {
    op.Extend? && op.p == p && Starves(Of(m, p), op.vmaid, op.size)
  }

  lemma MapRamUnlisted(v: View, first: nat, n: nat, stale: seq<nat>)
    requires Usable(v) && first + n <= MAX_PGN
    requires MapRam(v, first, n, stale).ok ==> forall g :: first <= g < first + n ==> v.mm.pgd[g] == Absent
    ensures var r := MapRam(v, first, n, stale);
            && Unlisted(v.mm) <= Unlisted(r.view.mm)
            && |Unlisted(r.view.mm)| == |Unlisted(v.mm)| +
                 if Outcome(n, |v.ram.free|, |v.mm.fifo|, FreeSwap(v.swaps)) == OutOfMemory then 1 else 0
  {
    AllocUnlisted(v, n, [], stale);
    ExactSuccessBound(v, n, [], stale);
    AllocKeepsSize(v, n, [], stale);
    hide AllocOne, AllocPages, Unlisted;
    var r := AllocPages(v, n, [], stale);
    if r.status == Success {
      AllocLinks(v, n, [], stale, 0);
      MapUnlisted(r.view.mm, first, r.frames[..n]);
    }
  }

  lemma ExtendUnlisted(v: View, vmaid: nat, size: nat, stale: seq<nat>)
    requires Usable(v) && vmaid <= 1 && v.mm.vmEnd + Areas.AlignUp(size) <= ADDRESS_LIMIT && v.mm.vmEnd % PAGE_SIZE == 0
    requires Succeeds(v, vmaid, size) ==>
               forall g :: v.mm.vmEnd / PAGE_SIZE <= g < (v.mm.vmEnd + Areas.AlignUp(size)) / PAGE_SIZE ==>
                 v.mm.pgd[g] == Absent
    ensures var mm := IncVmaLimit(v, vmaid, size, stale).view.mm;
            && Unlisted(v.mm) <= Unlisted(mm)
            && |Unlisted(mm)| == |Unlisted(v.mm)| + if Starves(v, vmaid, size) then 1 else 0
  {
    ExtendOutcome(v, vmaid, size, stale);
    var amount := Areas.AlignUp(size);
    if RangeFree(v.mm, vmaid, amount) {
      var v1 := v.(mm := v.mm.(sbrk := v.mm.sbrk + amount, vmEnd := v.mm.sbrk + amount));
      assert Usable(v1) && Unlisted(v1.mm) == Unlisted(v.mm);
      hide MapRam, Unlisted;
      MapRamUnlisted(v1, v.mm.vmEnd / PAGE_SIZE, amount / PAGE_SIZE, stale);
    }
  }

  lemma DoUnlisted(m: Machine, op: Op, p: nat)
    requires Sound(m) && Allowed(m, op) && p < |m.mms|
    ensures |m.swaps| == SWAPS && p < |Do(m, op).mms|
    ensures Unlisted(m.mms[p]) <= Unlisted(Do(m, op).mms[p])
    ensures |Unlisted(Do(m, op).mms[p])| == |Unlisted(m.mms[p])| + if RunsOut(m, op, p) then 1 else 0
  {
    OwnedIsUsable(m, [], op.p);
    assert Limits(m, op.p) && |m.swaps| == SWAPS;
    var v := Of(m, op.p);
    hide Owned, Unlisted, AllocOne, AllocPages;
    if op.p == p {
      if op.Extend? {
        forall g | Succeeds(v, op.vmaid, op.size)
                   && v.mm.vmEnd / PAGE_SIZE <= g < (v.mm.vmEnd + Areas.AlignUp(op.size)) / PAGE_SIZE
          ensures v.mm.pgd[g] == Absent
        {
          assert Added(m, p, op.size, p, g);
        }
        hide IncVmaLimit;
        ExtendUnlisted(v, op.vmaid, op.size, op.stale);
      } else {
        FaultUnlisted(v, op.addr / PAGE_SIZE);
        hide GetPage;
      }
    }
  }

  /** How many extensions of process `p` ran out of memory. */
  ghost function TimesOut(m: Machine, ops: seq<Op>, p: nat): nat
    requires Sound(m) && AllowedRun(m, ops)
    decreases |ops|
  {
    if ops == [] then 0
    else
      DoSound(m, ops[0]);
      (if RunsOut(m, ops[0], p) then 1 else 0) + TimesOut(Do(m, ops[0]), ops[1..], p)
  }

  /** Along any run pages off the list stay resident and off it, and each failure of that kind adds one. */
  lemma {:induction false} RunUnlisted(m: Machine, ops: seq<Op>, p: nat)
    requires Sound(m) && AllowedRun(m, ops) && p < |m.mms|
    ensures p < |Run(m, ops).mms| && Unlisted(m.mms[p]) <= Unlisted(Run(m, ops).mms[p])
    ensures |Unlisted(Run(m, ops).mms[p])| == |Unlisted(m.mms[p])| + TimesOut(m, ops, p)
    decreases |ops|
  {
    hide Owned, Unlisted, CanPerform, Covers, Do;
    if ops == [] {
    } else {
      DoSound(m, ops[0]);
      DoUnlisted(m, ops[0], p);
      RunUnlisted(Do(m, ops[0]), ops[1..], p);
    }
  }

  /**
    From start-up, as many resident pages of a process are off its list as extensions of it ran out of
    memory; so the list holds exactly the resident pages if and only if none did.
   */
  lemma ListsHoldResidentPages(m: Machine, ops: seq<Op>, n: Machine, p: nat)
    requires Reaches(m, ops, n) && p < |m.mms|
    ensures p < |n.mms| && |Unlisted(n.mms[p])| == TimesOut(m, ops, p)
    ensures TimesOut(m, ops, p) == 0 <==>
            forall g: nat :: g in n.mms[p].fifo <==> EntryAt(n, p, g).Resident?
  {
    assert Fresh(m.mms[p]);
    assert Unlisted(m.mms[p]) == {};
    RunUnlisted(m, ops, p);
    RunSound(m, ops);
    assert forall g: nat :: g in n.mms[p].fifo ==> EntryAt(n, p, g).Resident?;
    if Unlisted(n.mms[p]) == {} {
      assert forall g: nat :: EntryAt(n, p, g).Resident? ==> g !in Unlisted(n.mms[p]);
    } else {
      var g :| g in Unlisted(n.mms[p]);
      assert EntryAt(n, p, g).Resident?;
    }
  }
}
