/** Start-up of the memory system: formatted devices, and processes with empty memory. */
module Boot {

  import opened Bits
  import opened Paging
  import opened PagingOwnership
  import opened PagingRuns
  import opened Kernel
  import opened AddressSpace
  import opened PhysicalMemory
  import opened Syscall

  method InitDevices(ram: nat, swaps: seq<nat>) returns (mram: MemPhy, mswp: seq<MemPhy>)
    requires |swaps| == SWAPS
    ensures |mswp| == SWAPS && Apart(mram, mswp)
    ensures fresh(mram) && fresh(mram.storage) && forall d :: d in mswp ==> fresh(d) && fresh(d.storage)
    ensures Formatted(mram.Abs()) && |mram.Abs().frames| == ram / PAGE_SIZE && mram.usedFp == []
    ensures forall i :: 0 <= i < SWAPS ==>
              Formatted(mswp[i].Abs()) && |mswp[i].Abs().frames| == swaps[i] / PAGE_SIZE
  {
    mram := new MemPhy(ram);
    var s0 := new MemPhy(swaps[0]);
    var s1 := new MemPhy(swaps[1]);
    var s2 := new MemPhy(swaps[2]);
    var s3 := new MemPhy(swaps[3]);
    mswp := [s0, s1, s2, s3];
  }

  /** A process as the loader makes it, on the given devices. */
  ghost predicate Born(c: Caller, mram: MemPhy, mswp: seq<MemPhy>)
    reads c.mm, c.mm.pgd
  {
    && c.mram == mram && c.mswp == mswp && c.activeMswpId == 0 && c.activeMswp in mswp
    && |mswp| == SWAPS && c.activeMswp == mswp[0] && Apart(mram, mswp) && Beside(c.mm.pgd, mram, mswp)
    && c.mm.pgd.Length == MAX_PGN && c.mm.spine == [] && c.mm.fifoPgn == null && c.mm.Zeroed() && Fresh(c.mm.Abs())
  }

  method NewProcess(mram: MemPhy, mswp: seq<MemPhy>) returns (c: Caller)
    requires |mswp| == SWAPS && Apart(mram, mswp)
    ensures fresh(c) && fresh(c.mm) && fresh(c.mm.pgd) && Born(c, mram, mswp)
  {
    var mm := new MmStruct();
    assert Beside(mm.pgd, mram, mswp);
    c := new Caller(mram, mswp, 0, mm);
  }

  method NewProcesses(mram: MemPhy, mswp: seq<MemPhy>, n: nat) returns (callers: seq<Caller>)
    requires |mswp| == SWAPS && Apart(mram, mswp)
    ensures |callers| == n
    ensures forall q :: 0 <= q < n ==> fresh(callers[q].mm) && fresh(callers[q].mm.pgd) && Born(callers[q], mram, mswp)
    ensures forall q, r :: 0 <= q < r < n ==> callers[q].mm != callers[r].mm && callers[q].mm.pgd != callers[r].mm.pgd
  {
    callers := [];
    while |callers| < n
      invariant |callers| <= n
      invariant forall q :: 0 <= q < |callers| ==>
                  fresh(callers[q].mm) && fresh(callers[q].mm.pgd) && Born(callers[q], mram, mswp)
      invariant forall q, r :: 0 <= q < r < |callers| ==>
                  callers[q].mm != callers[r].mm && callers[q].mm.pgd != callers[r].mm.pgd
    {
      var c := NewProcess(mram, mswp);
      callers := callers + [c];
    }
  }

  ghost function Memory(mram: MemPhy, mswp: seq<MemPhy>, callers: seq<Caller>): set<object> {
    {mram, mram.storage} + (set d | d in mswp) + (set d | d in mswp :: d.storage as object)
    + (set c | c in callers :: c.mm as object) + (set c | c in callers :: c.mm.pgd as object)
  }

  ghost function Mms(callers: seq<Caller>): (r: seq<Mm>)
    reads set c | c in callers :: c.mm, set c | c in callers :: c.mm.pgd
    ensures |r| == |callers| && forall q :: 0 <= q < |r| ==> r[q] == callers[q].mm.Abs()
  {
    seq(|callers|, q requires 0 <= q < |callers|
                     reads set c | c in callers :: c.mm, set c | c in callers :: c.mm.pgd => callers[q].mm.Abs())
  }

  lemma MemoryIs(mram: MemPhy, mswp: seq<MemPhy>, callers: seq<Caller>)
    ensures forall o :: o in Memory(mram, mswp, callers) ==>
              || o == mram || o == mram.storage || (exists d :: d in mswp && (o == d || o == d.storage))
              || (exists c :: c in callers && (o == c.mm || o == c.mm.pgd))
  {}

  lemma BornHolds(c: Caller, mram: MemPhy, mswp: seq<MemPhy>, callers: seq<Caller>, m: Machine, p: nat)
    requires Born(c, mram, mswp) && c in callers && p < |m.mms| && m.mms[p] == c.mm.Abs()
    requires m.ram == mram.Abs() && m.used == mram.usedFp && m.active == 0
    requires m.swaps == [mswp[0].Abs(), mswp[1].Abs(), mswp[2].Abs(), mswp[3].Abs()]
    ensures HoldsOne(c, Of(m, p)) && Footprint(c) <= Memory(mram, mswp, callers)
  {}

  lemma BornBooted(mram: MemPhy, mswp: seq<MemPhy>, callers: seq<Caller>, m: Machine)
    requires |mswp| == SWAPS && forall c :: c in callers ==> Born(c, mram, mswp)
    requires m == Machine(mram.Abs(), [], [mswp[0].Abs(), mswp[1].Abs(), mswp[2].Abs(), mswp[3].Abs()], 0, Mms(callers))
    requires Formatted(m.ram) && |m.ram.frames| <= FPN_LIMIT
    requires forall i :: 0 <= i < SWAPS ==> Formatted(mswp[i].Abs()) && |mswp[i].Abs().frames| <= SWPOFF_LIMIT
    ensures Booted(m)
  {
    hide Cut, Formatted, Fresh, MmStruct.Zeroed, Apart, Beside, MemPhy.Abs, MmStruct.Abs;
    forall p | 0 <= p < |m.mms| ensures Fresh(m.mms[p]) { assert Born(callers[p], mram, mswp); }
  }

  lemma AllBornHolds(mram: MemPhy, mswp: seq<MemPhy>, callers: seq<Caller>, m: Machine)
    requires |mswp| == SWAPS && forall c :: c in callers ==> Born(c, mram, mswp)
    requires forall q, r :: 0 <= q < r < |callers| ==>
               callers[q].mm != callers[r].mm && callers[q].mm.pgd != callers[r].mm.pgd
    requires mram.usedFp == []
    requires m == Machine(mram.Abs(), [], [mswp[0].Abs(), mswp[1].Abs(), mswp[2].Abs(), mswp[3].Abs()], 0, Mms(callers))
    ensures Holds(callers, m, Memory(mram, mswp, callers))
  {
    hide Fresh, MmStruct.Zeroed, Apart, Beside, MemPhy.Abs, MmStruct.Abs, HoldsOne, Footprint, Memory;
    forall q | 0 <= q < |callers|
      ensures Footprint(callers[q]) <= Memory(mram, mswp, callers) && HoldsOne(callers[q], Of(m, q))
    {
      BornHolds(callers[q], mram, mswp, callers, m, q);
    }
    forall q, r | 0 <= q < |callers| && 0 <= r < |callers| && q != r ensures Separate(callers[q], callers[r]) {
      assert Born(callers[q], mram, mswp) && Born(callers[r], mram, mswp);
    }
  }

  /**
    Start-up: the heap then holds a machine as it is when every run begins, so that all runs can follow
    in place.
   */
  method Start(ram: nat, swaps: seq<nat>, n: nat)
    returns (callers: seq<Caller>, ghost m: Machine, ghost mem: set<object>)
    requires |swaps| == SWAPS && ram / PAGE_SIZE <= FPN_LIMIT
    requires forall i :: 0 <= i < SWAPS ==> swaps[i] / PAGE_SIZE <= SWPOFF_LIMIT
    ensures Booted(m) && Sound(m) && m.active == 0 && Holds(callers, m, mem) && fresh(mem) && |callers| == |m.mms| == n
    ensures |m.ram.frames| == ram / PAGE_SIZE
    ensures forall i :: 0 <= i < SWAPS ==> |m.swaps[i].frames| == swaps[i] / PAGE_SIZE
  {
    hide Cut, Formatted, Fresh, MmStruct.Zeroed, Apart, Beside, MemPhy.Abs, MmStruct.Abs;
    hide Booted, Sound, Holds, Memory, Mms;
    var mram, mswp := InitDevices(ram, swaps);
    callers := NewProcesses(mram, mswp, n);
    mem := Memory(mram, mswp, callers);
    assert fresh(mem) by { MemoryIs(mram, mswp, callers); }
    m := Machine(mram.Abs(), [], [mswp[0].Abs(), mswp[1].Abs(), mswp[2].Abs(), mswp[3].Abs()], 0, Mms(callers));
    BornBooted(mram, mswp, callers, m);
    BootedIsSound(m);
    AllBornHolds(mram, mswp, callers, m);
  }
}
