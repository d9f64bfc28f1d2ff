/**
  The paging operations in place, each tied to the value-level operation of the same step. `Caller` is
  the process making the system call: its own memory, shared RAM, and the four swap devices.
 */
module Kernel {

  import opened Bits
  import opened Paging
  import opened PagingBound
  import opened Seqs
  import opened PhysicalMemory
  import opened AddressSpace
  import Areas

  const OUT_OF_MEMORY := -3000

  /** The error codes are the negative numbers of the two ways to fail. */
  predicate Reports(code: int, s: Status) {
    && (code == 0 <==> s == Success)
    && (code == -1 <==> s == NoVictim)
    && (code == OUT_OF_MEMORY <==> s == OutOfMemory)
  }

  lemma OneReports(v: View, frames: seq<nat>, stale: seq<nat>)
    requires Usable(v)
    ensures AllocOne(v, frames, stale).status ==
            if v.ram.free != [] then Success else if v.mm.fifo == [] then NoVictim
            else if FreeSwap(v.swaps) > 0 then Success else OutOfMemory
  {}

  function FirstOf<T>(s: seq<T>, n: nat): seq<T> {
    if n <= |s| then s[..n] else s
  }

  function Rest<T>(s: seq<T>, n: nat): seq<T> {
    if n <= |s| then s[n..] else []
  }

  lemma DropUsable(v: View)
    requires Usable(v) && v.mm.fifo != []
    ensures Usable(v.(mm := v.mm.(fifo := DropLast(v.mm.fifo)))) && Last(v.mm.fifo) in v.mm.fifo
  {}

  class Caller {
    const mram: MemPhy
    const mswp: seq<MemPhy>
    const activeMswp: MemPhy
    const activeMswpId: nat
    const mm: MmStruct

    constructor (mram: MemPhy, mswp: seq<MemPhy>, activeMswpId: nat, mm: MmStruct)
      requires |mswp| == SWAPS && activeMswpId < SWAPS && mm.Linked() && mm.Zeroed() && mm.pgd.Length == MAX_PGN
      requires Apart(mram, mswp) && Beside(mm.pgd, mram, mswp)
      ensures this.mram == mram && this.mswp == mswp && this.activeMswpId == activeMswpId && this.mm == mm
      ensures Shape()
    {
      this.mram, this.mswp, this.activeMswpId, this.mm := mram, mswp, activeMswpId, mm;
      this.activeMswp := mswp[activeMswpId];
    }

    ghost predicate Shape()
      reads mm`fifoPgn, mm`spine, mm.spine, mm.pgd
    {
      && |mswp| == SWAPS && activeMswpId < SWAPS && activeMswp == mswp[activeMswpId]
      && Apart(mram, mswp) && Beside(mm.pgd, mram, mswp)
      && mm.Linked() && mm.Zeroed() && mm.pgd.Length == MAX_PGN
    }

    /** RAM and the swap devices with their storage. */
    ghost function Swap(): set<object>
      requires |mswp| == SWAPS
    {
      {mswp[0], mswp[1], mswp[2], mswp[3], mswp[0].storage, mswp[1].storage, mswp[2].storage, mswp[3].storage}
    }

    ghost function Swaps(): seq<Device>
      requires |mswp| == SWAPS
      reads Swap()
    {
      [mswp[0].Abs(), mswp[1].Abs(), mswp[2].Abs(), mswp[3].Abs()]
    }

    ghost function Abs(): View
      requires |mswp| == SWAPS
      reads mram, mram.storage, Swap(), mm, mm.pgd
    {
      View(mram.Abs(), mram.usedFp, Swaps(), activeMswpId, mm.Abs())
    }

    /** Copies RAM frame `fpn` to the first free frame, if any, of one swap device, the `j`-th. */
    method StoreOn(device: MemPhy, fpn: nat, ghost j: nat) returns (ok: bool, off: nat)
      requires Shape() && Usable(Abs()) && fpn < |Abs().ram.frames| && j < SWAPS && mswp[j] == device
      modifies device, device.storage
      ensures Shape() && unchanged(mm) && (ok <==> old(Abs()).swaps[j].free != [])
      ensures var v := old(Abs());
              Abs() == if ok then v.(swaps := v.swaps[j := WithPage(v, fpn, j)]) else v
      ensures ok ==> off == old(Abs()).swaps[j].free[0] && off < SWPOFF_LIMIT
    {
      ghost var v := Abs();
      assert |v.swaps[j].frames| <= SWPOFF_LIMIT;
      assert v.swaps[j].free != [] ==> v.swaps[j].free[0] < |v.swaps[j].frames| by {
        assert DeviceOk(v.swaps[j]) && (v.swaps[j].free != [] ==> v.swaps[j].free[0] in v.swaps[j].free);
      }
      hide Usable, NoDup, DeviceOk, MmStruct.Linked, MmStruct.Zeroed, MmStruct.Abs;
      ok, off := device.GetFreeFp();
      if ok {
        SwapCpPage(mram, fpn, device, off);
        assert device.Abs() == WithPage(v, fpn, j);
      }
      assert unchanged(mm) && unchanged(mm.pgd) && unchanged(mm.spine);
    }

    /** Where the active device stands in the table. */
    method ActiveIndex() returns (typ: nat)
      requires Shape()
      ensures typ == activeMswpId
    {
      typ := 0;
      while typ < SWAPS && mswp[typ] != activeMswp
        invariant 0 <= typ <= activeMswpId
      {
        typ := typ + 1;
      }
    }

    /** Stores RAM frame `fpn` on the first device of the table with room. */
    method SwapOutAnywhere(fpn: nat) returns (typ: nat, swpfpn: int)
      requires Shape() && Usable(Abs()) && fpn < |Abs().ram.frames|
      modifies Swap()
      ensures Shape() && unchanged(mm)
      ensures StoredAt(old(Abs()), fpn, FirstFree(old(Abs()).swaps, 0), typ, swpfpn, Abs())
    {
      hide Usable, MmStruct.Linked, MmStruct.Zeroed, MmStruct.Abs, MemPhy.Abs, Apart, Beside, WithPage;
      ghost var v := Abs();
      typ, swpfpn := 0, -1;
      while typ < SWAPS
        invariant 0 <= typ <= SWAPS && swpfpn == -1 && Shape() && unchanged(mm) && Abs() == v
        invariant FirstFree(v.swaps, typ) == FirstFree(v.swaps, 0)
      {
        var ok, off := StoreOn(mswp[typ], fpn, typ);
        if ok {
          swpfpn := off;
          return;
        }
        typ := typ + 1;
      }
    }

    /** The active device is tried first. */
    method SwapOut(fpn: nat) returns (typ: nat, swpfpn: int)
      requires Shape() && Usable(Abs()) && fpn < |Abs().ram.frames|
      modifies Swap()
      ensures Shape() && unchanged(mm)
      ensures swpfpn == -1 <==> FreeSwap(old(Abs()).swaps) == 0
      ensures swpfpn != -1 ==> var swaps := old(Abs()).swaps;
                && typ < SWAPS && swaps[typ].free != [] && swpfpn == swaps[typ].free[0]
                && if swaps[activeMswpId].free != [] then typ == activeMswpId
                   else forall k :: 0 <= k < typ ==> swaps[k].free == []
      ensures StoredAt(old(Abs()), fpn, SwapTarget(old(Abs())), typ, swpfpn, Abs())
    {
      hide Usable, MmStruct.Linked, MmStruct.Zeroed, MmStruct.Abs, MemPhy.Abs, Apart, Beside, WithPage;
      var ok, off := StoreOn(activeMswp, fpn, activeMswpId);
      if ok {
        swpfpn := off;
        typ := ActiveIndex();
      } else {
        typ, swpfpn := SwapOutAnywhere(fpn);
      }
    }

    /** The first free frame of RAM becomes the head of the list of used ones. */
    method TakeFree() returns (ok: bool)
      requires Shape()
      modifies mram
      ensures Shape() && (ok <==> old(Abs()).ram.free != [])
      ensures var v := old(Abs());
              Abs() == if ok then v.(ram := v.ram.(free := v.ram.free[1..]), used := [v.ram.free[0]] + v.used) else v
    {
      hide MmStruct.Linked, MmStruct.Zeroed, MmStruct.Abs;
      var fpn;
      ok, fpn := mram.GetFreeFp();
      if ok { mram.usedFp := [fpn] + mram.usedFp; }
      assert unchanged(mm) && unchanged(mm.pgd) && unchanged(mm.spine) && Swaps() == old(Swaps());
    }

    /** The oldest page leaves the replacement list; its frame is read off its entry. */
    method TakeVictim() returns (ok: bool, victim: nat, fpn: nat)
      requires Shape() && Usable(Abs()) && |Abs().mm.pgd| == MAX_PGN
      modifies mm, mm.spine
      ensures Shape() && mm.spine <= old(mm.spine)
      ensures ok <==> old(Abs()).mm.fifo != []
      ensures !ok ==> Abs() == old(Abs())
      ensures ok ==> var v := old(Abs());
              && Abs() == v.(mm := v.mm.(fifo := DropLast(v.mm.fifo))) && Usable(Abs())
              && victim == Last(v.mm.fifo) && victim < MAX_PGN && v.mm.pgd[victim] == Resident(fpn)
    {
      hide MmStruct.Linked, MmStruct.Zeroed, NoDup, DeviceOk, Beside;
      ghost var v := Abs();
      ok, victim := mm.FindVictimPage();
      fpn := 0;
      if ok {
        DropUsable(v);
        fpn := Fpn(mm.pgd[victim]) as nat;
      }
      assert mram.Abs() == v.ram && Swaps() == v.swaps;
    }

    method MarkSwapped(pgn: nat, typ: nat, off: nat)
      requires Shape() && pgn < mm.pgd.Length && typ < SWPTYP_LIMIT && off < SWPOFF_LIMIT
      modifies mm.pgd
      ensures Shape() && Abs() == old(Abs()).(mm := old(Abs()).mm.(pgd := old(Abs()).mm.pgd[pgn := Swapped(typ, off)]))
    {
      hide MmStruct.Abs;
      ghost var v := Abs();
      mm.SetSwap(pgn, typ, off);
      assert mram.Abs() == v.ram && Swaps() == v.swaps;
    }

    /** One frame for the allocation under way, free or taken from the oldest page. */
    method AllocFrame(frames: seq<nat>, stale: seq<nat>) returns (code: int, frames': seq<nat>)
      requires Shape() && Usable(Abs())
      modifies mram, Swap(), mm, mm.pgd, mm.spine
      ensures Shape() && mm.spine <= old(mm.spine)
      ensures var r := AllocOne(old(Abs()), frames, stale); Abs() == r.view && frames' == r.frames
      ensures var v := old(Abs());
              code == if v.ram.free != [] then 0 else if v.mm.fifo == [] then -1
                      else if FreeSwap(v.swaps) > 0 then 0 else -3000
      ensures Reports(code, AllocOne(old(Abs()), frames, stale).status)
    {
      hide MmStruct.Linked, MmStruct.Zeroed, MmStruct.Abs, MemPhy.Abs;
      ghost var v := Abs();
      OneReports(v, frames, stale);
      var ok := TakeFree();
      if ok { return 0, mram.usedFp; }
      var found, victim, fpn := TakeVictim();
      if !found { return -1, frames; }
      frames' := [fpn] + if frames == [] then stale else frames;
      assert victim in v.mm.fifo;
      var typ, swpfpn := SwapOut(fpn);
      if swpfpn == -1 { return OUT_OF_MEMORY, frames'; }
      MarkSwapped(victim, typ, swpfpn);
      code := 0;
    }

    /** Obtains `req` frames, evicting the oldest pages once RAM has none free. */
    method AllocPagesRange(req: nat, stale: seq<nat>) returns (code: int, frames: seq<nat>)
      requires Shape() && Usable(Abs())
      modifies mram, Swap(), mm, mm.pgd, mm.spine
      ensures Shape() && mm.spine <= old(mm.spine)
      ensures var r := AllocPages(old(Abs()), req, [], stale); Abs() == r.view && frames == r.frames
      ensures var v := old(Abs());
              var free, evictable, swap := |v.ram.free|, |v.mm.fifo|, FreeSwap(v.swaps);
              code == if req <= free + evictable && (req > free ==> req - free <= swap) then 0
                      else if evictable <= swap then -1 else -3000
      ensures Reports(code, AllocPages(old(Abs()), req, [], stale).status)
    {
      hide AllocOne, Usable, MmStruct.Linked, MmStruct.Zeroed, Caller.Abs;
      ghost var v := Abs();
      ExactSuccessBound(v, req, [], stale);
      code, frames := 0, [];
      var pgit := 0;
      while pgit < req
        invariant 0 <= pgit <= req && code == 0 && Shape() && Usable(Abs())
        invariant mm.spine <= old(mm.spine)
        invariant AllocPages(Abs(), req - pgit, frames, stale) == AllocPages(v, req, [], stale)
      {
        code, frames := AllocFrame(frames, stale);
        if code != 0 { return; }
        pgit := pgit + 1;
      }
    }

    /** Page `pgn` becomes resident in a frame and the newest of the replacement list. */
    method MapPage(pgn: nat, fpn: nat)
      requires Shape() && pgn < MAX_PGN && fpn < FPN_LIMIT
      modifies mm, mm.pgd
      ensures Shape() && |Abs().mm.pgd| == MAX_PGN
      ensures forall n :: n in mm.spine ==> n in old(mm.spine) || fresh(n)
      ensures var v := old(Abs());
              Abs() == v.(mm := v.mm.(pgd := v.mm.pgd[pgn := Resident(fpn)], fifo := [pgn] + v.mm.fifo))
    {
      hide MmStruct.Abs;
      ghost var v := Abs();
      mm.SetFpn(pgn, fpn);
      mm.EnlistPgnNode(pgn);
      assert mram.Abs() == v.ram && Swaps() == v.swaps;
    }

    /**
      Maps pages to the frames of the list, as far as it goes: past its end the code skips one page, and
      would follow a null link for a second.
     */
    method VmapPageRange(first: nat, pgnum: nat, frames: seq<nat>)
      requires Shape() && first + pgnum <= MAX_PGN && pgnum <= |frames| + 1
      requires forall i :: 0 <= i < pgnum && i < |frames| ==> frames[i] < FPN_LIMIT
      modifies mm, mm.pgd
      ensures Shape() && |old(Abs()).mm.pgd| == MAX_PGN
      ensures forall n :: n in mm.spine ==> n in old(mm.spine) || fresh(n)
      ensures Abs() == old(Abs()).(mm := MapPages(old(Abs()).mm, first, FirstOf(frames, pgnum)))
    {
      hide MmStruct.Linked, MmStruct.Zeroed;
      ghost var v, mapped := Abs(), FirstOf(frames, pgnum);
      var pgit := 0;
      assert mapped[0..] == mapped;
      while pgit < pgnum
        invariant 0 <= pgit <= pgnum && Shape() && |Abs().mm.pgd| == MAX_PGN
        invariant forall n :: n in mm.spine ==> n in old(mm.spine) || fresh(n)
        invariant v.(mm := Abs().mm) == Abs()
        invariant MapPages(Abs().mm, first + pgit, Rest(mapped, pgit)) == MapPages(v.mm, first, mapped)
      {
        if pgit < |frames| {
          assert Rest(mapped, pgit)[1..] == Rest(mapped, pgit + 1) && Rest(mapped, pgit)[0] == frames[pgit];
          MapPage(first + pgit, frames[pgit]);
        }
        pgit := pgit + 1;
      }
    }

    /** Obtains frames for `incpgnum` pages and maps them from page `mapstart` on. */
    method VmMapRam(mapstart: nat, incpgnum: nat, stale: seq<nat>) returns (code: int)
      requires Shape() && Usable(Abs()) && mapstart + incpgnum <= MAX_PGN
      modifies mram, Swap(), mm, mm.pgd, mm.spine
      ensures Shape() && (code == 0 || code == -1)
      ensures forall n :: n in mm.spine ==> n in old(mm.spine) || fresh(n)
      ensures Mapped(Abs(), code == 0) == MapRam(old(Abs()), mapstart, incpgnum, stale)
    {
      hide AllocOne, AllocPages, MmStruct.Linked, MmStruct.Zeroed;
      ghost var v := Abs();
      var ret, frames := AllocPagesRange(incpgnum, stale);
      if ret < 0 { return -1; }
      AllocInRam(v, incpgnum, [], stale, 0);
      VmapPageRange(mapstart, incpgnum, frames);
      return 0;
    }

    method MoveEnd(end: nat)
      requires Shape() && Usable(Abs())
      modifies mm`sbrk, mm`vmEnd
      ensures Shape() && Usable(Abs())
      ensures Abs() == old(Abs()).(mm := old(Abs()).mm.(sbrk := end, vmEnd := end))
    {
      mm.sbrk, mm.vmEnd := end, end;
      assert mram.Abs() == old(mram.Abs()) && Swaps() == old(Swaps());
    }

    /** Extends the process's one area, whose number is 1, at its end. */
    method IncVmaLimit(vmaid: nat, size: nat, stale: seq<nat>) returns (code: int)
      requires Shape() && Usable(Abs()) && vmaid <= 1 && mm.vmEnd + Areas.AlignUp(size) <= ADDRESS_LIMIT
      modifies mram, Swap(), mm, mm.pgd, mm.spine
      ensures Shape() && (code == 0 || code == -1)
      ensures forall n :: n in mm.spine ==> n in old(mm.spine) || fresh(n)
      ensures Mapped(Abs(), code == 0) == Paging.IncVmaLimit(old(Abs()), vmaid, size, stale)
    {
      hide MapRam, MmStruct.Linked, MmStruct.Zeroed, Areas.Free, Areas.Clash;
      ghost var v := Abs();
      var amount := Areas.AlignUp(size);
      var overlap := Areas.ValidateOverlap([Areas.Area(1, 0, mm.vmEnd)], vmaid, mm.sbrk, mm.sbrk + amount);
      if overlap < 0 { return -1; }
      var oldEnd := mm.vmEnd;
      MoveEnd(mm.sbrk + amount);
      hide Usable, Shape;
      code := VmMapRam(oldEnd / PAGE_SIZE, amount / PAGE_SIZE, stale);
    }

    method CopyToActive(srcfpn: nat, dstfpn: nat)
      requires Shape() && srcfpn < |Abs().ram.frames| && dstfpn < |Abs().swaps[activeMswpId].frames|
      modifies activeMswp.storage
      ensures Shape()
      ensures var v := old(Abs()); var d := v.swaps[activeMswpId];
              Abs() == v.(swaps := v.swaps[activeMswpId := d.(frames := d.frames[dstfpn := v.ram.frames[srcfpn]])])
    {
      hide MmStruct.Linked, MmStruct.Zeroed, MmStruct.Abs;
      ghost var v := Abs();
      SwapCpPage(mram, srcfpn, activeMswp, dstfpn);
      assert mram.Abs() == v.ram && mm.Abs() == v.mm;
    }

    /** The oldest page leaves the list, and the two copies of a fault are made. */
    method ExchangeFrames(target: nat) returns (vicpgn: nat, vicfpn: nat, swpfpn: nat)
      requires Shape() && Usable(Abs()) && CanFault(Abs(), target)
      modifies Swap(), mm, mm.spine
      ensures Shape() && mm.spine <= old(mm.spine) && Abs() == Exchange(old(Abs()), target)
      ensures vicpgn == Last(old(Abs()).mm.fifo) && vicpgn < MAX_PGN && old(Abs()).mm.pgd[vicpgn] == Resident(vicfpn)
      ensures vicfpn < FPN_LIMIT && swpfpn < SWPOFF_LIMIT && swpfpn == old(Abs()).swaps[activeMswpId].free[0]
    {
      hide MmStruct.Linked, MmStruct.Zeroed, MmStruct.Abs, MemPhy.Abs, Apart, Beside;
      ghost var v := Abs();
      var found;
      found, vicpgn, vicfpn := TakeVictim();
      assert vicpgn in v.mm.fifo && FrameField(v.mm.pgd[vicpgn]) == vicfpn;
      assert vicfpn < |v.swaps[activeMswpId].frames| && vicfpn < |v.ram.frames| <= FPN_LIMIT;
      var ok;
      ok, swpfpn := StoreOn(activeMswp, vicfpn, activeMswpId);
      hide Usable, NoDup, CanFault;
      assert |Abs().swaps[activeMswpId].frames| == |v.swaps[activeMswpId].frames|;
      CopyToActive(target, vicfpn);
    }

    /** Page `pgn` takes over the frame of a page that is now swapped. */
    method TakeOver(vicpgn: nat, vicfpn: nat, swpfpn: nat, pgn: nat)
      requires Shape() && vicpgn < MAX_PGN && pgn < MAX_PGN && vicfpn < FPN_LIMIT && swpfpn < SWPOFF_LIMIT
      modifies mm, mm.pgd
      ensures Shape() && |old(Abs()).mm.pgd| == MAX_PGN
      ensures forall n :: n in mm.spine ==> n in old(mm.spine) || fresh(n)
      ensures var v := old(Abs());
              Abs() == v.(mm := v.mm.(pgd := v.mm.pgd[vicpgn := Swapped(activeMswpId, swpfpn)][pgn := Resident(vicfpn)],
                                      fifo := [pgn] + v.mm.fifo))
    {
      hide MmStruct.Linked, MmStruct.Zeroed, MmStruct.Abs, MemPhy.Abs, Apart, Beside;
      MarkSwapped(vicpgn, activeMswpId, swpfpn);
      MapPage(pgn, vicfpn);
    }

    /** The oldest page makes room for page `pgn`, which is not present. */
    method FaultIn(pgn: nat)
      requires Shape() && Usable(Abs()) && pgn < MAX_PGN && Abs().mm.pgd[pgn] == Absent && CanFault(Abs(), 0)
      modifies Swap(), mm, mm.pgd, mm.spine
      ensures Shape() && Abs() == Fault(old(Abs()), pgn, 0)
      ensures forall n :: n in mm.spine ==> n in old(mm.spine) || fresh(n)
    {
      UnusedEntry(pgn);
      hide Usable, CanFault, MmStruct.Linked, MmStruct.Zeroed, MmStruct.Abs, MemPhy.Abs, Apart, Beside;
      var tgtfpn := SwpOff(mm.pgd[pgn]) as nat;
      var vicpgn, vicfpn, swpfpn := ExchangeFrames(tgtfpn);
      TakeOver(vicpgn, vicfpn, swpfpn, pgn);
    }

    /** The word of a page never mapped is zero, and so is its swap field. */
    lemma UnusedEntry(pgn: nat)
      requires Shape() && pgn < MAX_PGN && Abs().mm.pgd[pgn] == Absent
      ensures mm.pgd[pgn] == 0 && SwpOff(mm.pgd[pgn]) as nat == 0
    {}

    /** The frame an access to page `pgn` goes to, after a fault if the page is not present. */
    method PgGetPage(pgn: nat) returns (fpn: nat)
      requires Shape() && Usable(Abs()) && CanAccess(Abs(), pgn)
      modifies Swap(), mm, mm.pgd, mm.spine
      ensures Shape() && Abs() == GetPage(old(Abs()), pgn)
      ensures forall n :: n in mm.spine ==> n in old(mm.spine) || fresh(n)
      ensures pgn < |Abs().mm.pgd| && fpn == FrameField(Abs().mm.pgd[pgn])
    {
      hide MmStruct.Linked, MmStruct.Zeroed, MemPhy.Abs, Apart, Beside;
      if mm.pgd[pgn] & PRESENT_MASK == 0 {
        FaultIn(pgn);
      }
      FpnOfEntry(mm.pgd[pgn]);
      fpn := Fpn(mm.pgd[pgn]) as nat;
    }

    /** The physical address of a virtual one, after a fault if its page is not present. */
    method Locate(addr: nat) returns (phyaddr: nat)
      requires Shape() && Usable(Abs()) && CanAccess(Abs(), addr / PAGE_SIZE)
      modifies Swap(), mm, mm.pgd, mm.spine
      ensures Shape() && Abs() == GetPage(old(Abs()), addr / PAGE_SIZE) && InRam(Abs(), addr)
      ensures forall n :: n in mm.spine ==> n in old(mm.spine) || fresh(n)
      ensures phyaddr == FrameField(Abs().mm.pgd[addr / PAGE_SIZE]) * PAGE_SIZE + addr % PAGE_SIZE
    {
      assert |Abs().ram.frames| <= FPN_LIMIT;
      hide Usable, MmStruct.Linked, MmStruct.Zeroed, MmStruct.Abs, MemPhy.Abs, Apart, Beside;
      hide Value, Pgn, Offst, PhyAddr;
      AddressOf(addr);
      var pgn, offst := Value(Pgn(addr as bv32)), Offst(addr as bv32);
      var fpn := PgGetPage(pgn);
      PhyAddrOf(fpn, offst);
      phyaddr := Value(PhyAddr(fpn as bv32, offst));
    }

    method PgGetVal(addr: nat) returns (data: Byte)
      requires Shape() && Usable(Abs()) && CanAccess(Abs(), addr / PAGE_SIZE)
      modifies Swap(), mm, mm.pgd, mm.spine
      ensures Shape() && Abs() == GetPage(old(Abs()), addr / PAGE_SIZE) && data == Peek(Abs(), addr)
      ensures forall n :: n in mm.spine ==> n in old(mm.spine) || fresh(n)
    {
      hide Usable, MmStruct.Linked, MmStruct.Zeroed, MmStruct.Abs, Apart, Beside, GetPage, FrameField;
      var phyaddr := Locate(addr);
      ghost var v := Abs();
      assert phyaddr / PAGE_SIZE == FrameField(v.mm.pgd[addr / PAGE_SIZE]) && phyaddr % PAGE_SIZE == addr % PAGE_SIZE;
      data := mram.Read(phyaddr);
    }

    method PgSetVal(addr: nat, value: Byte)
      requires Shape() && Usable(Abs()) && CanAccess(Abs(), addr / PAGE_SIZE)
      modifies mram.storage, Swap(), mm, mm.pgd, mm.spine
      ensures Shape() && Abs() == Poke(GetPage(old(Abs()), addr / PAGE_SIZE), addr, value)
      ensures forall n :: n in mm.spine ==> n in old(mm.spine) || fresh(n)
    {
      hide Usable, MmStruct.Linked, MmStruct.Zeroed, MmStruct.Abs, GetPage, FrameField;
      var phyaddr := Locate(addr);
      ghost var v := Abs();
      assert phyaddr / PAGE_SIZE == FrameField(v.mm.pgd[addr / PAGE_SIZE]) && phyaddr % PAGE_SIZE == addr % PAGE_SIZE;
      mram.Write(phyaddr, value);
      assert Swaps() == v.swaps && mm.Abs() == v.mm;
    }
  }

  /** Frame `fpn` went to device `j`, or nowhere when `j` is none of the four. */
  ghost predicate StoredAt(v: View, fpn: nat, j: nat, typ: nat, swpfpn: int, v': View)
    requires Usable(v) && fpn < |v.ram.frames| && j <= SWAPS && (j < SWAPS ==> v.swaps[j].free != [])
  {
    if j == SWAPS then swpfpn == -1 && v' == v
    else typ == j && 0 <= swpfpn < SWPOFF_LIMIT && swpfpn == v.swaps[j].free[0]
         && v' == v.(swaps := v.swaps[j := WithPage(v, fpn, j)])
  }

  /** The five devices are different objects with different storage. */
  ghost predicate Apart(mram: MemPhy, mswp: seq<MemPhy>) {
    && (forall i :: 0 <= i < |mswp| ==> mswp[i] != mram && mswp[i].storage != mram.storage)
    && (forall i, j :: 0 <= i < j < |mswp| ==> mswp[i] != mswp[j] && mswp[i].storage != mswp[j].storage)
  }

  /** A page table is no device's storage. */
  ghost predicate Beside(pgd: object, mram: MemPhy, mswp: seq<MemPhy>) {
    pgd != mram.storage && forall i :: 0 <= i < |mswp| ==> pgd != mswp[i].storage
  }

  /** Swap device `j` after RAM frame `f` has been stored in its first free frame. */
  ghost function WithPage(v: View, f: nat, j: nat): (d: Device)
    requires Usable(v) && f < |v.ram.frames| && j < SWAPS && v.swaps[j].free != []
    ensures |d.frames| == |v.swaps[j].frames|
  {
    var d := v.swaps[j];
    assert DeviceOk(d) && d.free[0] in d.free;
    Device(d.frames[d.free[0] := v.ram.frames[f]], d.free[1..])
  }
}
