/**
  Demand paging as values: physical devices, page tables, FIFO lists, and the operations on them.
  Lists are kept in the order in which their nodes are linked.
 */
module Paging {

  import opened Bits
  import opened Seqs
  import Areas

  const PAGE_SIZE: nat := Areas.PAGE_SIZE
  const ADDRESS_LIMIT: nat := Areas.ADDRESS_LIMIT
  const MAX_PGN: nat := 16384
  const SWAPS: nat := 4

  type Byte = b: int | -128 <= b < 128

  type Page = p: seq<Byte> | |p| == PAGE_SIZE witness seq(PAGE_SIZE, _ => 0)

  /** A random-access device: its frames and the list of free ones. */
  datatype Device = Device(frames: seq<Page>, free: seq<nat>)

  function Numbers(n: nat): (s: seq<nat>)
    ensures |s| == n && forall i :: 0 <= i < n ==> s[i] == i
  {
    seq(n, i => i)
  }

  /** Every frame is free, in order. */
  ghost predicate Formatted(d: Device) {
    d.free == Numbers(|d.frames|)
  }

  /** A process's memory: page table, replacement list (newest page first), and its one area. */
  datatype Mm = Mm(pgd: seq<Entry>, fifo: seq<nat>, vmEnd: nat, sbrk: nat)

  /** What one process's system call works on: the shared devices and its own memory. */
  datatype View = View(ram: Device, used: seq<nat>, swaps: seq<Device>, active: nat, mm: Mm)

  datatype Status = Success | NoVictim | OutOfMemory

  /** The outcome of an allocation: new state, the list of frames handed on, and the error code. */
  datatype Alloc = Alloc(view: View, frames: seq<nat>, status: Status)

  ghost predicate DeviceOk(d: Device) {
    NoDup(d.free) && forall f :: f in d.free ==> f < |d.frames|
  }

  /** Every index an operation follows is in range. */
  ghost predicate Usable(v: View) {
    && |v.mm.pgd| == MAX_PGN
    && |v.swaps| == SWAPS && v.active < SWAPS
    && |v.ram.frames| <= FPN_LIMIT
    && (forall i :: 0 <= i < SWAPS ==> |v.swaps[i].frames| <= SWPOFF_LIMIT)
    && DeviceOk(v.ram) && (forall i :: 0 <= i < SWAPS ==> DeviceOk(v.swaps[i]))
    && NoDup(v.mm.fifo)
    && (forall g :: g in v.mm.fifo ==>
          g < MAX_PGN && v.mm.pgd[g].Resident? && v.mm.pgd[g].fpn < |v.ram.frames|)
  }

  // ---------------------------------------------------------------------------------------------
  // Allocation with eviction
  // ---------------------------------------------------------------------------------------------

  /** The least device from `i` on with a free frame, or SWAPS. */
  function FirstFree(swaps: seq<Device>, i: nat): (j: nat)
    requires |swaps| == SWAPS && i <= SWAPS
    ensures i <= j <= SWAPS
    ensures j < SWAPS ==> swaps[j].free != []
    ensures forall k :: i <= k < j ==> swaps[k].free == []
    decreases SWAPS - i
  {
    if i == SWAPS || swaps[i].free != [] then i else FirstFree(swaps, i + 1)
  }

  /** The active device if it has room, else the first that has; SWAPS if none has. */
  function SwapTarget(v: View): (j: nat)
    requires |v.swaps| == SWAPS && v.active < SWAPS
    ensures j <= SWAPS
    ensures j < SWAPS ==> v.swaps[j].free != []
    ensures v.swaps[v.active].free != [] ==> j == v.active
    ensures v.swaps[v.active].free == [] ==> forall k :: 0 <= k < j ==> v.swaps[k].free == []
  {
    if v.swaps[v.active].free != [] then v.active else FirstFree(v.swaps, 0)
  }

  /** Moves page `g`, resident in frame `f`, to the first free frame of swap device `j`. */
  function Evict(v: View, g: nat, f: nat, j: nat): View
    requires g < |v.mm.pgd| && f < |v.ram.frames| && j < |v.swaps|
    requires v.swaps[j].free != [] && v.swaps[j].free[0] < |v.swaps[j].frames|
  {
    var d := v.swaps[j];
    var off := d.free[0];
    v.(swaps := v.swaps[j := Device(d.frames[off := v.ram.frames[f]], d.free[1..])],
       mm := v.mm.(pgd := v.mm.pgd[g := Swapped(j, off)]))
  }

  /**
    Obtains one frame: from RAM's free list, or else from the oldest page of the replacement list. The
    new node heads the frame list; a node from RAM then links to the list of used frames, and the first
    node of an evicted frame links to nothing the code has set, which `stale` stands for.
   */
  function AllocOne(v: View, frames: seq<nat>, stale: seq<nat>): (r: Alloc)
    requires Usable(v)
    ensures r.status == Success ==> Usable(r.view)
  {
    if v.ram.free != [] then
      TailNoDup(v.ram.free);
      var f := v.ram.free[0];
      Alloc(v.(ram := v.ram.(free := v.ram.free[1..]), used := [f] + v.used), [f] + v.used, Success)
    else if v.mm.fifo == [] then
      Alloc(v, frames, NoVictim)
    else
      DropLastNoDup(v.mm.fifo);
      var g := Last(v.mm.fifo);
      assert g in v.mm.fifo;
      var f := v.mm.pgd[g].fpn;
      var v1 := v.(mm := v.mm.(fifo := DropLast(v.mm.fifo)));
      var frames1 := [f] + if frames == [] then stale else frames;
      var j := SwapTarget(v);
      if j == SWAPS then Alloc(v1, frames1, OutOfMemory)
      else
        assert DeviceOk(v.swaps[j]) && v.swaps[j].free[0] in v.swaps[j].free;
        TailNoDup(v.swaps[j].free);
        Alloc(Evict(v1, g, f, j), frames1, Success)
  }

  function AllocPages(v: View, req: nat, frames: seq<nat>, stale: seq<nat>): (r: Alloc)
    requires Usable(v)
    ensures r.status == Success ==> Usable(r.view)
    decreases req
  {
    if req == 0 then Alloc(v, frames, Success)
    else
      var r := AllocOne(v, frames, stale);
      if r.status != Success then r else AllocPages(r.view, req - 1, r.frames, stale)
  }

  /** Maps pages `first`, `first + 1`, ... to the given frames, each becoming the newest of the list. */
  function MapPages(mm: Mm, first: nat, frames: seq<nat>): (mm': Mm)
    requires first + |frames| <= |mm.pgd|
    ensures |mm'.pgd| == |mm.pgd|
    decreases |frames|
  {
    if frames == [] then mm
    else MapPages(mm.(pgd := mm.pgd[first := Resident(frames[0])], fifo := [first] + mm.fifo), first + 1, frames[1..])
  }

  lemma MapOne(mm: Mm, g: nat, f: nat)
    requires g < |mm.pgd|
    ensures MapPages(mm, g, [f]) == mm.(pgd := mm.pgd[g := Resident(f)], fifo := [g] + mm.fifo)
  {}

  /** The pages mapped are those of the range. */
  lemma {:induction false} MapEntries(mm: Mm, first: nat, frames: seq<nat>)
    requires first + |frames| <= |mm.pgd|
    ensures var mm' := MapPages(mm, first, frames);
            && mm'.vmEnd == mm.vmEnd && mm'.sbrk == mm.sbrk
            && forall g :: 0 <= g < |mm.pgd| ==>
                 mm'.pgd[g] == if first <= g < first + |frames| then Resident(frames[g - first]) else mm.pgd[g]
    decreases |frames|
  {
    if frames == [] {
    } else {
      var mm1 := mm.(pgd := mm.pgd[first := Resident(frames[0])], fifo := [first] + mm.fifo);
      MapEntries(mm1, first + 1, frames[1..]);
    }
  }

  /** They head the replacement list, whatever is on it. */
  lemma {:induction false} MapLists(mm: Mm, first: nat, frames: seq<nat>)
    requires first + |frames| <= |mm.pgd|
    ensures var mm' := MapPages(mm, first, frames);
            && |mm'.fifo| == |frames| + |mm.fifo| && mm'.fifo[|frames|..] == mm.fifo
            && forall g :: first <= g < first + |frames| ==> g in mm'.fifo[..|frames|]
    decreases |frames|
  {
    if frames == [] {
    } else {
      var mm1 := mm.(pgd := mm.pgd[first := Resident(frames[0])], fifo := [first] + mm.fifo);
      MapLists(mm1, first + 1, frames[1..]);
      var fifo := MapPages(mm, first, frames).fifo;
      assert fifo[|frames| - 1..] == [first] + mm.fifo;
      assert fifo[|frames|..] == fifo[|frames| - 1..][1..];
      assert fifo[..|frames|] == fifo[..|frames| - 1] + [first];
    }
  }

  /** Frames from RAM are linked to the list of used ones, so each new node extends the previous list. */
  ghost predicate Linked(v: View, frames: seq<nat>, k: nat) {
    k <= |frames| && (k > 0 && v.ram.free != [] ==> frames == v.used)
  }

  lemma AllocOneLinks(v: View, frames: seq<nat>, stale: seq<nat>, k: nat)
    requires Usable(v) && Linked(v, frames, k) && AllocOne(v, frames, stale).status == Success
    ensures var r := AllocOne(v, frames, stale);
            Linked(r.view, r.frames, k + 1) && r.frames[1..k + 1] == frames[..k]
  {}

  /** On success the new nodes come first, and what was obtained before follows them. */
  lemma {:induction false} AllocLinks(v: View, req: nat, frames: seq<nat>, stale: seq<nat>, k: nat)
    requires Usable(v) && Linked(v, frames, k)
    requires AllocPages(v, req, frames, stale).status == Success
    ensures var out := AllocPages(v, req, frames, stale).frames;
            |out| >= req + k && out[req..req + k] == frames[..k]
    decreases req
  {
    hide AllocOne, Usable;
    if req == 0 {
    } else {
      AllocOneLinks(v, frames, stale, k);
      var r := AllocOne(v, frames, stale);
      AllocLinks(r.view, req - 1, r.frames, stale, k + 1);
      ShiftSlices(AllocPages(v, req, frames, stale).frames, req, r.frames, k);
    }
  }

  lemma AllocOneInRam(v: View, frames: seq<nat>, stale: seq<nat>)
    requires Usable(v) && AllocOne(v, frames, stale).status == Success
    ensures var r := AllocOne(v, frames, stale);
            |r.view.ram.frames| == |v.ram.frames| && r.frames != [] && r.frames[0] < |v.ram.frames|
  {
    if v.ram.free != [] {
      assert v.ram.free[0] in v.ram.free;
    } else {
      assert Last(v.mm.fifo) in v.mm.fifo;
    }
  }

  /** Every frame obtained is a frame of RAM. */
  lemma {:induction false} AllocInRam(v: View, req: nat, frames: seq<nat>, stale: seq<nat>, k: nat)
    requires Usable(v) && Linked(v, frames, k) && forall i :: 0 <= i < k ==> frames[i] < |v.ram.frames|
    requires AllocPages(v, req, frames, stale).status == Success
    ensures var out := AllocPages(v, req, frames, stale).frames;
            |out| >= req + k && forall i :: 0 <= i < req + k ==> out[i] < |v.ram.frames|
    decreases req
  {
    hide AllocOne, Usable;
    if req == 0 {
    } else {
      var r := AllocOne(v, frames, stale);
      AllocOneLinks(v, frames, stale, k);
      AllocOneInRam(v, frames, stale);
      assert forall i :: 0 < i < k + 1 ==> r.frames[i] == r.frames[1..k + 1][i - 1];
      AllocInRam(r.view, req - 1, r.frames, stale, k + 1);
    }
  }

  lemma ShiftSlices(out: seq<nat>, n: nat, s: seq<nat>, k: nat)
    requires n > 0 && |out| >= n + k && |s| >= k + 1
    requires out[n - 1..n + k] == s[..k + 1]
    ensures out[n..n + k] == s[1..k + 1]
  {}

  // ---------------------------------------------------------------------------------------------
  // Operations
  // ---------------------------------------------------------------------------------------------

  datatype Mapped = Mapped(view: View, ok: bool)

  /** Obtains `n` frames and maps them from page `first` on; on failure nothing is mapped. */
  function MapRam(v: View, first: nat, n: nat, stale: seq<nat>): (r: Mapped)
    requires Usable(v) && first + n <= MAX_PGN
  {
    var r := AllocPages(v, n, [], stale);
    if r.status != Success then Mapped(r.view, false)
    else
      AllocLinks(v, n, [], stale, 0);
      AllocKeepsSize(v, n, [], stale);
      Mapped(r.view.(mm := MapPages(r.view.mm, first, r.frames[..n])), true)
  }

  /** An allocation moves pages, but maps no new one and leaves the area alone. */
  lemma AllocKeepsSize(v: View, req: nat, frames: seq<nat>, stale: seq<nat>)
    requires Usable(v)
    ensures var v' := AllocPages(v, req, frames, stale).view;
            && |v'.mm.pgd| == MAX_PGN && v'.mm.vmEnd == v.mm.vmEnd && v'.mm.sbrk == v.mm.sbrk
            && forall g :: 0 <= g < MAX_PGN ==> (v'.mm.pgd[g] == Absent <==> v.mm.pgd[g] == Absent)
    decreases req
  {
    if req == 0 {
    } else {
      var r := AllocOne(v, frames, stale);
      if r.status == Success { AllocKeepsSize(r.view, req - 1, r.frames, stale); }
    }
  }

  /** The range may be taken as far as the overlap test of the process's one area can tell. */
  predicate RangeFree(mm: Mm, vmaid: nat, amount: nat) {
    Areas.Free([Areas.Area(1, 0, mm.vmEnd)], vmaid, mm.sbrk, mm.sbrk + amount)
  }

  /** Extends the area by whole pages; the new end stays even if the pages cannot be mapped. */
  function IncVmaLimit(v: View, vmaid: nat, size: nat, stale: seq<nat>): (r: Mapped)
    requires Usable(v) && vmaid <= 1 && v.mm.vmEnd + Areas.AlignUp(size) <= ADDRESS_LIMIT
  {
    var amount := Areas.AlignUp(size);
    if !RangeFree(v.mm, vmaid, amount) then Mapped(v, false)
    else
      var end := v.mm.sbrk + amount;
      MapRam(v.(mm := v.mm.(sbrk := end, vmEnd := end)), v.mm.vmEnd / PAGE_SIZE, amount / PAGE_SIZE, stale)
  }

  // ---------------------------------------------------------------------------------------------
  // Accesses
  // ---------------------------------------------------------------------------------------------

  /** What an access to a page that is not present follows without checking. */
  predicate CanFault(v: View, target: nat) {
    && v.mm.fifo != [] && |v.swaps| == SWAPS && v.active < SWAPS && v.swaps[v.active].free != []
    && (var g := Last(v.mm.fifo); g < |v.mm.pgd| && FrameField(v.mm.pgd[g]) < |v.swaps[v.active].frames|)
    && target < |v.ram.frames|
  }

  /**
    The oldest page leaves the list and its frame is copied to the active swap device. Both copies run
    from RAM to the active swap device; the second takes the frame numbers the other way round.
   */
  function Exchange(v: View, target: nat): View
    requires Usable(v) && CanFault(v, target)
  {
    assert Last(v.mm.fifo) in v.mm.fifo;
    var f, d := v.mm.pgd[Last(v.mm.fifo)].fpn, v.swaps[v.active];
    assert DeviceOk(d) && d.free[0] in d.free;
    var frames := d.frames[d.free[0] := v.ram.frames[f]][f := v.ram.frames[target]];
    v.(swaps := v.swaps[v.active := Device(frames, d.free[1..])],
       mm := v.mm.(fifo := DropLast(v.mm.fifo)))
  }

  /** Page `g` takes over the frame of the oldest page, which is marked as swapped. */
  function Fault(v: View, g: nat, target: nat): View
    requires Usable(v) && CanFault(v, target) && g < MAX_PGN
  {
    var victim, v1 := Last(v.mm.fifo), Exchange(v, target);
    assert victim in v.mm.fifo;
    var out := Swapped(v.active, v.swaps[v.active].free[0]);
    v1.(mm := v1.mm.(pgd := v.mm.pgd[victim := out][g := Resident(v.mm.pgd[victim].fpn)], fifo := [g] + v1.mm.fifo))
  }

  /** No index an access follows is out of range; for an unused entry the swap field is zero. */
  predicate CanAccess(v: View, g: nat) {
    g < |v.mm.pgd| && if v.mm.pgd[g] == Absent then CanFault(v, 0) else FrameField(v.mm.pgd[g]) < |v.ram.frames|
  }

  /** The state in which the access then reads or writes: a page once present stays as it is. */
  function GetPage(v: View, g: nat): (v': View)
    requires Usable(v) && CanAccess(v, g)
    ensures g < |v'.mm.pgd| && FrameField(v'.mm.pgd[g]) < |v'.ram.frames|
  {
    if v.mm.pgd[g] == Absent then
      assert Last(v.mm.fifo) in v.mm.fifo;
      Fault(v, g, 0)
    else v
  }

  predicate InRam(v: View, addr: nat) {
    addr / PAGE_SIZE < |v.mm.pgd| && FrameField(v.mm.pgd[addr / PAGE_SIZE]) < |v.ram.frames|
  }

  function Peek(v: View, addr: nat): Byte
    requires InRam(v, addr)
  {
    v.ram.frames[FrameField(v.mm.pgd[addr / PAGE_SIZE])][addr % PAGE_SIZE]
  }

  function Poke(v: View, addr: nat, b: Byte): View
    requires InRam(v, addr)
  {
    var f := FrameField(v.mm.pgd[addr / PAGE_SIZE]);
    v.(ram := v.ram.(frames := v.ram.frames[f := v.ram.frames[f][addr % PAGE_SIZE := b]]))
  }
}
