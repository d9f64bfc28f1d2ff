/** The replacement list is a queue: pages leave it in the order in which they were mapped. */
module PagingFifo {

  import opened Bits
  import opened Paging
  import opened Seqs
  import opened PagingOwnership
  import opened PagingRuns
  import Areas

  /** The pages an allocation takes off the list, in order, including one it then finds no room for. */
  function Victims(v: View, req: nat, frames: seq<nat>, stale: seq<nat>): seq<nat>
    requires Usable(v)
    decreases req
  {
    if req == 0 then []
    else
      var r := AllocOne(v, frames, stale);
      Victim(v) + if r.status == Success then Victims(r.view, req - 1, r.frames, stale) else []
  }

  function Victim(v: View): seq<nat> {
    if v.ram.free == [] && v.mm.fifo != [] then [Last(v.mm.fifo)] else []
  }

  lemma VictimIsOldest(v: View, frames: seq<nat>, stale: seq<nat>)
    requires Usable(v)
    ensures Reverse(v.mm.fifo) == Victim(v) + Reverse(AllocOne(v, frames, stale).view.mm.fifo)
  {
    if v.ram.free == [] && v.mm.fifo != [] { ReverseLast(v.mm.fifo); }
  }

  lemma {:induction false} VictimsAreOldest(v: View, req: nat, frames: seq<nat>, stale: seq<nat>)
    requires Usable(v)
    ensures Reverse(v.mm.fifo) ==
            Victims(v, req, frames, stale) + Reverse(AllocPages(v, req, frames, stale).view.mm.fifo)
    decreases req
  {
    hide AllocOne, Victim;
    if req == 0 {
    } else {
      var r := AllocOne(v, frames, stale);
      VictimIsOldest(v, frames, stale);
      if r.status == Success { VictimsAreOldest(r.view, req - 1, r.frames, stale); }
    }
  }

  function Pages(first: nat, n: nat): seq<nat>
    decreases n
  {
    if n == 0 then [] else [first] + Pages(first + 1, n - 1)
  }

  lemma {:induction false} MapEnlists(mm: Mm, first: nat, frames: seq<nat>)
    requires first + |frames| <= |mm.pgd|
    ensures Reverse(MapPages(mm, first, frames).fifo) == Reverse(mm.fifo) + Pages(first, |frames|)
    decreases |frames|
  {
    if frames == [] {
    } else {
      var mm1 := mm.(pgd := mm.pgd[first := Resident(frames[0])], fifo := [first] + mm.fifo);
      MapEnlists(mm1, first + 1, frames[1..]);
      assert Reverse(mm1.fifo) == Reverse(mm.fifo) + [first] by { assert mm1.fifo[1..] == mm.fifo; }
    }
  }

  // ---------------------------------------------------------------------------------------------
  // One step
  // ---------------------------------------------------------------------------------------------

  /** The view in which an extension allocates: the area's end has already moved. */
  function Moved(v: View, size: nat): View {
    var end := v.mm.sbrk + Areas.AlignUp(size);
    v.(mm := v.mm.(sbrk := end, vmEnd := end))
  }

  function Count(size: nat): nat { Areas.AlignUp(size) / PAGE_SIZE }

  /** The pages of process `p` that a step takes off the replacement list, in order. */
  function LeftBy(m: Machine, op: Op, p: nat): seq<nat>
    requires InBounds(m, op) && Usable(Of(m, op.p))
  {
    var v := Of(m, op.p);
    if op.p != p then []
    else if op.Extend? then
      if RangeFree(v.mm, op.vmaid, Areas.AlignUp(op.size))
      then Victims(Moved(v, op.size), Count(op.size), [], op.stale) else []
    else if EntryAt(m, p, op.addr / PAGE_SIZE) == Absent then [Last(v.mm.fifo)] else []
  }

  /** The pages of process `p` that a step maps, in order. */
  function MappedBy(m: Machine, op: Op, p: nat): seq<nat>
    requires InBounds(m, op) && Usable(Of(m, op.p))
  {
    var v := Of(m, op.p);
    if op.p != p then []
    else if op.Extend? then
      if IncVmaLimit(v, op.vmaid, op.size, op.stale).ok then Pages(v.mm.vmEnd / PAGE_SIZE, Count(op.size)) else []
    else if EntryAt(m, p, op.addr / PAGE_SIZE) == Absent then [op.addr / PAGE_SIZE] else []
  }

  lemma MapRamOrder(v: View, first: nat, n: nat, stale: seq<nat>)
    requires Usable(v) && first + n <= MAX_PGN
    ensures var r := MapRam(v, first, n, stale);
            Reverse(v.mm.fifo) + (if r.ok then Pages(first, n) else [])
            == Victims(v, n, [], stale) + Reverse(r.view.mm.fifo)
  {
    hide AllocOne, AllocPages, Victims, Reverse, Pages;
    VictimsAreOldest(v, n, [], stale);
    var r := AllocPages(v, n, [], stale);
    if r.status == Success {
      AllocLinks(v, n, [], stale, 0);
      AllocKeepsSize(v, n, [], stale);
      MapEnlists(r.view.mm, first, r.frames[..n]);
    }
  }

  lemma FaultOrder(v: View, g: nat)
    requires Usable(v) && CanFault(v, 0) && g < MAX_PGN
    ensures Reverse(v.mm.fifo) + [g] == [Last(v.mm.fifo)] + Reverse(Fault(v, g, 0).mm.fifo)
  {
    ReverseLast(v.mm.fifo);
    var f := Fault(v, g, 0).mm.fifo;
    assert f[1..] == DropLast(v.mm.fifo);
  }

  lemma DoOrder(m: Machine, op: Op, p: nat)
    requires Sound(m) && Allowed(m, op) && p < |m.mms| && Usable(Of(m, op.p))
    ensures |Do(m, op).mms| == |m.mms|
    ensures Reverse(m.mms[p].fifo) + MappedBy(m, op, p) == LeftBy(m, op, p) + Reverse(Do(m, op).mms[p].fifo)
  {
    hide Owned, AllocOne, AllocPages, Victims, Reverse, Pages;
    var v := Of(m, op.p);
    if op.p == p {
      if op.Extend? {
        if RangeFree(v.mm, op.vmaid, Areas.AlignUp(op.size)) {
          assert Limits(m, p);
          MapRamOrder(Moved(v, op.size), v.mm.vmEnd / PAGE_SIZE, Count(op.size), op.stale);
        }
      } else if EntryAt(m, p, op.addr / PAGE_SIZE) == Absent {
        FaultOrder(v, op.addr / PAGE_SIZE);
      }
    }
  }

  // ---------------------------------------------------------------------------------------------
  // Whole runs
  // ---------------------------------------------------------------------------------------------

  ghost function AllMapped(m: Machine, ops: seq<Op>, p: nat): seq<nat>
    requires Sound(m) && AllowedRun(m, ops)
    decreases |ops|
  {
    if ops == [] then []
    else
      OwnedIsUsable(m, [], ops[0].p);
      DoSound(m, ops[0]);
      MappedBy(m, ops[0], p) + AllMapped(Do(m, ops[0]), ops[1..], p)
  }

  ghost function AllLeft(m: Machine, ops: seq<Op>, p: nat): seq<nat>
    requires Sound(m) && AllowedRun(m, ops)
    decreases |ops|
  {
    if ops == [] then []
    else
      OwnedIsUsable(m, [], ops[0].p);
      DoSound(m, ops[0]);
      LeftBy(m, ops[0], p) + AllLeft(Do(m, ops[0]), ops[1..], p)
  }

  lemma {:induction false} RunOrder(m: Machine, ops: seq<Op>, p: nat)
    requires Sound(m) && AllowedRun(m, ops) && p < |m.mms|
    ensures |Run(m, ops).mms| == |m.mms|
    ensures Reverse(m.mms[p].fifo) + AllMapped(m, ops, p) == AllLeft(m, ops, p) + Reverse(Run(m, ops).mms[p].fifo)
    decreases |ops|
  {
    if ops == [] {
    } else {
      OwnedIsUsable(m, [], ops[0].p);
      DoSound(m, ops[0]);
      DoOrder(m, ops[0], p);
      var m1 := Do(m, ops[0]);
      RunOrder(m1, ops[1..], p);
      Regroup(Reverse(m.mms[p].fifo), MappedBy(m, ops[0], p), AllMapped(m1, ops[1..], p),
               LeftBy(m, ops[0], p), Reverse(m1.mms[p].fifo), AllLeft(m1, ops[1..], p),
               Reverse(Run(m, ops).mms[p].fifo));
    }
  }

  lemma Regroup<T>(a: seq<T>, b: seq<T>, c: seq<T>, d: seq<T>, e: seq<T>, f: seq<T>, g: seq<T>)
    requires a + b == d + e && e + c == f + g
    ensures a + (b + c) == (d + f) + g
  {
    assert a + (b + c) == (a + b) + c == d + (e + c) == d + (f + g) == (d + f) + g;
  }

  /**
    From start-up, what a process has mapped is what has left its replacement list followed by what is
    on it, oldest first: pages leave in exactly the order in which they were mapped.
   */
  lemma FirstInFirstOut(m: Machine, ops: seq<Op>, n: Machine, p: nat)
    requires Reaches(m, ops, n) && p < |m.mms|
    ensures |n.mms| == |m.mms|
    ensures AllMapped(m, ops, p) == AllLeft(m, ops, p) + Reverse(n.mms[p].fifo)
  {
    assert Fresh(m.mms[p]);
    RunOrder(m, ops, p);
  }
}
