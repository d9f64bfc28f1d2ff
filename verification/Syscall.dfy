/**
  The in-place operations carry out runs of the memory system: any number of processes, each with its
  own memory, on shared devices. What holds of runs holds of them.
 */
module Syscall {

  import opened Paging
  import opened PagingOwnership
  import opened PagingRuns
  import opened Kernel
  import opened AddressSpace

  /** What an operation of a process may change: its own memory and the shared devices. */
  ghost function Footprint(c: Caller): set<object>
    reads c.mm`spine
  {
    {c.mram, c.mram.storage, c.mm, c.mm.pgd} + (set n | n in c.mm.spine) + if |c.mswp| == SWAPS then c.Swap() else {}
  }

  method Serve(caller: Caller, op: Op) returns (data: Byte)
    requires caller.Shape() && Usable(caller.Abs()) && CanPerform(caller.Abs(), op)
    modifies Footprint(caller)
    ensures caller.Shape() && caller.Abs() == Perform(old(caller.Abs()), op)
    ensures forall n :: n in caller.mm.spine ==> n in old(caller.mm.spine) || fresh(n)
    ensures op.Read? ==> InRam(caller.Abs(), op.addr) && data == Peek(caller.Abs(), op.addr)
  {
    hide Usable, Paging.IncVmaLimit, GetPage, Poke, Peek, MmStruct.Linked, MmStruct.Zeroed, Apart, Beside;
    data := 0;
    match op
    case Extend(p, vmaid, size, stale) => var code := caller.IncVmaLimit(vmaid, size, stale);
    case Read(p, addr) => data := caller.PgGetVal(addr);
    case Write(p, addr, value) => caller.PgSetVal(addr, value);
  }

  /** What a process's part of the heap amounts to. */
  ghost predicate HoldsOne(c: Caller, v: View)
    reads c.mm, Footprint(c)
  {
    c.Shape() && c.Abs() == v
  }

  /** The byte that a read returns in a state of the machine. */
  ghost function ReadBy(m: Machine, op: Op): Byte
    requires Sound(m) && Allowed(m, op) && op.Read?
  {
    OwnedIsUsable(m, [], op.p);
    Peek(GetPage(Of(m, op.p), op.addr / PAGE_SIZE), op.addr)
  }

  /**
    One operation of process `op.p`, whose view of the machine `m` is what the caller's memory holds.
    The caller then holds its view of the machine after that step, in which ownership is still intact.
    It has gained no list nodes but new ones.
   */
  method Execute(caller: Caller, op: Op, ghost m: Machine) returns (data: Byte)
    requires Sound(m) && Allowed(m, op) && HoldsOne(caller, Of(m, op.p))
    modifies Footprint(caller)
    ensures Sound(Do(m, op)) && op.p < |Do(m, op).mms| && HoldsOne(caller, Of(Do(m, op), op.p))
    ensures forall n :: n in caller.mm.spine ==> n in old(caller.mm.spine) || fresh(n)
    ensures forall o :: o in Footprint(caller) ==> o in old(Footprint(caller)) || fresh(o)
    ensures op.Read? ==> data == ReadBy(m, op)
  {
    hide Owned, Caller.Shape, Caller.Abs, GetPage, Poke, Peek, IncVmaLimit;
    OwnedIsUsable(m, [], op.p);
    DoSound(m, op);
    PutOf(m, op.p, Perform(Of(m, op.p), op), Of(m, op.p));
    data := Serve(caller, op);
  }

  // ---------------------------------------------------------------------------------------------
  // Several processes
  // ---------------------------------------------------------------------------------------------

  /** Two processes share the devices and nothing else. */
  ghost predicate Separate(a: Caller, b: Caller)
    reads a.mm`spine, b.mm`spine
  {
    && a.mram == b.mram && a.mswp == b.mswp && a.activeMswpId == b.activeMswpId
    && a.mm != b.mm && a.mm.pgd != b.mm.pgd && forall n :: n in a.mm.spine ==> n !in b.mm.spine
  }

  /** The devices as one process sees them, and the memory of another. */
  function Joined(v: View, w: View): View {
    v.(mm := w.mm)
  }

  /** The part of a process's memory that no other process reaches. */
  ghost predicate OwnPart(d: Caller, w: View)
    reads d.mm, d.mm.pgd, d.mm.spine
  {
    d.Shape() && d.mm.Abs() == w.mm
  }

  lemma HoldsOwnPart(d: Caller, w: View)
    requires HoldsOne(d, w)
    ensures OwnPart(d, w)
  {}

  /** A process whose own part is as it was sees the devices as another left them. */
  lemma Rejoins(c: Caller, d: Caller, v: View, w: View)
    requires HoldsOne(c, v) && OwnPart(d, w) && c.mram == d.mram && c.mswp == d.mswp && c.activeMswpId == d.activeMswpId
    ensures HoldsOne(d, Joined(v, w))
  {
    assert d.Swaps() == c.Swaps();
  }

  /** Nothing of process `d` alone is in reach of process `c`. */
  ghost predicate OutOfReach(c: Caller, d: Caller)
    reads c.mm`spine, d.mm`spine
  {
    d.mm !in Footprint(c) && d.mm.pgd !in Footprint(c) && forall n :: n in d.mm.spine ==> n !in Footprint(c)
  }

  lemma MmOutOfReach(c: Caller, d: Caller)
    requires |c.mswp| == SWAPS && Separate(c, d)
    ensures d.mm !in Footprint(c)
  {}

  lemma PgdOutOfReach(c: Caller, d: Caller)
    requires |c.mswp| == SWAPS && Separate(c, d) && Beside(d.mm.pgd, c.mram, c.mswp)
    ensures d.mm.pgd !in Footprint(c)
  {}

  lemma NodeOutOfReach(c: Caller, d: Caller, n: PgNode)
    requires |c.mswp| == SWAPS && Separate(c, d) && n in d.mm.spine
    ensures n !in Footprint(c)
  {}

  lemma SeparateOutOfReach(c: Caller, d: Caller, v: View)
    requires HoldsOne(d, v) && |c.mswp| == SWAPS && Separate(c, d)
    ensures OutOfReach(c, d)
  {
    assert |c.mswp| == SWAPS;
    assert Beside(d.mm.pgd, c.mram, c.mswp) by { assert Beside(d.mm.pgd, d.mram, d.mswp); }
    hide Footprint, Separate, Caller.Shape;
    MmOutOfReach(c, d);
    PgdOutOfReach(c, d);
    forall n | n in d.mm.spine ensures n !in Footprint(c) { NodeOutOfReach(c, d, n); }
  }

  ghost predicate AllSeparate(callers: seq<Caller>)
    reads set c | c in callers :: c.mm
  {
    forall q, r :: 0 <= q < |callers| && 0 <= r < |callers| && q != r ==> Separate(callers[q], callers[r])
  }

  lemma DoIsJoined(m: Machine, op: Op)
    requires Sound(m) && Allowed(m, op)
    ensures |Do(m, op).mms| == |m.mms|
    ensures forall q :: 0 <= q < |m.mms| && q != op.p ==> Of(Do(m, op), q) == Joined(Of(Do(m, op), op.p), Of(m, q))
  {
    OwnedIsUsable(m, [], op.p);
    PutOf(m, op.p, Perform(Of(m, op.p), op), Of(m, op.p));
  }

  /** The memory `mem` holds exactly the machine `m`: the shared devices, and every process its own part. */
  ghost predicate Holds(callers: seq<Caller>, m: Machine, mem: set<object>)
    reads mem, set c | c in callers :: c.mm
  {
    && |callers| == |m.mms| && AllSeparate(callers)
    && forall q :: 0 <= q < |callers| ==> Footprint(callers[q]) <= mem && HoldsOne(callers[q], Of(m, q))
  }

  lemma HoldsParts(callers: seq<Caller>, m: Machine, mem: set<object>, p: nat)
    requires Holds(callers, m, mem) && p < |callers|
    ensures |callers[p].mswp| == SWAPS && HoldsOne(callers[p], Of(m, p)) && Footprint(callers[p]) <= mem
    ensures forall q :: 0 <= q < |callers| && q != p ==>
              OutOfReach(callers[p], callers[q]) && OwnPart(callers[q], Of(m, q)) && Footprint(callers[q]) <= mem
  {
    assert HoldsOne(callers[p], Of(m, p));
    hide HoldsOne;
    forall q | 0 <= q < |callers| && q != p
      ensures OutOfReach(callers[p], callers[q]) && OwnPart(callers[q], Of(m, q))
    {
      assert HoldsOne(callers[q], Of(m, q)) && Separate(callers[p], callers[q]);
      SeparateOutOfReach(callers[p], callers[q], Of(m, q));
      HoldsOwnPart(callers[q], Of(m, q));
    }
  }

  /** `n` is the machine, and `b` the byte if any, that an operation leads to. */
  ghost predicate LeadsTo(m: Machine, op: Op, n: Machine, b: Byte) {
    Sound(m) && Allowed(m, op) && n == Do(m, op) && (op.Read? ==> b == ReadBy(m, op))
  }

  lemma PartsHold(callers: seq<Caller>, m: Machine, op: Op, n: Machine, b: Byte, mem: set<object>)
    requires LeadsTo(m, op, n, b) && |callers| == |m.mms| && AllSeparate(callers)
    requires op.p < |n.mms| && HoldsOne(callers[op.p], Of(n, op.p))
    requires forall q :: 0 <= q < |callers| ==>
               Footprint(callers[q]) <= mem && (q != op.p ==> OwnPart(callers[q], Of(m, q)))
    ensures Holds(callers, n, mem)
  {
    DoIsJoined(m, op);
    hide HoldsOne, OwnPart, Sound, Allowed, Do, Joined, Footprint;
    forall q | 0 <= q < |callers| ensures HoldsOne(callers[q], Of(Do(m, op), q)) {
      if q != op.p {
        assert Separate(callers[op.p], callers[q]);
        Rejoins(callers[op.p], callers[q], Of(Do(m, op), op.p), Of(m, q));
      }
    }
  }

  ghost function Spines(callers: seq<Caller>): (r: seq<seq<PgNode>>)
    reads set c | c in callers :: c.mm
    ensures |r| == |callers| && forall q :: 0 <= q < |r| ==> r[q] == callers[q].mm.spine
  {
    seq(|callers|, q requires 0 <= q < |callers| reads set c | c in callers :: c.mm => callers[q].mm.spine)
  }

  /** Everything the processes' lists were made of is in `mem`, and they shared none of it. */
  ghost predicate SpinesApart(callers: seq<Caller>, before: seq<seq<PgNode>>, mem: set<object>) {
    && |before| == |callers|
    && (forall q, n :: 0 <= q < |before| && n in before[q] ==> n in mem)
    && (forall q, r :: 0 <= q < |before| && 0 <= r < |before| && q != r ==>
          forall n :: n in before[q] ==> n !in before[r])
    && (forall q, r :: 0 <= q < |callers| && 0 <= r < |callers| && q != r ==>
          var c, d := callers[q], callers[r];
          && c.mram == d.mram && c.mswp == d.mswp && c.activeMswpId == d.activeMswpId
          && c.mm != d.mm && c.mm.pgd != d.mm.pgd)
  }

  lemma HoldsApart(callers: seq<Caller>, m: Machine, mem: set<object>)
    requires Holds(callers, m, mem)
    ensures SpinesApart(callers, Spines(callers), mem)
  {
    hide HoldsOne;
    var before := Spines(callers);
    forall q, n | 0 <= q < |before| && n in before[q] ensures n in mem {
      assert n in Footprint(callers[q]);
    }
    forall q, r | 0 <= q < |before| && 0 <= r < |before| && q != r ensures Separate(callers[q], callers[r]) {}
  }

  /** Nodes outside that memory belong to nobody else. */
  lemma StillApart(callers: seq<Caller>, before: seq<seq<PgNode>>, mem: set<object>, p: nat)
    requires SpinesApart(callers, before, mem) && p < |callers|
    requires forall q :: 0 <= q < |callers| && q != p ==> callers[q].mm.spine == before[q]
    requires forall n :: n in callers[p].mm.spine ==> n in before[p] || n !in mem
    ensures AllSeparate(callers)
  {}

  /** What one process does to the heap, in the memory `mem`. */
  method StepOwn(callers: seq<Caller>, op: Op, ghost m: Machine, ghost n: Machine, ghost b: Byte,
                 ghost mem: set<object>)
    returns (data: Byte)
    requires LeadsTo(m, op, n, b) && Holds(callers, m, mem)
    modifies mem
    ensures op.p < |n.mms| && HoldsOne(callers[op.p], Of(n, op.p)) && (op.Read? ==> data == b)
    ensures forall o :: o in Footprint(callers[op.p]) ==> o in mem || fresh(o)
    ensures forall x :: x in callers[op.p].mm.spine ==> x in old(callers[op.p].mm.spine) || fresh(x)
    ensures forall q :: 0 <= q < |callers| && q != op.p ==>
              unchanged(callers[q].mm) && OwnPart(callers[q], Of(m, q)) && Footprint(callers[q]) <= mem
  {
    HoldsParts(callers, m, mem, op.p);
    hide Sound, Allowed, Do, ReadBy, HoldsOne, Caller.Shape, MmStruct.Linked, Footprint, OwnPart, AllSeparate, Holds;
    data := Execute(callers[op.p], op, m);
  }

  /** One step; what it adds to the memory is new. */
  method Step(callers: seq<Caller>, op: Op, ghost m: Machine, ghost n: Machine, ghost b: Byte, ghost mem: set<object>)
    returns (data: Byte, ghost mem': set<object>)
    requires LeadsTo(m, op, n, b) && Holds(callers, m, mem)
    modifies mem
    ensures Holds(callers, n, mem') && (forall o :: o in mem' ==> o in mem || fresh(o))
    ensures op.Read? ==> data == b
  {
    ghost var before := Spines(callers);
    HoldsApart(callers, m, mem);
    assert op.p < |callers| && |callers| == |m.mms|;
    hide Sound, Allowed, Do, ReadBy, HoldsOne, Footprint, OwnPart, AllSeparate, Holds, LeadsTo, SpinesApart;
    data := StepOwn(callers, op, m, n, b, mem);
    mem' := mem + Footprint(callers[op.p]);
    StillApart(callers, before, mem, op.p);
    PartsHold(callers, m, op, n, b, mem');
  }

  // ---------------------------------------------------------------------------------------------
  // Whole runs
  // ---------------------------------------------------------------------------------------------

  /**
    The first operations of a run, as many as `data` has bytes, lead from `m` to `n`, and every read among
    them returned its byte of `data`.
   */
  ghost predicate Ran(m: Machine, ops: seq<Op>, n: Machine, data: seq<Byte>) {
    && Sound(m) && AllowedRun(m, ops) && |data| <= |ops|
    && AllowedRun(m, ops[..|data|]) && n == Run(m, ops[..|data|])
    && forall i :: 0 <= i < |data| && ops[i].Read? ==>
         (RunPrefix(m, ops, i); data[i] == ReadBy(Run(m, ops[..i]), ops[i]))
  }

  lemma RanNothing(m: Machine, ops: seq<Op>)
    requires Sound(m) && AllowedRun(m, ops)
    ensures Ran(m, ops, m, [])
  {
    assert ops[..0] == [];
  }

  lemma RanNext(m: Machine, ops: seq<Op>, n: Machine, data: seq<Byte>) returns (n': Machine, b: Byte)
    requires Ran(m, ops, n, data) && |data| < |ops|
    ensures LeadsTo(n, ops[|data|], n', b)
    ensures forall d :: (ops[|data|].Read? ==> d == b) ==> Ran(m, ops, n', data + [d])
  {
    hide Sound, InBounds, Covers, AllowedRun, Run, Do, ReadBy;
    RunPrefix(m, ops, |data|);
    n' := Do(n, ops[|data|]);
    b := if ops[|data|].Read? then ReadBy(n, ops[|data|]) else 0;
  }

  lemma RanAll(m: Machine, ops: seq<Op>, n: Machine, data: seq<Byte>)
    requires Ran(m, ops, n, data) && |data| == |ops|
    ensures Sound(n) && n == Run(m, ops)
  {
    assert ops[..|ops|] == ops;
    RunSound(m, ops);
  }

  /**
    Any run, in place: any processes, in any order. The heap ends up holding the machine `n` that the run
    on values leads to, ownership included, and every read returns what the run says.
   */
  method RunAll(callers: seq<Caller>, ops: seq<Op>, ghost m: Machine, ghost mem: set<object>)
    returns (data: seq<Byte>, ghost n: Machine, ghost mem': set<object>)
    requires Sound(m) && AllowedRun(m, ops) && Holds(callers, m, mem)
    modifies mem
    ensures |data| == |ops| && Ran(m, ops, n, data) && Sound(n) && n == Run(m, ops)
    ensures Holds(callers, n, mem') && forall o :: o in mem' ==> o in mem || fresh(o)
  {
    RanNothing(m, ops);
    hide Sound, AllowedRun, Holds, Ran, LeadsTo;
    data, n, mem' := [], m, mem;
    while |data| < |ops|
      invariant |data| <= |ops| && Ran(m, ops, n, data)
      invariant Holds(callers, n, mem') && forall o :: o in mem' ==> o in mem || fresh(o)
    {
      ghost var n', b := RanNext(m, ops, n, data);
      var one;
      one, mem' := Step(callers, ops[|data|], n, n', b, mem');
      n := n';
      data := data + [one];
    }
    RanAll(m, ops, n, data);
  }
}
