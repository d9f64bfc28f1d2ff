/**
  Conservation of frames over every run: each frame is free, some page's, or lost, never two of these.
  Only an extension that runs out of frames loses any, and what is lost stays lost.
 */
module PagingConservation {

  import opened Bits
  import opened Paging
  import opened PagingBound
  import opened PagingOwnership
  import opened PagingRuns
  import opened PagingGeometry
  import PagingHoles
  import opened Seqs
  import Areas

  ghost predicate InUse(m: Machine, e: Entry) {
    exists p: nat, g: nat :: EntryAt(m, p, g) == e
  }

  /**
    `spare` lists the frames of RAM that are neither free nor any page's, each once; a swap frame is
    free exactly when no page is stored in it.
   */
  ghost predicate Ledger(m: Machine, spare: seq<nat>) {
    && NoDup(spare)
    && (forall f: nat :: f in spare <==> f < |m.ram.frames| && f !in m.ram.free && !InUse(m, Resident(f)))
    && (forall t: nat, o: nat :: t < |m.swaps| && o < |m.swaps[t].frames| ==>
          (o in m.swaps[t].free <==> !InUse(m, Swapped(t, o))))
  }

  lemma SameUse(m: Machine, m': Machine)
    requires forall p: nat, g: nat :: EntryAt(m', p, g) == EntryAt(m, p, g)
    ensures forall e :: InUse(m', e) <==> InUse(m, e)
  {
    forall e ensures InUse(m', e) <==> InUse(m, e) {
      if p: nat, g: nat :| EntryAt(m, p, g) == e { assert EntryAt(m', p, g) == e; }
      if p: nat, g: nat :| EntryAt(m', p, g) == e { assert EntryAt(m, p, g) == e; }
    }
  }

  /** One entry changes from one that no other page has. */
  lemma UseMoves(m: Machine, m': Machine, p: nat, g: nat, e: Entry)
    requires forall q: nat, h: nat :: EntryAt(m', q, h) == if q == p && h == g then e else EntryAt(m, q, h)
    requires EntryAt(m, p, g) != Absent ==> Injective(m)
    ensures forall d :: d != Absent ==>
              (InUse(m', d) <==> d == e || (d != EntryAt(m, p, g) && InUse(m, d)))
  {
    forall d | d != Absent ensures InUse(m', d) <==> d == e || (d != EntryAt(m, p, g) && InUse(m, d)) {
      if q: nat, h: nat :| EntryAt(m', q, h) == d { assert EntryAt(m, q, h) == d || (q == p && h == g); }
      if q: nat, h: nat :| EntryAt(m, q, h) == d && d != EntryAt(m, p, g) { assert EntryAt(m', q, h) == d; }
      if d == e { assert EntryAt(m', p, g) == d; }
    }
  }

  // ---------------------------------------------------------------------------------------------
  // Allocation
  // ---------------------------------------------------------------------------------------------

  lemma TakeFreeLedger(m: Machine, p: nat, v: View, frames: seq<nat>, stale: seq<nat>, held: seq<nat>, spare: seq<nat>)
    requires p < |m.mms| && v == Of(m, p) && Usable(v) && m.ram.free != []
    requires Owned(m, held) && Ledger(m, spare)
    ensures var r := AllocOne(v, frames, stale); Ledger(Put(m, p, r.view), [r.frames[0]] + spare)
  {
    var r, f := AllocOne(v, frames, stale), m.ram.free[0];
    var m' := Put(m, p, r.view);
    assert m'.mms == m.mms;
    assert forall q: nat, g: nat :: EntryAt(m', q, g) == EntryAt(m, q, g);
    SameUse(m, m');
    TailNoDup(m.ram.free);
    FreeIsUnused(m, held);
    assert f in m.ram.free && f !in spare;
    ConsNoDup(f, spare);
  }

  lemma FreeIsUnused(m: Machine, held: seq<nat>)
    requires Owned(m, held)
    ensures forall f: nat :: f in m.ram.free ==> f < |m.ram.frames| && !InUse(m, Resident(f))
    ensures forall t: nat, o: nat :: t < SWAPS && o in m.swaps[t].free ==> !InUse(m, Swapped(t, o))
  {
    assert forall p: nat, g: nat :: Stored(m.ram, m.swaps, EntryAt(m, p, g));
  }

  lemma EvictLedger(m: Machine, held: seq<nat>, spare: seq<nat>, p: nat, g: nat, f: nat, j: nat, off: nat)
    requires Owned(m, held) && Ledger(m, spare) && Evicts(m, p, g, f, j, off)
    ensures Ledger(Evicted(m, p, g, f, j, off), [f] + spare)
  {
    var m' := Evicted(m, p, g, f, j, off);
    EvictKeeps(m, held, p, g, f, j, off);
    UseMoves(m, m', p, g, Swapped(j, off));
    assert InUse(m, Resident(f)) by { assert EntryAt(m, p, g) == Resident(f); }
    assert Stored(m.ram, m.swaps, EntryAt(m, p, g));
    ConsNoDup(f, spare);
    assert DeviceOk(m.swaps[j]);
    TailNoDup(m.swaps[j].free);
  }

  lemma AllocOneLedger(
      m: Machine, p: nat, v: View, frames: seq<nat>, stale: seq<nat>, held: seq<nat>, spare: seq<nat>, r: Alloc)
    requires p < |m.mms| && v == Of(m, p) && Usable(v) && r == AllocOne(v, frames, stale)
    requires Owned(m, held) && Ledger(m, spare)
    ensures r.status == Success ==> Ledger(Put(m, p, r.view), [r.frames[0]] + spare)
    ensures r.status != Success ==> Ledger(Put(m, p, r.view), spare)
  {
    var m' := Put(m, p, r.view);
    if m.ram.free != [] {
      TakeFreeLedger(m, p, v, frames, stale, held, spare);
    } else if m.mms[p].fifo != [] && SwapTarget(v) < SWAPS {
      var g, j := Last(m.mms[p].fifo), SwapTarget(v);
      assert g in m.mms[p].fifo && EntryAt(m, p, g).Resident?;
      var f, off := EntryAt(m, p, g).fpn, m.swaps[j].free[0];
      assert DeviceOk(m.swaps[j]) && off in m.swaps[j].free;
      assert m' == Evicted(m, p, g, f, j, off);
      EvictLedger(m, held, spare, p, g, f, j, off);
    } else {
      assert forall q: nat, g: nat :: EntryAt(m', q, g) == EntryAt(m, q, g);
      SameUse(m, m');
    }
  }

  /** How many frames an allocation obtains before it succeeds or gives up. */
  function Obtained(v: View, req: nat): nat
    requires |v.swaps| == SWAPS
  {
    Min(req, |v.ram.free| + Min(|v.mm.fifo|, FreeSwap(v.swaps)))
  }

  lemma ObtainedNone(v: View)
    requires Usable(v)
    ensures |v.swaps| == SWAPS && Obtained(v, 0) == 0
  {}

  lemma ObtainedOne(v: View, req: nat, frames: seq<nat>, stale: seq<nat>)
    requires Usable(v) && req > 0
    ensures var r := AllocOne(v, frames, stale);
            if r.status == Success then |r.view.swaps| == SWAPS && Obtained(v, req) == 1 + Obtained(r.view, req - 1)
            else Obtained(v, req) == 0
  {
    var r, j := AllocOne(v, frames, stale), SwapTarget(v);
    if v.ram.free == [] && v.mm.fifo != [] {
      if j < SWAPS { assert FreeSwap(r.view.swaps) == FreeSwap(v.swaps) - 1; } else { assert FreeSwap(v.swaps) == 0; }
    }
  }

  /** One round: the frame it obtains becomes spare. */
  lemma AllocRound(
      m: Machine, p: nat, v: View, frames: seq<nat>, stale: seq<nat>, held: seq<nat>, lost: seq<nat>, r: Alloc)
    returns (m': Machine, held': seq<nat>)
    requires p < |m.mms| && v == Of(m, p) && Usable(v) && r == AllocOne(v, frames, stale)
    requires held <= frames && Owned(m, held) && Linked(v, frames, |held|) && Ledger(m, held + lost)
    ensures m' == Put(m, p, r.view) && Owned(m', held') && Ledger(m', held' + lost)
    ensures if r.status == Success then |held'| == |held| + 1 && held' <= r.frames && Linked(r.view, r.frames, |held'|)
            else held' == held
  {
    hide Owned, Ledger, Usable;
    m', held' := AllocOneOwned(m, p, v, frames, stale, held, r);
    AllocOneLedger(m, p, v, frames, stale, held, held + lost, r);
    hide AllocOne;
    if r.status == Success {
      assert [r.frames[0]] + (held + lost) == held' + lost;
      AllocOneLinks(v, frames, stale, |held|);
    }
  }

  /** The frames an allocation obtains become spare; `lost` were so before. */
  lemma {:induction false} AllocLedger(
      m: Machine, p: nat, v: View, req: nat, frames: seq<nat>, stale: seq<nat>, held: seq<nat>, lost: seq<nat>,
      r: Alloc)
    returns (m': Machine, held': seq<nat>)
    requires p < |m.mms| && v == Of(m, p) && Usable(v) && r == AllocPages(v, req, frames, stale)
    requires held <= frames && Owned(m, held) && Linked(v, frames, |held|) && Ledger(m, held + lost)
    ensures m' == Put(m, p, r.view) && Owned(m', held') && Ledger(m', held' + lost)
    ensures |held'| == |held| + Obtained(v, req)
    ensures r.status == Success ==> |held'| == req + |held| && held' <= r.frames
    decreases req
  {
    hide AllocOne, Owned, Ledger, Obtained, Usable, Linked, Put, Of;
    ObtainedNone(v);
    if req == 0 {
      m', held' := m, held;
      PutOf(m, p, v, v);
    } else {
      var r1 := AllocOne(v, frames, stale);
      ObtainedOne(v, req, frames, stale);
      PutOf(m, p, r1.view, r.view);
      var m1, held1 := AllocRound(m, p, v, frames, stale, held, lost, r1);
      if r1.status == Success {
        assert r == AllocPages(r1.view, req - 1, r1.frames, stale);
        m', held' := AllocLedger(m1, p, r1.view, req - 1, r1.frames, stale, held1, lost, r);
      } else {
        m', held' := m1, held1;
      }
    }
  }

  // ---------------------------------------------------------------------------------------------
  // Operations
  // ---------------------------------------------------------------------------------------------

  /** Mapped frames are no longer spare. */
  lemma {:induction false} MapLedger(m: Machine, p: nat, first: nat, frames: seq<nat>, lost: seq<nat>)
    requires Owned(m, frames) && Ledger(m, frames + lost) && p < |m.mms| && first + |frames| <= MAX_PGN
    requires forall g :: first <= g < first + |frames| ==> EntryAt(m, p, g) == Absent
    ensures Ledger(m.(mms := m.mms[p := MapPages(m.mms[p], first, frames)]), lost)
    decreases |frames|
  {
    assert |m.mms[p].pgd| == MAX_PGN;
    if frames == [] {
      assert m.mms[p := MapPages(m.mms[p], first, frames)] == m.mms && frames + lost == lost;
    } else {
      var mm := m.mms[p];
      var m1 := m.(mms := m.mms[p := mm.(pgd := mm.pgd[first := Resident(frames[0])], fifo := [first] + mm.fifo)]);
      MapOneOwned(m, p, first, frames);
      assert frames + lost == [frames[0]] + (frames[1..] + lost);
      MapOneLedger(m, m1, p, first, frames[0], frames[1..] + lost);
      MapLedger(m1, p, first + 1, frames[1..], lost);
      assert m1.mms[p := MapPages(m1.mms[p], first + 1, frames[1..])] == m.mms[p := MapPages(mm, first, frames)];
    }
  }

  lemma MapOneLedger(m: Machine, m': Machine, p: nat, g: nat, f: nat, spare: seq<nat>)
    requires Ledger(m, [f] + spare) && EntryAt(m, p, g) == Absent && m'.ram == m.ram && m'.swaps == m.swaps
    requires forall q: nat, h: nat :: EntryAt(m', q, h) == if q == p && h == g then Resident(f) else EntryAt(m, q, h)
    ensures Ledger(m', spare)
  {
    UseMoves(m, m', p, g, Resident(f));
    TailNoDup([f] + spare);
  }

  /** Success leaves nothing spare that was not so before; a failure loses the frames it had obtained. */
  lemma MapRamLedger(m: Machine, p: nat, v: View, first: nat, n: nat, stale: seq<nat>, lost: seq<nat>, r: Mapped)
    returns (m': Machine, more: seq<nat>)
    requires p < |m.mms| && v == Of(m, p) && Usable(v) && Owned(m, []) && Ledger(m, lost) && first + n <= MAX_PGN
    requires r == MapRam(v, first, n, stale)
    requires r.ok ==> forall g :: first <= g < first + n ==> EntryAt(m, p, g) == Absent
    ensures m' == Put(m, p, r.view) && Ledger(m', more + lost)
    ensures |more| == if r.ok then 0 else Obtained(v, n)
  {
    hide AllocOne, Ledger;
    var a := AllocPages(v, n, [], stale);
    assert [] + lost == lost;
    var m1, held := AllocLedger(m, p, v, n, [], stale, [], lost, a);
    AllocKeepsSize(v, n, [], stale);
    if a.status == Success {
      assert held == a.frames[..n];
      forall g | first <= g < first + n ensures EntryAt(m1, p, g) == Absent {
        assert EntryAt(m, p, g) == Absent && a.view.mm.pgd[g] == Absent <==> v.mm.pgd[g] == Absent;
      }
      MapLedger(m1, p, first, held, lost);
      PutOf(m, p, a.view, r.view);
      m', more := Put(m1, p, r.view), [];
    } else {
      m', more := m1, held;
    }
  }

  /** What one operation loses: all that a failed extension could have, and nothing otherwise. */
  function LostBy(m: Machine, op: Op): nat
    requires |m.swaps| == SWAPS && op.p < |m.mms| && Usable(Of(m, op.p)) && InBounds(m, op)
  {
    if op.Extend? && RangeFree(m.mms[op.p], op.vmaid, Areas.AlignUp(op.size)) && !Grown(m, op).ok
    then |m.ram.free| + Min(|m.mms[op.p].fifo|, FreeSwap(m.swaps)) else 0
  }

  lemma ExtendLedger(m: Machine, op: Op, lost: seq<nat>) returns (more: seq<nat>)
    requires Sound(m) && Ledger(m, lost) && Allowed(m, op) && op.Extend? && Usable(Of(m, op.p))
    ensures |m.swaps| == SWAPS && Ledger(Do(m, op), more + lost) && |more| == LostBy(m, op)
  {
    assert |m.swaps| == SWAPS;
    hide AllocOne, AllocPages, Owned, Ledger, Obtained;
    var v, amount := Of(m, op.p), Areas.AlignUp(op.size);
    if !RangeFree(v.mm, op.vmaid, amount) {
      PutOf(m, op.p, v, v);
      more := [];
      assert [] + lost == lost;
    } else {
      var end := v.mm.sbrk + amount;
      var v1 := v.(mm := v.mm.(sbrk := end, vmEnd := end));
      var m1 := Put(m, op.p, v1);
      assert Limits(m, op.p);
      MoveEnd(m, op.p, end);
      MoveEndLedger(m, op.p, v1, lost);
      PutOf(m, op.p, v1, Grown(m, op).view);
      if !Grown(m, op).ok { FailedObtains(m, op, v1); }
      ExtendOutcome(v, op.vmaid, op.size, op.stale);
      forall g | Grown(m, op).ok && v.mm.vmEnd / PAGE_SIZE <= g < (v.mm.vmEnd + amount) / PAGE_SIZE
        ensures EntryAt(m1, op.p, g) == Absent
      {
        assert EntryAt(m1, op.p, g) == EntryAt(m, op.p, g) && Added(m, op.p, op.size, op.p, g);
      }
      var m';
      m', more := MapRamLedger(m1, op.p, v1, v.mm.vmEnd / PAGE_SIZE, amount / PAGE_SIZE, op.stale, lost, Grown(m, op));
    }
  }

  /** A failed extension had obtained all that could be had. */
  lemma FailedObtains(m: Machine, op: Op, v1: View)
    requires Sound(m) && Allowed(m, op) && op.Extend? && Usable(Of(m, op.p)) && !Grown(m, op).ok
    requires RangeFree(m.mms[op.p], op.vmaid, Areas.AlignUp(op.size))
    requires v1.ram == m.ram && v1.swaps == m.swaps && v1.mm.fifo == m.mms[op.p].fifo
    ensures |m.swaps| == SWAPS && Obtained(v1, Areas.AlignUp(op.size) / PAGE_SIZE) == LostBy(m, op)
  {
    assert |m.swaps| == SWAPS;
    hide Owned, AllocOne, AllocPages;
    var m' := ExtendEffect(m, op.p, Of(m, op.p), op.vmaid, op.size, op.stale, Grown(m, op));
  }

  lemma MoveEndLedger(m: Machine, p: nat, v: View, spare: seq<nat>)
    requires p < |m.mms| && Ledger(m, spare)
    requires v.ram == m.ram && v.swaps == m.swaps && v.mm.pgd == m.mms[p].pgd
    ensures Ledger(Put(m, p, v), spare)
  {
    assert forall q: nat, g: nat :: EntryAt(Put(m, p, v), q, g) == EntryAt(m, q, g);
    SameUse(m, Put(m, p, v));
  }

  lemma FaultLedger(m: Machine, p: nat, v: View, g: nat, lost: seq<nat>)
    requires Owned(m, []) && Ledger(m, lost) && p < |m.mms| && v == Of(m, p) && Usable(v) && CanFault(v, 0)
    requires g < MAX_PGN && EntryAt(m, p, g) == Absent
    ensures Ledger(Put(m, p, Fault(v, g, 0)), lost)
  {
    var victim := Last(v.mm.fifo);
    assert victim in v.mm.fifo;
    var f, off := v.mm.pgd[victim].fpn, v.swaps[v.active].free[0];
    assert DeviceOk(v.swaps[v.active]) && off in v.swaps[v.active].free;
    var m1 := Evicted(m, p, victim, f, v.active, off);
    EvictLedger(m, [], lost, p, victim, f, v.active, off);
    EvictKeeps(m, [], p, victim, f, v.active, off);
    var mm := m1.mms[p];
    var m2 := m1.(mms := m1.mms[p := mm.(pgd := mm.pgd[g := Resident(f)], fifo := [g] + mm.fifo)]);
    var m' := Put(m, p, Fault(v, g, 0));
    hide Owned, Ledger;
    assert m'.mms == m2.mms;
    MapOneLedger(m1, m2, p, g, f, lost);
    SameShapeLedger(m2, m', lost);
  }

  lemma SameShapeLedger(m: Machine, m': Machine, lost: seq<nat>)
    requires Ledger(m, lost) && m'.mms == m.mms && SameShape(m.ram, m'.ram) && |m'.swaps| == |m.swaps|
    requires forall i :: 0 <= i < |m.swaps| ==> SameShape(m.swaps[i], m'.swaps[i])
    ensures Ledger(m', lost)
  {
    assert forall q: nat, g: nat :: EntryAt(m', q, g) == EntryAt(m, q, g);
    SameUse(m, m');
    forall t: nat, o: nat | t < |m'.swaps| && o < |m'.swaps[t].frames|
      ensures o in m'.swaps[t].free <==> !InUse(m', Swapped(t, o))
    {
      assert SameShape(m.swaps[t], m'.swaps[t]);
    }
  }

  lemma AccessLedger(m: Machine, op: Op, lost: seq<nat>)
    requires Sound(m) && Ledger(m, lost) && Allowed(m, op) && !op.Extend? && Usable(Of(m, op.p))
    ensures Ledger(Do(m, op), lost)
  {
    hide Owned, Ledger;
    var v, g := Of(m, op.p), op.addr / PAGE_SIZE;
    var v1 := GetPage(v, g);
    if v.mm.pgd[g] == Absent { FaultLedger(m, op.p, v, g, lost); } else { PutOf(m, op.p, v, v); }
    var m1 := Put(m, op.p, v1);
    if op.Write? {
      PutOf(m, op.p, v1, Poke(v1, op.addr, op.value));
      assert Do(m, op).mms == m1.mms;
      SameShapeLedger(m1, Do(m, op), lost);
    }
  }

  lemma DoLedger(m: Machine, op: Op, lost: seq<nat>) returns (more: seq<nat>)
    requires Sound(m) && Ledger(m, lost) && Allowed(m, op) && Usable(Of(m, op.p))
    ensures |m.swaps| == SWAPS && Ledger(Do(m, op), more + lost) && |more| == LostBy(m, op)
  {
    assert |m.swaps| == SWAPS;
    hide Owned, Ledger, Allowed, Do;
    if op.Extend? {
      more := ExtendLedger(m, op, lost);
    } else {
      AccessLedger(m, op, lost);
      more := [];
      assert [] + lost == lost;
    }
  }

  // ---------------------------------------------------------------------------------------------
  // Whole runs
  // ---------------------------------------------------------------------------------------------

  /** The sum, over the failed extensions of a run, of what each had obtained. */
  ghost function AllLost(m: Machine, ops: seq<Op>): nat
    requires Sound(m) && AllowedRun(m, ops)
    decreases |ops|
  {
    if ops == [] then 0
    else
      OwnedIsUsable(m, [], ops[0].p);
      DoSound(m, ops[0]);
      LostBy(m, ops[0]) + AllLost(Do(m, ops[0]), ops[1..])
  }

  /** Along any run the list of lost frames only grows, by what failed extensions had obtained. */
  lemma {:induction false} RunLedger(m: Machine, ops: seq<Op>, lost: seq<nat>) returns (more: seq<nat>)
    requires Sound(m) && AllowedRun(m, ops) && Ledger(m, lost)
    ensures Ledger(Run(m, ops), more + lost) && |more| == AllLost(m, ops)
    decreases |ops|
  {
    hide Owned, Ledger, Do;
    if ops == [] {
      more := [];
      assert [] + lost == lost;
    } else {
      OwnedIsUsable(m, [], ops[0].p);
      DoSound(m, ops[0]);
      var one := DoLedger(m, ops[0], lost);
      more := RunLedger(Do(m, ops[0]), ops[1..], one + lost);
      assert more + (one + lost) == (more + one) + lost;
      more := more + one;
    }
  }

  lemma BootedLedger(m: Machine)
    requires Booted(m)
    ensures Ledger(m, [])
  {
    assert forall p :: 0 <= p < |m.mms| ==> Fresh(m.mms[p]);
    assert forall p: nat, g: nat :: EntryAt(m, p, g) == Absent;
    forall f: nat | f < |m.ram.frames| ensures f in m.ram.free { assert m.ram.free[f] == f; }
    forall t: nat, o: nat | t < |m.swaps| && o < |m.swaps[t].frames| ensures o in m.swaps[t].free {
      assert Formatted(m.swaps[t]) && m.swaps[t].free[o] == o;
    }
  }

  /**
    After any run each frame of RAM is free, some page's, or lost, and never two of these; each swap
    frame is free or some page's. As many frames are lost as the failed extensions had obtained.
   */
  lemma FramesAreAccountedFor(m: Machine, ops: seq<Op>, n: Machine) returns (lost: seq<nat>)
    requires Reaches(m, ops, n)
    ensures NoDup(lost) && |lost| == AllLost(m, ops) && Ledger(n, lost)
    ensures forall f: nat :: f < |n.ram.frames| ==>
              var free, used := f in n.ram.free, InUse(n, Resident(f));
              (free || used || f in lost) && !(free && used) && !(free && f in lost) && !(used && f in lost)
    ensures forall t: nat, o: nat :: t < |n.swaps| && o < |n.swaps[t].frames| ==>
              (o in n.swaps[t].free <==> !InUse(n, Swapped(t, o)))
  {
    BootedLedger(m);
    RunSound(m, ops);
    lost := RunLedger(m, ops, []);
    assert lost + [] == lost;
    FreeIsUnused(n, []);
  }

  /** What is lost stays lost, whatever is done afterwards. */
  lemma LostForGood(m: Machine, ops: seq<Op>, n: Machine, lost: seq<nat>, later: seq<Op>)
    requires Reaches(m, ops, n) && Ledger(n, lost) && Sound(n) && AllowedRun(n, later)
    ensures forall f :: f in lost ==> f !in Run(n, later).ram.free && !InUse(Run(n, later), Resident(f))
  {
    var more := RunLedger(n, later, lost);
    forall f | f in lost ensures f in more + lost {}
  }

  /** From start-up, a request of one page more than RAM has loses all of RAM. */
  lemma AllOfRamIsLost(m: Machine, p: nat, stale: seq<nat>) returns (n: Machine)
    requires Booted(m) && p < |m.mms|
    ensures var ops := [Extend(p, 0, (|m.ram.frames| + 1) * PAGE_SIZE, stale)];
            Reaches(m, ops, n) && AllLost(m, ops) == |m.ram.frames|
    ensures forall f: nat :: f !in n.ram.free && !InUse(n, Resident(f))
  {
    var size := (|m.ram.frames| + 1) * PAGE_SIZE;
    var op := Extend(p, 0, size, stale);
    BootedIsSound(m);
    assert Fresh(m.mms[p]);
    OwnedIsUsable(m, [], p);
    hide Owned, AllocOne, AllocPages, IncVmaLimit;
    assert Areas.AlignUp(size) == size && size / PAGE_SIZE == |m.ram.frames| + 1;
    assert RangeFree(m.mms[p], 0, size);
    ExtendOutcome(Of(m, p), 0, size, stale);
    PagingHoles.ExtendShrinks(Of(m, p), 0, size, stale);
    DoEffect(m, op);
    n := Do(m, op);
    assert AllowedRun(m, [op]) && Run(m, [op]) == n by { assert [op][1..] == [] && AllowedRun(n, []); }
    assert AllLost(n, []) == 0 && [op][1..] == [];
    assert forall q: nat, g: nat :: EntryAt(m, q, g) == Absent by {
      assert forall q :: 0 <= q < |m.mms| ==> Fresh(m.mms[q]);
    }
  }

  /** While no extension runs out of frames, a frame is free exactly when no page is stored in it. */
  lemma FramesAreConserved(m: Machine, ops: seq<Op>, n: Machine)
    requires Reaches(m, ops, n) && AllLost(m, ops) == 0
    ensures forall f: nat :: f < |n.ram.frames| ==> (f in n.ram.free <==> !InUse(n, Resident(f)))
  {
    var lost := FramesAreAccountedFor(m, ops, n);
  }
}
