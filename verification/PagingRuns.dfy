/**
  Runs of the memory system: any processes extend their areas, read and write, in any order.
 */
module PagingRuns {

  import opened Bits
  import opened Paging
  import opened Seqs
  import opened PagingBound
  import opened PagingOwnership
  import Areas

  datatype Op =
    | Extend(p: nat, vmaid: nat, size: nat, stale: seq<nat>)
    | Read(p: nat, addr: nat)
    | Write(p: nat, addr: nat, value: Byte)

  /** The area starts at 0 and ends at a page boundary. */
  ghost predicate Limits(m: Machine, p: nat)
    requires p < |m.mms|
  {
    var mm := m.mms[p];
    mm.sbrk == mm.vmEnd && mm.vmEnd % PAGE_SIZE == 0 && mm.vmEnd <= ADDRESS_LIMIT
  }

  ghost predicate Sound(m: Machine) {
    Owned(m, []) && forall p :: 0 <= p < |m.mms| ==> Limits(m, p)
  }

  /** Areas and accesses stay below 4 MB, and every index followed in range. Accesses ignore the area's end. */
  predicate CanPerform(v: View, op: Op) {
    if op.Extend? then op.vmaid <= 1 && v.mm.vmEnd + Areas.AlignUp(op.size) <= ADDRESS_LIMIT
    else CanAccess(v, op.addr / PAGE_SIZE)
  }

  predicate InBounds(m: Machine, op: Op) {
    op.p < |m.mms| && CanPerform(Of(m, op.p), op)
  }

  /** The pages of an extension. */
  predicate Added(m: Machine, p: nat, size: nat, q: nat, g: nat)
    requires p < |m.mms|
  {
    InRange(p, m.mms[p].vmEnd / PAGE_SIZE, Areas.AlignUp(size) / PAGE_SIZE, q, g)
  }

  /** The range passes the overlap test, and frames can be had for all of its pages. */
  predicate Succeeds(v: View, vmaid: nat, size: nat) {
    && |v.swaps| == SWAPS && RangeFree(v.mm, vmaid, Areas.AlignUp(size))
    && Outcome(Areas.AlignUp(size) / PAGE_SIZE, |v.ram.free|, |v.mm.fifo|, FreeSwap(v.swaps)) == Success
  }

  /** A successful extension over a page that is mapped already, as a fault beyond the area's end leaves one. */
  ghost predicate Covers(m: Machine, op: Op) {
    && op.Extend? && op.p < |m.mms| && Succeeds(Of(m, op.p), op.vmaid, op.size)
    && exists g: nat :: Added(m, op.p, op.size, op.p, g) && EntryAt(m, op.p, g) != Absent
  }

  ghost predicate Allowed(m: Machine, op: Op) {
    InBounds(m, op) && !Covers(m, op)
  }

  function Perform(v: View, op: Op): View
    requires Usable(v) && CanPerform(v, op)
  {
    match op
    case Extend(_, vmaid, size, stale) => IncVmaLimit(v, vmaid, size, stale).view
    case Read(_, addr) => GetPage(v, addr / PAGE_SIZE)
    case Write(_, addr, b) => Poke(GetPage(v, addr / PAGE_SIZE), addr, b)
  }

  ghost function Do(m: Machine, op: Op): Machine
    requires Sound(m) && InBounds(m, op)
  {
    OwnedIsUsable(m, [], op.p);
    Put(m, op.p, Perform(Of(m, op.p), op))
  }

  /**
    What is allowed: an extension below 4 MB that gives either number of the area, and an access below 4 MB to a
    resident page, to a swapped page whose alias is a frame of RAM, or to a page not mapped if a fault finds a page to
    evict, a free frame on the active swap device, and there a frame of the number of the one that changes hands.
   */
  lemma InBoundsIff(m: Machine, op: Op)
    requires Sound(m) && op.p < |m.mms|
    ensures Usable(Of(m, op.p)) && |m.swaps| == SWAPS && m.active < SWAPS
    ensures op.Extend? ==>
              (InBounds(m, op) <==> op.vmaid in {0, 1} && m.mms[op.p].vmEnd + Areas.AlignUp(op.size) <= 0x40_0000)
    ensures !op.Extend? ==>
              var e, list := EntryAt(m, op.p, op.addr / 256), m.mms[op.p].fifo;
              (InBounds(m, op) <==>
                 && op.addr < 0x40_0000
                 && (e.Swapped? ==> FrameField(e) < |m.ram.frames|)
                 && (e.Absent? ==> list != [] && m.swaps[m.active].free != [] && m.ram.frames != []
                                   && EntryAt(m, op.p, list[|list| - 1]).Resident?
                                   && EntryAt(m, op.p, list[|list| - 1]).fpn < |m.swaps[m.active].frames|))
  {
    OwnedIsUsable(m, [], op.p);
    if !op.Extend? {
      assert Stored(m.ram, m.swaps, EntryAt(m, op.p, op.addr / 256));
      assert m.mms[op.p].fifo != [] ==> Last(m.mms[op.p].fifo) in m.mms[op.p].fifo;
    }
  }

  // ---------------------------------------------------------------------------------------------
  // Extending an area
  // ---------------------------------------------------------------------------------------------

  lemma ExtendOutcome(v: View, vmaid: nat, size: nat, stale: seq<nat>)
    requires Usable(v) && vmaid <= 1 && v.mm.vmEnd + Areas.AlignUp(size) <= ADDRESS_LIMIT
    ensures IncVmaLimit(v, vmaid, size, stale).ok <==> Succeeds(v, vmaid, size)
  {
    hide AllocPages;
    var end := v.mm.sbrk + Areas.AlignUp(size);
    ExactSuccessBound(v.(mm := v.mm.(sbrk := end, vmEnd := end)), Areas.AlignUp(size) / PAGE_SIZE, [], stale);
  }

  /**
    An extension whose range is refused changes nothing. Otherwise the area's end moves, whether or not
    the pages could be mapped, and they are mapped exactly when frames could be had for all of them.
   */
  lemma ExtendEffect(m: Machine, p: nat, v: View, vmaid: nat, size: nat, stale: seq<nat>, r: Mapped)
    returns (m': Machine)
    requires Sound(m) && Allowed(m, Extend(p, vmaid, size, stale))
    requires v == Of(m, p) && Usable(v) && r == IncVmaLimit(v, vmaid, size, stale)
    ensures m' == Put(m, p, r.view) && Sound(m') && Keeps(m, m')
    ensures !RangeFree(v.mm, vmaid, Areas.AlignUp(size)) ==> m' == m
    ensures r.ok <==> Succeeds(v, vmaid, size)
    ensures |m'.mms| == |m.mms| && m'.mms[p].vmEnd ==
            if RangeFree(v.mm, vmaid, Areas.AlignUp(size)) then v.mm.vmEnd + Areas.AlignUp(size) else v.mm.vmEnd
    ensures forall q :: 0 <= q < |m.mms| && q != p ==> m'.mms[q].vmEnd == m.mms[q].vmEnd
    ensures forall q: nat, g: nat :: EntryAt(m', q, g) == Absent <==>
              EntryAt(m, q, g) == Absent && !(r.ok && Added(m, p, size, q, g))
  {
    hide AllocOne, AllocPages, Owned, Keeps;
    ExtendOutcome(v, vmaid, size, stale);
    var amount := Areas.AlignUp(size);
    if !RangeFree(v.mm, vmaid, amount) {
      m' := m;
      KeepsItself(m, []);
      PutOf(m, p, v, v);
    } else {
      var end := v.mm.sbrk + amount;
      var v1 := v.(mm := v.mm.(sbrk := end, vmEnd := end));
      var m1 := Put(m, p, v1);
      MoveEnd(m, p, end);
      PutOf(m, p, v1, r.view);
      assert Limits(m, p);
      forall g | r.ok && v.mm.vmEnd / PAGE_SIZE <= g < (v.mm.vmEnd + amount) / PAGE_SIZE
        ensures EntryAt(m1, p, g) == Absent
      {
        assert EntryAt(m1, p, g) == EntryAt(m, p, g) && Added(m, p, size, p, g);
      }
      m' := MapRamOwned(m1, p, v1, v.mm.vmEnd / PAGE_SIZE, amount / PAGE_SIZE, stale, r);
      KeepsTransitive(m, m1, m');
      forall q | 0 <= q < |m'.mms| ensures Limits(m', q) {
        assert Limits(m, q);
        assert m'.mms[q].vmEnd == m1.mms[q].vmEnd;
      }
    }
  }

  lemma MoveEnd(m: Machine, p: nat, end: nat)
    requires Owned(m, []) && p < |m.mms|
    ensures var v := Of(m, p); var m1 := Put(m, p, v.(mm := v.mm.(sbrk := end, vmEnd := end)));
            && Owned(m1, []) && Keeps(m, m1) && Usable(Of(m1, p))
            && forall q: nat, g: nat :: EntryAt(m1, q, g) == EntryAt(m, q, g)
  {
    var v := Of(m, p);
    var m1 := Put(m, p, v.(mm := v.mm.(sbrk := end, vmEnd := end)));
    assert forall q: nat, g: nat :: EntryAt(m1, q, g) == EntryAt(m, q, g);
    OwnedIsUsable(m1, [], p);
  }

  // ---------------------------------------------------------------------------------------------
  // Accesses
  // ---------------------------------------------------------------------------------------------

  ghost predicate SameShape(d: Device, d': Device) {
    |d'.frames| == |d.frames| && d'.free == d.free
  }

  /** Ownership is a matter of entries and lists, not of the bytes stored. */
  lemma BytesDoNotMatter(m: Machine, m': Machine)
    requires Owned(m, [])
    requires m'.mms == m.mms && m'.active == m.active && SameShape(m.ram, m'.ram) && |m'.swaps| == |m.swaps|
    requires forall i :: 0 <= i < |m.swaps| ==> SameShape(m.swaps[i], m'.swaps[i])
    ensures Owned(m', [])
  {
    forall p: nat, g: nat
      ensures EntryAt(m', p, g) == EntryAt(m, p, g) && Stored(m'.ram, m'.swaps, EntryAt(m', p, g))
    {
      assert Stored(m.ram, m.swaps, EntryAt(m, p, g));
    }
    forall i | 0 <= i < SWAPS ensures DeviceOk(m'.swaps[i]) && |m'.swaps[i].frames| <= SWPOFF_LIMIT {
      assert SameShape(m.swaps[i], m'.swaps[i]) && DeviceOk(m.swaps[i]);
    }
  }

  /** A fault moves one frame from the oldest page to the new one and keeps ownership. */
  lemma FaultOwned(m: Machine, p: nat, v: View, g: nat) returns (m': Machine)
    requires Owned(m, []) && p < |m.mms| && v == Of(m, p) && Usable(v) && CanFault(v, 0)
    requires g < MAX_PGN && EntryAt(m, p, g) == Absent
    ensures m' == Put(m, p, Fault(v, g, 0)) && Owned(m', [])
    ensures forall q: nat, h: nat :: EntryAt(m', q, h) == Absent <==> EntryAt(m, q, h) == Absent && !(q == p && h == g)
  {
    var victim := Last(v.mm.fifo);
    assert victim in v.mm.fifo;
    var f, off := v.mm.pgd[victim].fpn, v.swaps[v.active].free[0];
    assert DeviceOk(v.swaps[v.active]) && off in v.swaps[v.active].free;
    hide Owned, NoDup;
    var m1 := Evicted(m, p, victim, f, v.active, off);
    EvictOwned(m, [], p, victim, f, v.active, off);
    EvictKeeps(m, [], p, victim, f, v.active, off);
    var mm := m1.mms[p];
    var m2 := m1.(mms := m1.mms[p := mm.(pgd := mm.pgd[g := Resident(f)], fifo := [g] + mm.fifo)]);
    MapOneOwned(m1, p, g, [f]);
    m' := Put(m, p, Fault(v, g, 0));
    assert m'.mms == m2.mms;
    BytesDoNotMatter(m2, m');
    assert forall q: nat, h: nat :: EntryAt(m', q, h) == EntryAt(m2, q, h);
  }

  lemma GetPageSound(m: Machine, p: nat, v: View, g: nat, v': View) returns (m': Machine)
    requires Sound(m) && p < |m.mms| && v == Of(m, p) && Usable(v) && CanAccess(v, g)
    requires v' == GetPage(v, g)
    ensures m' == Put(m, p, v') && Sound(m')
    ensures SameLimits(m, m')
    ensures forall q: nat, h: nat :: EntryAt(m', q, h) == Absent <==> EntryAt(m, q, h) == Absent && !(q == p && h == g)
  {
    hide Owned;
    if v.mm.pgd[g] == Absent {
      m' := FaultOwned(m, p, v, g);
      forall q | 0 <= q < |m'.mms| ensures Limits(m', q) {
        assert Limits(m, q);
      }
    } else {
      PutOf(m, p, v, v);
      m' := m;
    }
  }

  lemma PokeSound(m: Machine, p: nat, v: View, addr: nat, b: Byte)
    requires Sound(m) && p < |m.mms| && v == Of(m, p)
    requires InRam(v, addr)
    ensures var m' := Put(m, p, Poke(v, addr, b)); Sound(m') && m'.mms == m.mms
  {
    var m' := Put(m, p, Poke(v, addr, b));
    assert m'.mms == m.mms;
    BytesDoNotMatter(m, m');
    forall q | 0 <= q < |m'.mms| ensures Limits(m', q) {
      assert Limits(m, q);
    }
  }

  /** The pages that an operation leaves mapped if they were not: an extension's, or the one page accessed. */
  predicate Maps(m: Machine, op: Op, q: nat, g: nat)
    requires op.p < |m.mms|
  {
    if op.Extend? then Succeeds(Of(m, op.p), op.vmaid, op.size) && Added(m, op.p, op.size, q, g)
    else q == op.p && g == op.addr / PAGE_SIZE
  }

  /** How far an operation moves the end of an area: even if the pages of the range cannot be mapped. */
  function Growth(m: Machine, op: Op, q: nat): nat
    requires op.p < |m.mms|
  {
    if op.Extend? && q == op.p && RangeFree(m.mms[q], op.vmaid, Areas.AlignUp(op.size))
    then Areas.AlignUp(op.size) else 0
  }

  /** Any allowed operation keeps ownership and limits; pages are mapped, never unmapped, and areas grow. */
  lemma DoEffect(m: Machine, op: Op)
    requires Sound(m) && Allowed(m, op)
    ensures Sound(Do(m, op)) && |Do(m, op).mms| == |m.mms|
    ensures forall q: nat, g: nat :: EntryAt(Do(m, op), q, g) == Absent <==>
              EntryAt(m, q, g) == Absent && !Maps(m, op, q, g)
    ensures forall q :: 0 <= q < |m.mms| ==> Do(m, op).mms[q].vmEnd == m.mms[q].vmEnd + Growth(m, op, q)
  {
    hide Owned, AllocOne, AllocPages;
    OwnedIsUsable(m, [], op.p);
    var v := Of(m, op.p);
    assert Limits(m, op.p);
    match op
    case Extend(p, vmaid, size, stale) =>
      var m' := ExtendEffect(m, p, v, vmaid, size, stale, IncVmaLimit(v, vmaid, size, stale));
    case Read(p, addr) =>
      var m' := GetPageSound(m, p, v, addr / PAGE_SIZE, GetPage(v, addr / PAGE_SIZE));
    case Write(p, addr, b) =>
      var v1 := GetPage(v, addr / PAGE_SIZE);
      var m1 := GetPageSound(m, p, v, addr / PAGE_SIZE, v1);
      PutOf(m, p, v1, Poke(v1, addr, b));
      PokeSound(m1, p, v1, addr, b);
      assert forall q: nat, g: nat :: EntryAt(Do(m, op), q, g) == EntryAt(m1, q, g);
  }

  lemma DoSound(m: Machine, op: Op)
    requires Sound(m) && Allowed(m, op)
    ensures Sound(Do(m, op))
  {
    DoEffect(m, op);
  }

  // ---------------------------------------------------------------------------------------------
  // Whole runs
  // ---------------------------------------------------------------------------------------------

  ghost predicate AllowedRun(m: Machine, ops: seq<Op>)
    requires Sound(m)
    decreases |ops|
  {
    ops == [] || (Allowed(m, ops[0]) && (DoSound(m, ops[0]); AllowedRun(Do(m, ops[0]), ops[1..])))
  }

  ghost function Run(m: Machine, ops: seq<Op>): Machine
    requires Sound(m) && AllowedRun(m, ops)
    decreases |ops|
  {
    if ops == [] then m else DoSound(m, ops[0]); Run(Do(m, ops[0]), ops[1..])
  }

  /** Formatted devices, and processes with empty page tables, lists and areas. */
  ghost predicate Booted(m: Machine) {
    && |m.swaps| == SWAPS && m.active < SWAPS
    && Formatted(m.ram) && |m.ram.frames| <= FPN_LIMIT
    && (forall i :: 0 <= i < SWAPS ==> Formatted(m.swaps[i]) && |m.swaps[i].frames| <= SWPOFF_LIMIT)
    && (forall p :: 0 <= p < |m.mms| ==> Fresh(m.mms[p]))
  }

  ghost predicate Fresh(mm: Mm) {
    |mm.pgd| == MAX_PGN && (forall g :: 0 <= g < MAX_PGN ==> mm.pgd[g] == Absent)
    && mm.fifo == [] && mm.vmEnd == 0 && mm.sbrk == 0
  }

  lemma BootedIsSound(m: Machine)
    requires Booted(m)
    ensures Sound(m)
  {}

  lemma {:induction false} RunSound(m: Machine, ops: seq<Op>)
    requires Sound(m) && AllowedRun(m, ops)
    ensures Sound(Run(m, ops))
    decreases |ops|
  {
    if ops == [] {
    } else {
      DoSound(m, ops[0]);
      RunSound(Do(m, ops[0]), ops[1..]);
    }
  }

  /** The steps of a run, one by one. */
  lemma {:induction false} RunPrefix(m: Machine, ops: seq<Op>, i: nat)
    requires Sound(m) && AllowedRun(m, ops) && i < |ops|
    ensures AllowedRun(m, ops[..i]) && Sound(Run(m, ops[..i])) && Allowed(Run(m, ops[..i]), ops[i])
    ensures AllowedRun(m, ops[..i + 1]) && Run(m, ops[..i + 1]) == Do(Run(m, ops[..i]), ops[i])
    decreases i
  {
    hide Sound, InBounds, Covers, Do;
    DoSound(m, ops[0]);
    var m1 := Do(m, ops[0]);
    assert ops[..i + 1][0] == ops[0] && ops[..i + 1][1..] == ops[1..][..i];
    if i == 0 {
      assert AllowedRun(m1, []) && Run(m1, []) == m1;
    } else {
      assert ops[..i][1..] == ops[1..][..i - 1];
      RunPrefix(m1, ops[1..], i - 1);
    }
  }

  /** `n` is what a run from start-up leads to. */
  ghost predicate Reaches(m: Machine, ops: seq<Op>, n: Machine) {
    Booted(m) && Sound(m) && AllowedRun(m, ops) && n == Run(m, ops)
  }

  lemma {:induction false} RunOneMore(m: Machine, ops: seq<Op>, op: Op)
    requires Sound(m) && AllowedRun(m, ops) && Sound(Run(m, ops)) && Allowed(Run(m, ops), op)
    ensures AllowedRun(m, ops + [op]) && Run(m, ops + [op]) == Do(Run(m, ops), op) && Sound(Do(Run(m, ops), op))
    decreases |ops|
  {
    hide Sound, InBounds, Covers, Do;
    DoSound(Run(m, ops), op);
    if ops == [] {
      assert [op][1..] == [] && [] + [op] == [op];
      assert AllowedRun(Do(m, op), []) && Run(Do(m, op), []) == Do(m, op);
    } else {
      DoSound(m, ops[0]);
      assert (ops + [op])[1..] == ops[1..] + [op];
      RunOneMore(Do(m, ops[0]), ops[1..], op);
    }
  }

  /** A run goes on. */
  lemma ReachesOn(m: Machine, ops: seq<Op>, n: Machine, op: Op)
    requires Reaches(m, ops, n) && Sound(n) && Allowed(n, op)
    ensures Reaches(m, ops + [op], Do(n, op)) && Sound(Do(n, op))
  {
    hide Booted, Sound, Allowed;
    RunOneMore(m, ops, op);
  }

  /**
    Frame ownership over every run: replacement lists hold each page once and only resident ones,
    resident pages of all processes have distinct frames none of which is free, and swapped pages have
    distinct slots none of which is free.
   */
  lemma FrameOwnership(m: Machine, ops: seq<Op>, n: Machine)
    requires Reaches(m, ops, n)
    ensures |n.swaps| == SWAPS
    ensures forall p :: 0 <= p < |n.mms| ==> NoDup(n.mms[p].fifo)
    ensures forall p: nat, g: nat :: p < |n.mms| && g in n.mms[p].fifo ==> EntryAt(n, p, g).Resident?
    ensures forall p: nat, g: nat, q: nat, h: nat ::
              (p != q || g != h) && EntryAt(n, p, g) != Absent ==> EntryAt(n, p, g) != EntryAt(n, q, h)
    ensures forall p: nat, g: nat :: EntryAt(n, p, g).Resident? ==> EntryAt(n, p, g).fpn !in n.ram.free
    ensures forall p: nat, g: nat :: EntryAt(n, p, g).Swapped? ==>
              var e := EntryAt(n, p, g); e.typ < SWAPS && e.off !in n.swaps[e.typ].free
  {
    RunSound(m, ops);
    assert forall p: nat, g: nat :: Stored(n.ram, n.swaps, EntryAt(n, p, g));
  }
}
