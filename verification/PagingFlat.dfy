/** Reads and writes of resident pages behave as one flat memory per process. */
module PagingFlat {

  import opened Bits
  import opened Paging
  import opened PagingOwnership
  import opened PagingRuns

  /** The byte of process `p` at a virtual address, wherever its page is stored. */
  ghost function Logical(m: Machine, p: nat, addr: nat): Byte
    requires Owned(m, []) && EntryAt(m, p, addr / PAGE_SIZE) != Absent
  {
    PageOf(m, p, addr / PAGE_SIZE)[addr % PAGE_SIZE]
  }

  ghost predicate OnPage(m: Machine, op: Op) {
    !op.Extend? && EntryAt(m, op.p, op.addr / PAGE_SIZE) != Absent
  }

  /**
    What a write does to every mapped byte of every process: it changes the byte at the same offset of
    the page resident in the frame that the written page's entry names, and no other.
   */
  lemma WriteEffect(m: Machine, op: Op, q: nat, a: nat)
    requires Sound(m) && Allowed(m, op) && op.Write? && OnPage(m, op)
    requires EntryAt(m, q, a / PAGE_SIZE) != Absent
    ensures var m' := Do(m, op); var f := FrameField(EntryAt(m, op.p, op.addr / PAGE_SIZE));
            && Sound(m') && EntryAt(m', q, a / PAGE_SIZE) == EntryAt(m, q, a / PAGE_SIZE)
            && Logical(m', q, a) ==
                 if EntryAt(m, q, a / PAGE_SIZE) == Resident(f) && a % PAGE_SIZE == op.addr % PAGE_SIZE
                                    then op.value else Logical(m, q, a)
  {
    OwnedIsUsable(m, [], op.p);
    DoSound(m, op);
    assert Do(m, op).mms == m.mms;
    assert Stored(m.ram, m.swaps, EntryAt(m, q, a / PAGE_SIZE));
  }

  lemma SameAddress(a: nat, b: nat)
    ensures a == b <==> a / PAGE_SIZE == b / PAGE_SIZE && a % PAGE_SIZE == b % PAGE_SIZE
  {}

  /** A write to a resident page changes that byte of that process and nothing else. */
  lemma ResidentWrite(m: Machine, op: Op, q: nat, a: nat)
    requires Sound(m) && Allowed(m, op) && op.Write? && EntryAt(m, op.p, op.addr / PAGE_SIZE).Resident?
    requires EntryAt(m, q, a / PAGE_SIZE) != Absent
    ensures Sound(Do(m, op)) && EntryAt(Do(m, op), q, a / PAGE_SIZE) == EntryAt(m, q, a / PAGE_SIZE)
    ensures Logical(Do(m, op), q, a) == if q == op.p && a == op.addr then op.value else Logical(m, q, a)
  {
    WriteEffect(m, op, q, a);
    SameAddress(a, op.addr);
  }

  /** The process then finds at that address the byte it wrote. */
  ghost predicate Lands(m: Machine, op: Op)
    requires Sound(m) && Allowed(m, op) && op.Write? && OnPage(m, op)
  {
    WriteEffect(m, op, op.p, op.addr);
    Logical(Do(m, op), op.p, op.addr) == op.value
  }

  /** Writes to a mapped page take effect exactly when the page is resident. */
  lemma WritesLandIffResident(m: Machine, p: nat, addr: nat)
    requires Sound(m) && Allowed(m, Write(p, addr, 0)) && EntryAt(m, p, addr / PAGE_SIZE) != Absent
    ensures (forall b: Byte :: Lands(m, Write(p, addr, b))) <==> EntryAt(m, p, addr / PAGE_SIZE).Resident?
  {
    hide Owned, Do, CanAccess;
    forall b: Byte
      ensures Lands(m, Write(p, addr, b)) <==> EntryAt(m, p, addr / PAGE_SIZE).Resident? || b == Logical(m, p, addr)
    {
      WriteEffect(m, Write(p, addr, b), p, addr);
    }
    var other: Byte := if Logical(m, p, addr) == 0 then 1 else 0;
    assert EntryAt(m, p, addr / PAGE_SIZE).Swapped? ==> !Lands(m, Write(p, addr, other));
  }

  /** A write to a swapped page lands in another page, of whatever process, resident in the aliased frame. */
  lemma SwappedWriteStrays(m: Machine, op: Op, q: nat, a: nat)
    requires Sound(m) && Allowed(m, op) && op.Write? && EntryAt(m, op.p, op.addr / PAGE_SIZE).Swapped?
    requires EntryAt(m, q, a / PAGE_SIZE) == Resident(FrameField(EntryAt(m, op.p, op.addr / PAGE_SIZE)))
    requires a % PAGE_SIZE == op.addr % PAGE_SIZE
    ensures (q, a) != (op.p, op.addr) && Sound(Do(m, op)) && EntryAt(Do(m, op), q, a / PAGE_SIZE) != Absent
    ensures Logical(Do(m, op), q, a) == op.value && Logical(Do(m, op), op.p, op.addr) == Logical(m, op.p, op.addr)
  {
    WriteEffect(m, op, q, a);
    WriteEffect(m, op, op.p, op.addr);
  }

  /** A read of a mapped page returns its byte exactly if it is resident, or its aliased frame has an equal byte. */
  lemma ReadsItselfIff(m: Machine, p: nat, addr: nat)
    requires Sound(m) && Allowed(m, Read(p, addr)) && EntryAt(m, p, addr / PAGE_SIZE) != Absent
    ensures Usable(Of(m, p)) && FrameField(EntryAt(m, p, addr / PAGE_SIZE)) < |m.ram.frames|
    ensures Peek(GetPage(Of(m, p), addr / PAGE_SIZE), addr) == Logical(m, p, addr) <==>
            var e := EntryAt(m, p, addr / PAGE_SIZE);
            e.Resident? || m.ram.frames[FrameField(e)][addr % PAGE_SIZE] == Logical(m, p, addr)
  {
    OwnedIsUsable(m, [], p);
    assert Stored(m.ram, m.swaps, EntryAt(m, p, addr / PAGE_SIZE));
  }

  // ---------------------------------------------------------------------------------------------
  // Refinement of flat memory
  // ---------------------------------------------------------------------------------------------

  /** The reference: each process's bytes as last written, no pages, no frames, no eviction. */
  type Flat = map<(nat, nat), Byte>

  function FlatRun(flat: Flat, ops: seq<Op>): Flat
    decreases |ops|
  {
    if ops == [] then flat
    else
      var op := ops[0];
      FlatRun(if op.Write? then flat[(op.p, op.addr) := op.value] else flat, ops[1..])
  }

  /** Every access of the run finds its page resident. */
  ghost predicate ResidentRun(m: Machine, ops: seq<Op>)
    requires Sound(m) && AllowedRun(m, ops)
    decreases |ops|
  {
    ops == [] ||
    (DoSound(m, ops[0]);
     (!ops[0].Extend? ==> EntryAt(m, ops[0].p, ops[0].addr / PAGE_SIZE).Resident?)
     && ResidentRun(Do(m, ops[0]), ops[1..]))
  }

  ghost predicate Agrees(m: Machine, flat: Flat) {
    Owned(m, []) && forall p: nat, a: nat :: (p, a) in flat ==>
      EntryAt(m, p, a / PAGE_SIZE) != Absent && Logical(m, p, a) == flat[(p, a)]
  }

  lemma DoAgrees(m: Machine, op: Op, flat: Flat)
    requires Sound(m) && Allowed(m, op) && Agrees(m, flat)
    requires !op.Extend? ==> EntryAt(m, op.p, op.addr / PAGE_SIZE).Resident?
    ensures Sound(Do(m, op)) && Agrees(Do(m, op), FlatRun(flat, [op]))
  {
    hide AllocOne, AllocPages;
    DoSound(m, op);
    OwnedIsUsable(m, [], op.p);
    var m' := Do(m, op);
    if op.Extend? {
      var v := Of(m, op.p);
      var m1 := ExtendEffect(m, op.p, v, op.vmaid, op.size, op.stale, IncVmaLimit(v, op.vmaid, op.size, op.stale));
      assert m1 == m';
    } else if op.Read? {
      PutOf(m, op.p, Of(m, op.p), Of(m, op.p));
      assert m' == m;
    } else {
      var flat' := flat[(op.p, op.addr) := op.value];
      forall p: nat, a: nat | (p, a) in flat'
        ensures EntryAt(m', p, a / PAGE_SIZE) != Absent && Logical(m', p, a) == flat'[(p, a)]
      {
        ResidentWrite(m, op, p, a);
      }
    }
  }

  lemma {:induction false} RunAgrees(m: Machine, ops: seq<Op>, flat: Flat)
    requires Sound(m) && AllowedRun(m, ops) && ResidentRun(m, ops) && Agrees(m, flat)
    ensures Agrees(Run(m, ops), FlatRun(flat, ops))
    decreases |ops|
  {
    if ops == [] {
    } else {
      DoAgrees(m, ops[0], flat);
      RunAgrees(Do(m, ops[0]), ops[1..], FlatRun(flat, [ops[0]]));
    }
  }

  /**
    After any run of extensions and accesses to resident pages, a read of a resident page returns the
    byte its process last wrote at that address, whatever was evicted and written meanwhile.
   */
  lemma ReadReturnsLastWrite(m: Machine, ops: seq<Op>, n: Machine, p: nat, addr: nat)
    requires Reaches(m, ops, n) && ResidentRun(m, ops)
    requires Allowed(n, Read(p, addr)) && EntryAt(n, p, addr / PAGE_SIZE).Resident?
    requires (p, addr) in FlatRun(map[], ops)
    ensures Usable(Of(n, p)) && Peek(GetPage(Of(n, p), addr / PAGE_SIZE), addr) == FlatRun(map[], ops)[(p, addr)]
  {
    RunAgrees(m, ops, map[]);
    OwnedIsUsable(n, [], p);
  }
}
