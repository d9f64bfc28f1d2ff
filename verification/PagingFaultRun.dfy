/** Runs from start-up with faults: one loses what was written, another makes the next extension break ownership. */
module PagingFaultRun {

  import opened Bits
  import opened Paging
  import opened PagingConservation
  import opened PagingCover
  import opened PagingFault
  import opened PagingFifo
  import opened PagingFlat
  import opened PagingOwnership
  import opened PagingRuns
  import opened PagingStray
  import opened Seqs
  import Areas

  const TWO_PAGES := Extend(0, 0, 2 * PAGE_SIZE, [])
  const THIRD_PAGE := Read(0, 2 * PAGE_SIZE)
  const FOURTH_PAGE := Read(0, 3 * PAGE_SIZE)

  /** RAM and the first swap device have at least two frames. */
  ghost predicate Roomy(m: Machine) {
    Booted(m) && |m.ram.frames| >= 2 && m.active == 0 && |m.swaps[0].frames| >= 2 && m.mms != []
  }

  /** Process 0 has two pages, with the bytes `a` and `z`, in frames 1 and 0. */
  ghost predicate Two(v: View, a: Page, z: Page) {
    && Usable(v) && v.active == 0 && v.mm.vmEnd == v.mm.sbrk == 2 * PAGE_SIZE && v.mm.fifo == [1, 0]
    && |v.ram.frames| >= 2 && v.ram.frames[0] == z && v.ram.frames[1] == a
    && |v.swaps[0].frames| >= 2 && v.swaps[0].free == Numbers(|v.swaps[0].frames|)
    && v.mm.pgd[0] == Resident(1) && v.mm.pgd[1] == Resident(0)
    && forall g :: 2 <= g < MAX_PGN ==> v.mm.pgd[g] == Absent
  }

  /** Page 2 has taken over the frame of page 0, which is in the first frame of the swap device. */
  ghost predicate Three(v: View, a: Page, z: Page) {
    && Usable(v) && v.active == 0 && v.mm.vmEnd == v.mm.sbrk == 2 * PAGE_SIZE && v.mm.fifo == [2, 1]
    && |v.ram.frames| >= 2 && v.ram.frames[0] == z
    && |v.swaps[0].frames| >= 2 && v.swaps[0].frames[0] == a && v.swaps[0].free != [] && v.swaps[0].free[0] == 1
    && v.mm.pgd[0] == Swapped(0, 0) && v.mm.pgd[1] == Resident(0) && v.mm.pgd[2] == Resident(1)
    && forall g :: 3 <= g < MAX_PGN ==> v.mm.pgd[g] == Absent
  }

  lemma TwoPages(v: View)
    requires Untouched(v) && v.active == 0 && |v.ram.frames| >= 2 && v.ram.free == Numbers(|v.ram.frames|)
    requires |v.swaps[0].frames| >= 2 && v.swaps[0].free == Numbers(|v.swaps[0].frames|)
    requires forall g :: 0 <= g < MAX_PGN ==> v.mm.pgd[g] == Absent
    ensures Usable(First(v, 2).view) ==> Two(First(v, 2).view, v.ram.frames[1], v.ram.frames[0])
  {
    FirstExtension(v, 2);
    var fifo := First(v, 2).view.mm.fifo;
    hide IncVmaLimit, Usable;
    assert Pages(0, 2) == [0] + Pages(1, 1) == [0, 1];
    assert |fifo| == 2;
    ReverseLast(fifo);
    ReverseLast(DropLast(fifo));
    assert Reverse(fifo) == [fifo[1], fifo[0]];
  }

  lemma ThirdPage(v: View, a: Page, z: Page)
    requires Two(v, a, z)
    ensures CanAccess(v, 2) && (Usable(GetPage(v, 2)) ==> Three(GetPage(v, 2), a, z))
  {}

  /** The second copy of this fault overwrites the bytes of page 0. */
  lemma FourthPage(v: View, a: Page, z: Page)
    requires Three(v, a, z)
    ensures CanAccess(v, 3) && GetPage(v, 3).mm.pgd[0] == Swapped(0, 0) && |GetPage(v, 3).swaps| == SWAPS
    ensures |GetPage(v, 3).swaps[0].frames| >= 2 && GetPage(v, 3).swaps[0].frames[0] == z
  {}

  // ---------------------------------------------------------------------------------------------
  // Runs
  // ---------------------------------------------------------------------------------------------

  lemma BootedView(m: Machine)
    requires Roomy(m)
    ensures Sound(m) && Untouched(Of(m, 0)) && m.ram.free == Numbers(|m.ram.frames|)
    ensures |m.swaps| == SWAPS && m.swaps[0].free == Numbers(|m.swaps[0].frames|)
    ensures forall g :: 0 <= g < MAX_PGN ==> m.mms[0].pgd[g] == Absent
  {
    BootedIsSound(m);
    OwnedIsUsable(m, [], 0);
    assert Fresh(m.mms[0]) && Formatted(m.swaps[0]);
  }

  lemma RunTwo(m: Machine) returns (n: Machine)
    requires Roomy(m)
    ensures Reaches(m, [TWO_PAGES], n) && Sound(n) && n.mms != [] && Two(Of(n, 0), m.ram.frames[1], m.ram.frames[0])
  {
    BootedView(m);
    n := Do(m, TWO_PAGES);
    assert Areas.AlignUp(2 * PAGE_SIZE) == 2 * PAGE_SIZE;
    DoSound(m, TWO_PAGES);
    assert |n.mms| == |m.mms| && Of(n, 0) == First(Of(m, 0), 2).view;
    OwnedIsUsable(n, [], 0);
    hide Owned, IncVmaLimit, Do, Usable, Two, Booted;
    assert Reaches(m, [], m);
    ReachesOn(m, [], m, TWO_PAGES);
    assert [] + [TWO_PAGES] == [TWO_PAGES];
    TwoPages(Of(m, 0));
  }

  lemma DoThird(n: Machine, a: Page, z: Page)
    requires Sound(n) && n.mms != [] && Two(Of(n, 0), a, z)
    ensures Allowed(n, THIRD_PAGE) && Sound(Do(n, THIRD_PAGE)) && Do(n, THIRD_PAGE).mms != []
    ensures Three(Of(Do(n, THIRD_PAGE), 0), a, z)
  {
    ThirdPage(Of(n, 0), a, z);
    hide Two, Three, GetPage;
    DoSound(n, THIRD_PAGE);
    hide Sound;
    assert Of(Do(n, THIRD_PAGE), 0) == GetPage(Of(n, 0), 2);
    assert Usable(Of(Do(n, THIRD_PAGE), 0)) by { OwnedIsUsable(Do(n, THIRD_PAGE), [], 0); }
  }

  /** From a state with two pages, an access to the third. */
  lemma RunThird(m: Machine, ops: seq<Op>, n: Machine, a: Page, z: Page) returns (n': Machine)
    requires Reaches(m, ops, n) && Sound(n) && n.mms != [] && Two(Of(n, 0), a, z)
    ensures Reaches(m, ops + [THIRD_PAGE], n') && Sound(n') && n'.mms != [] && Three(Of(n', 0), a, z)
  {
    hide Reaches, Two, Three, Sound, InBounds, Covers, Do;
    DoThird(n, a, z);
    ReachesOn(m, ops, n, THIRD_PAGE);
    n' := Do(n, THIRD_PAGE);
  }

  /**
    A byte written to page 0, and then two reads: the first faults page 0 out, and the second, of yet
    another page, overwrites it in the swap device. All accesses but the write are reads.
   */
  lemma ReadLosesAWrite(m: Machine, b: Byte) returns (n: Machine, victim: nat, f: nat, off: nat)
    requires Roomy(m) && b != m.ram.frames[0][0]
    ensures Reaches(m, [TWO_PAGES, Write(0, 0, b), THIRD_PAGE], n) && Sound(n) && Allowed(n, FOURTH_PAGE)
    ensures EntryAt(n, 0, 0) != Absent && Logical(n, 0, 0) == b
    ensures Sound(Do(n, FOURTH_PAGE)) && EntryAt(Do(n, FOURTH_PAGE), 0, 0) != Absent
    ensures Logical(Do(n, FOURTH_PAGE), 0, 0) != b
    ensures Exchanges(Of(n, 0), victim, f, off) && !Harmless(n, Of(n, 0), f, off)
  {
    var n1 := RunTwo(m);
    var a, z, w := m.ram.frames[1], m.ram.frames[0], Write(0, 0, b);
    var n2 := Do(n1, w);
    assert Allowed(n1, w);
    ReachesOn(m, [TWO_PAGES], n1, w);
    OwnedIsUsable(n2, [], 0);
    assert Two(Of(n2, 0), a[0 := b], z);
    assert [TWO_PAGES] + [w] == [TWO_PAGES, w] && [TWO_PAGES, w] + [THIRD_PAGE] == [TWO_PAGES, w, THIRD_PAGE];
    hide Two, Owned, Do;
    n := RunThird(m, [TWO_PAGES, w], n2, a[0 := b], z);
    FourthOverwrites(n, a[0 := b], z);
    victim, f, off := FourthIsHarmful(n, a[0 := b], z);
  }

  lemma FourthIsHarmful(n: Machine, a: Page, z: Page) returns (victim: nat, f: nat, off: nat)
    requires Sound(n) && n.mms != [] && Three(Of(n, 0), a, z) && a[0] != z[0]
    ensures Exchanges(Of(n, 0), victim, f, off) && !Harmless(n, Of(n, 0), f, off)
  {
    FourthOverwrites(n, a, z);
    assert Do(n, FOURTH_PAGE) == Put(n, 0, Fault(Of(n, 0), 3, 0));
    victim, f, off := FaultExchanges(Of(n, 0));
    hide Do, Fault, Usable;
    FaultKeepsIffHarmless(n, 0, Of(n, 0), 3, victim, f, off);
  }

  lemma FourthOverwrites(n: Machine, a: Page, z: Page)
    requires Sound(n) && n.mms != [] && Three(Of(n, 0), a, z) && a[0] != z[0]
    ensures Allowed(n, FOURTH_PAGE) && Sound(Do(n, FOURTH_PAGE))
    ensures EntryAt(n, 0, 0) != Absent && EntryAt(Do(n, FOURTH_PAGE), 0, 0) != Absent
    ensures Logical(n, 0, 0) == a[0] && Logical(Do(n, FOURTH_PAGE), 0, 0) == z[0]
    ensures !Keeps(n, Do(n, FOURTH_PAGE))
  {
    FourthPage(Of(n, 0), a, z);
    DoSound(n, FOURTH_PAGE);
    var n' := Do(n, FOURTH_PAGE);
    assert Of(n', 0) == GetPage(Of(n, 0), 3);
    assert EntryAt(n, 0, 0) == Swapped(0, 0) && EntryAt(n', 0, 0) == Swapped(0, 0);
    assert PageOf(n, 0, 0) == a && PageOf(n', 0, 0) == z;
  }

  /** With three pages of which the last lies beyond the area's end, the next extension runs into it. */
  lemma OneMoreCovers(n: Machine, a: Page, z: Page)
    requires Sound(n) && n.mms != [] && Three(Of(n, 0), a, z)
    ensures InBounds(n, ONE_MORE) && Covers(n, ONE_MORE) && Relists(n, ONE_MORE)
  {
    assert Areas.AlignUp(PAGE_SIZE) == PAGE_SIZE;
    var v := Of(n, 0);
    assert RangeFree(v.mm, 0, PAGE_SIZE) by { Areas.ExtensionAccepted(0, 1, 2 * PAGE_SIZE, PAGE_SIZE); }
    assert Succeeds(v, 0, PAGE_SIZE);
    hide Owned;
    assert Added(n, 0, PAGE_SIZE, 0, 2) && EntryAt(n, 0, 2) != Absent;
    assert n.mms[0].fifo[0] == 2;
  }

  /** An extension that follows covers the page mapped beyond the area's end, and lists it a second time. */
  lemma CoverIsReachable(m: Machine) returns (n: Machine, lost: seq<nat>)
    requires Roomy(m)
    ensures Reaches(m, [TWO_PAGES, THIRD_PAGE], n) && Sound(n) && InBounds(n, ONE_MORE)
    ensures Covers(n, ONE_MORE) && !Sound(Do(n, ONE_MORE))
    ensures Ledger(n, lost) && !Ledger(Do(n, ONE_MORE), lost)
  {
    var n1 := RunTwo(m);
    assert [TWO_PAGES] + [THIRD_PAGE] == [TWO_PAGES, THIRD_PAGE];
    hide Roomy, Reaches, Three, Two, Owned, Do, Ledger;
    n := RunThird(m, [TWO_PAGES], n1, m.ram.frames[1], m.ram.frames[0]);
    OneMoreCovers(n, m.ram.frames[1], m.ram.frames[0]);
    OwnershipKeptIff(n, ONE_MORE);
    lost := FramesAreAccountedFor(m, [TWO_PAGES, THIRD_PAGE], n);
    hide Sound;
    ExtensionKeepsFrames(n, ONE_MORE, lost);
  }
}
