/** A run from start-up after which a write to one page of a process appears in another. */
module PagingStray {

  import opened Bits
  import opened Paging
  import opened PagingFifo
  import opened PagingFlat
  import opened PagingOwnership
  import opened PagingRuns
  import opened Seqs
  import Areas

  /** While RAM has enough free frames they are handed on in reverse order, and no page is evicted. */
  lemma {:induction false} AllocFree(v: View, req: nat, frames: seq<nat>, stale: seq<nat>)
    requires Usable(v) && req <= |v.ram.free|
    ensures var r := AllocPages(v, req, frames, stale);
            && r.status == Success && r.view.mm == v.mm && r.view.swaps == v.swaps && r.view.active == v.active
            && r.view.ram == v.ram.(free := v.ram.free[req..])
            && |r.frames| >= req && forall i :: 0 <= i < req ==> r.frames[i] == v.ram.free[req - 1 - i]
    decreases req
  {
    if req == 0 {
      assert v.ram.free[0..] == v.ram.free;
    } else {
      var r := AllocOne(v, frames, stale);
      assert r.status == Success;
      assert r.view == v.(ram := v.ram.(free := v.ram.free[1..]), used := [v.ram.free[0]] + v.used);
      assert r.frames == r.view.used;
      AllocOneLinks(v, frames, stale, 0);
      hide AllocOne, Usable;
      AllocFree(r.view, req - 1, r.frames, stale);
      AllocLinks(r.view, req - 1, r.frames, stale, 1);
      var out := AllocPages(v, req, frames, stale).frames;
      assert out[req - 1..req] == r.frames[..1];
      assert out[req - 1] == out[req - 1..req][0] == v.ram.free[0];
    }
  }

  /** A process with no pages yet. */
  ghost predicate Untouched(v: View) {
    Usable(v) && v.mm.sbrk == v.mm.vmEnd == 0 && v.mm.fifo == []
  }

  function First(v: View, n: nat): (r: Mapped)
    requires Usable(v) && v.mm.vmEnd == 0 && n <= |v.ram.free| && n <= MAX_PGN
  {
    IncVmaLimit(v, 0, n * PAGE_SIZE, [])
  }

  lemma FirstIsMapped(v: View, n: nat)
    requires Untouched(v) && n <= |v.ram.free| && n <= MAX_PGN
    ensures var v1 := v.(mm := v.mm.(sbrk := n * PAGE_SIZE, vmEnd := n * PAGE_SIZE));
            Usable(v1) && First(v, n) == MapRam(v1, 0, n, [])
  {
    hide AllocPages;
    assert Areas.AlignUp(n * PAGE_SIZE) == n * PAGE_SIZE && n * PAGE_SIZE / PAGE_SIZE == n;
    assert RangeFree(v.mm, 0, n * PAGE_SIZE);
  }

  /**
    A process's first extension, as long as RAM has frames for it, maps its pages to the first free frames
    in reverse order and enlists them in order, the first page being the oldest.
   */
  lemma FirstExtension(v: View, n: nat)
    requires Untouched(v) && n <= |v.ram.free| && n <= MAX_PGN
    ensures var r := First(v, n);
            && r.ok && r.view.mm.sbrk == r.view.mm.vmEnd == n * PAGE_SIZE && |r.view.mm.pgd| == MAX_PGN
            && r.view.ram == v.ram.(free := v.ram.free[n..]) && r.view.swaps == v.swaps && r.view.active == v.active
            && Reverse(r.view.mm.fifo) == Pages(0, n)
            && forall g :: 0 <= g < MAX_PGN ==>
                 r.view.mm.pgd[g] == if g < n then Resident(v.ram.free[n - 1 - g]) else v.mm.pgd[g]
  {
    FirstIsMapped(v, n);
    var v1 := v.(mm := v.mm.(sbrk := n * PAGE_SIZE, vmEnd := n * PAGE_SIZE));
    AllocFree(v1, n, [], []);
    AllocLinks(v1, n, [], [], 0);
    var r := AllocPages(v1, n, [], []);
    hide AllocOne, AllocPages, First, Usable;
    MapEntries(r.view.mm, 0, r.frames[..n]);
    MapEnlists(r.view.mm, 0, r.frames[..n]);
    assert Reverse(r.view.mm.fifo) == [];
  }

  /** With RAM full, one page more evicts page 0 and takes over its frame. */
  lemma EvictPageZero(v: View, n: nat)
    requires Usable(v) && v.mm.sbrk == v.mm.vmEnd == n * PAGE_SIZE && 2 <= n <= FPN_LIMIT && v.ram.free == []
    requires v.mm.fifo != [] && Last(v.mm.fifo) == 0
    requires v.active == 0 && v.swaps[0].free != [] && v.swaps[0].free[0] == 0
    ensures var r := IncVmaLimit(v, 0, PAGE_SIZE, []);
            && r.view.mm.vmEnd == (n + 1) * PAGE_SIZE && |r.view.ram.frames| == |v.ram.frames|
            && r.view.mm.pgd[0] == Swapped(0, 0) && r.view.mm.pgd[n - 1] == v.mm.pgd[n - 1]
  {
    assert Areas.AlignUp(PAGE_SIZE) == PAGE_SIZE;
    assert RangeFree(v.mm, 0, PAGE_SIZE) by { Areas.ExtensionAccepted(0, 1, n * PAGE_SIZE, PAGE_SIZE); }
    var v1 := v.(mm := v.mm.(sbrk := (n + 1) * PAGE_SIZE, vmEnd := (n + 1) * PAGE_SIZE));
    assert Usable(v1);
    var r := AllocOne(v1, [], []);
    assert r.status == Success && r.view.mm.pgd == v.mm.pgd[0 := Swapped(0, 0)];
    assert |r.view.ram.frames| == |v.ram.frames| && r.view.mm.vmEnd == (n + 1) * PAGE_SIZE;
    assert r.frames[..1] == [r.frames[0]];
    hide AllocOne, Usable;
    assert AllocPages(v1, 1, [], []) == r by { assert AllocPages(r.view, 0, r.frames, []) == r; }
    MapOne(r.view.mm, n, r.frames[0]);
  }

  lemma PageStart(k: nat)
    ensures k * PAGE_SIZE / PAGE_SIZE == k && k * PAGE_SIZE % PAGE_SIZE == 0
  {}

  /** Page 0 of process 0 is swapped to a place whose alias is frame 0, and page `k` is resident there. */
  ghost predicate Aliased(n: Machine, k: nat) {
    && Sound(n) && n.mms != [] && n.mms[0].vmEnd > 0 && |n.ram.frames| > 0
    && EntryAt(n, 0, 0) == Swapped(0, 0) && EntryAt(n, 0, k) == Resident(0)
  }

  lemma AliasedIsSound(n: Machine, k: nat)
    requires Aliased(n, k)
    ensures Sound(n)
  {}

  /** A byte `b` that process 0 writes to address 0 appears at address `a`, on another of its pages. */
  ghost predicate Strays(n: Machine, a: nat, b: Byte) {
    var w := Write(0, 0, b);
    && Sound(n) && Allowed(n, w) && EntryAt(n, 0, 0).Swapped? && EntryAt(n, 0, a / PAGE_SIZE).Resident?
    && Sound(Do(n, w)) && EntryAt(Do(n, w), 0, a / PAGE_SIZE) != Absent && Logical(Do(n, w), 0, a) == b
  }

  lemma AliasedWriteStrays(n: Machine, k: nat, b: Byte)
    requires Aliased(n, k)
    ensures Strays(n, k * PAGE_SIZE, b)
  {
    PageStart(k);
    assert FrameField(Swapped(0, 0)) == 0;
    SwappedWriteStrays(n, Write(0, 0, b), 0, k * PAGE_SIZE);
  }

  function Fill(m: Machine): Op { Extend(0, 0, |m.ram.frames| * PAGE_SIZE, []) }

  const ONE_MORE := Extend(0, 0, PAGE_SIZE, [])

  /** RAM is full with the pages of process 0, of which page 0 is the oldest and the last is in frame 0. */
  ghost predicate Full(n: Machine, size: nat) {
    && Sound(n) && n.mms != [] && 2 <= size == |n.ram.frames| && n.ram.free == [] && n.active == 0
    && n.mms[0].sbrk == n.mms[0].vmEnd == size * PAGE_SIZE && n.mms[0].fifo != [] && Last(n.mms[0].fifo) == 0
    && |n.swaps| == SWAPS && n.swaps[0].free != [] && n.swaps[0].free[0] == 0
    && EntryAt(n, 0, size - 1) == Resident(0) && EntryAt(n, 0, size) == Absent
  }

  lemma FullIsSound(n: Machine, size: nat)
    requires Full(n, size)
    ensures Sound(n)
  {}

  lemma OldestIsZero(fifo: seq<nat>, n: nat)
    requires Reverse(fifo) == Pages(0, n) && n > 0
    ensures fifo != [] && Last(fifo) == 0
  {
    assert |fifo| == |Pages(0, n)| > 0;
    ReverseLast(fifo);
    assert Pages(0, n)[0] == 0;
  }

  lemma FillLeadsToFull(m: Machine)
    requires Booted(m) && |m.ram.frames| >= 2 && m.active == 0 && m.swaps[0].frames != [] && m.mms != []
    ensures Sound(m) && Allowed(m, Fill(m)) && Full(Do(m, Fill(m)), |m.ram.frames|)
  {
    hide AllocOne, AllocPages, IncVmaLimit, Owned;
    BootedIsSound(m);
    assert Fresh(m.mms[0]) && Formatted(m.swaps[0]) && Formatted(m.ram);
    OwnedIsUsable(m, [], 0);
    FirstExtension(Of(m, 0), |m.ram.frames|);
    OldestIsZero(Do(m, Fill(m)).mms[0].fifo, |m.ram.frames|);
    assert Areas.AlignUp(|m.ram.frames| * PAGE_SIZE) == |m.ram.frames| * PAGE_SIZE;
    DoSound(m, Fill(m));
  }

  lemma OneMoreLeadsToAliased(n: Machine, size: nat)
    requires Full(n, size)
    ensures Allowed(n, ONE_MORE) && Aliased(Do(n, ONE_MORE), size - 1)
  {
    hide AllocOne, AllocPages, IncVmaLimit;
    OwnedIsUsable(n, [], 0);
    hide Owned;
    EvictPageZero(Of(n, 0), size);
    assert Areas.AlignUp(PAGE_SIZE) == PAGE_SIZE;
    DoSound(n, ONE_MORE);
  }

  /**
    Whatever the size of RAM, from two frames on: a process extends its area by all of RAM and then by
    one page. Page 0 is then swapped, and a byte written to address 0 appears in the last page of the
    first extension instead.
   */
  lemma StrayWriteIsReachable(m: Machine, b: Byte)
    requires Booted(m) && |m.ram.frames| >= 2 && m.active == 0 && m.swaps[0].frames != [] && m.mms != []
    ensures Sound(m) && AllowedRun(m, [Fill(m), ONE_MORE])
    ensures Strays(Run(m, [Fill(m), ONE_MORE]), (|m.ram.frames| - 1) * PAGE_SIZE, b)
  {
    hide Booted, Full, Aliased, Strays, Owned, Limits;
    FillLeadsToFull(m);
    var m1 := Do(m, Fill(m));
    FullIsSound(m1, |m.ram.frames|);
    OneMoreLeadsToAliased(m1, |m.ram.frames|);
    var n := Do(m1, ONE_MORE);
    AliasedIsSound(n, |m.ram.frames| - 1);
    hide Sound, Allowed, Do;
    assert [Fill(m), ONE_MORE][1..] == [ONE_MORE] && [ONE_MORE][1..] == [];
    assert AllowedRun(m1, [ONE_MORE]) && Run(m1, [ONE_MORE]) == n by { assert AllowedRun(n, []); }
    assert AllowedRun(m, [Fill(m), ONE_MORE]) && Run(m, [Fill(m), ONE_MORE]) == n;
    AliasedWriteStrays(n, |m.ram.frames| - 1, b);
  }
}
