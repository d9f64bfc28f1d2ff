/**
  Frame ownership and logical contents: any number of processes share RAM and the swap devices, and
  no page's bytes are ever shared or lost when pages are evicted to make room.
 */
module PagingOwnership {

  import opened Bits
  import opened Paging
  import opened Seqs

  /** The whole memory system: the shared devices and every process's memory. */
  datatype Machine = Machine(ram: Device, used: seq<nat>, swaps: seq<Device>, active: nat, mms: seq<Mm>)

  function Of(m: Machine, p: nat): View
    requires p < |m.mms|
  {
    View(m.ram, m.used, m.swaps, m.active, m.mms[p])
  }

  function Put(m: Machine, p: nat, v: View): Machine
    requires p < |m.mms|
  {
    Machine(v.ram, v.used, v.swaps, v.active, m.mms[p := v.mm])
  }

  lemma PutOf(m: Machine, p: nat, v: View, v': View)
    requires p < |m.mms|
    ensures |Put(m, p, v).mms| == |m.mms|
    ensures Of(Put(m, p, v), p) == v && Put(Put(m, p, v), p, v') == Put(m, p, v') && Put(m, p, Of(m, p)) == m
  {}

  function EntryAt(m: Machine, p: nat, g: nat): Entry {
    if p < |m.mms| && g < |m.mms[p].pgd| then m.mms[p].pgd[g] else Absent
  }

  /** Where an entry says its page is, and whether that is a frame of some device not free. */
  ghost predicate Stored(ram: Device, swaps: seq<Device>, e: Entry) {
    match e
    case Absent => true
    case Resident(f) => f < |ram.frames| && f !in ram.free
    case Swapped(t, o) => t < |swaps| && o < |swaps[t].frames| && o !in swaps[t].free
  }

  /** The bytes an entry stands for: its frame when resident, its swap slot when swapped. */
  ghost function Bytes(ram: Device, swaps: seq<Device>, e: Entry): Page
    requires Stored(ram, swaps, e) && e != Absent
  {
    match e
    case Resident(f) => ram.frames[f]
    case Swapped(t, o) => swaps[t].frames[o]
  }

  ghost predicate ListsResident(m: Machine) {
    forall p, g :: 0 <= p < |m.mms| && g in m.mms[p].fifo ==> EntryAt(m, p, g).Resident?
  }

  /** No two pages, of one process or of two, are stored in the same place. */
  ghost predicate Injective(m: Machine) {
    forall p: nat, g: nat, q: nat, h: nat ::
      EntryAt(m, p, g) != Absent && EntryAt(m, p, g) == EntryAt(m, q, h) ==> p == q && g == h
  }

  /** `held` are frames obtained by an allocation under way and not yet mapped. */
  ghost predicate Owned(m: Machine, held: seq<nat>) {
    && |m.swaps| == SWAPS && m.active < SWAPS
    && |m.ram.frames| <= FPN_LIMIT
    && (forall i :: 0 <= i < SWAPS ==> |m.swaps[i].frames| <= SWPOFF_LIMIT)
    && DeviceOk(m.ram) && (forall i :: 0 <= i < SWAPS ==> DeviceOk(m.swaps[i]))
    && (forall p :: 0 <= p < |m.mms| ==> |m.mms[p].pgd| == MAX_PGN && NoDup(m.mms[p].fifo))
    && (forall p: nat, g: nat :: Stored(m.ram, m.swaps, EntryAt(m, p, g)))
    && ListsResident(m)
    && Injective(m)
    && NoDup(held)
    && (forall f :: f in held ==> f < |m.ram.frames| && f !in m.ram.free)
    && (forall p: nat, g: nat :: EntryAt(m, p, g).Resident? ==> EntryAt(m, p, g).fpn !in held)
  }

  lemma OwnedIsUsable(m: Machine, held: seq<nat>, p: nat)
    requires Owned(m, held) && p < |m.mms|
    ensures Usable(Of(m, p))
  {}

  /** The bytes of page `g` of process `p`. */
  ghost function PageOf(m: Machine, p: nat, g: nat): Page
    requires Stored(m.ram, m.swaps, EntryAt(m, p, g)) && EntryAt(m, p, g) != Absent
  {
    Bytes(m.ram, m.swaps, EntryAt(m, p, g))
  }

  /** Every page mapped in `m` is mapped in `m'` with the same bytes. */
  ghost predicate Keeps(m: Machine, m': Machine) {
    forall p: nat, g: nat :: EntryAt(m, p, g) != Absent ==>
      && EntryAt(m', p, g) != Absent
      && Stored(m.ram, m.swaps, EntryAt(m, p, g)) && Stored(m'.ram, m'.swaps, EntryAt(m', p, g))
      && PageOf(m', p, g) == PageOf(m, p, g)
  }

  // ---------------------------------------------------------------------------------------------
  // One frame
  // ---------------------------------------------------------------------------------------------

  /** Taking a frame off RAM's free list. */
  lemma TakeFree(m: Machine, held: seq<nat>, p: nat, stale: seq<nat>, frames: seq<nat>)
    requires Owned(m, held) && p < |m.mms| && m.ram.free != []
    requires Usable(Of(m, p))
    ensures var r := AllocOne(Of(m, p), frames, stale); var m' := Put(m, p, r.view);
            Owned(m', [r.frames[0]] + held) && Keeps(m, m')
  {
    var m' := Put(m, p, AllocOne(Of(m, p), frames, stale).view);
    TailNoDup(m.ram.free);
    assert m'.mms == m.mms;
    assert forall q: nat, g: nat :: EntryAt(m', q, g) == EntryAt(m, q, g);
    assert m.ram.free[0] in m.ram.free;
    assert forall q: nat, g: nat :: Stored(m.ram, m.swaps, EntryAt(m, q, g)) ==>
             Stored(m'.ram, m'.swaps, EntryAt(m', q, g));
  }

  /** The oldest page of the list and the swap frame it goes to. */
  ghost predicate Evicts(m: Machine, p: nat, g: nat, f: nat, j: nat, off: nat) {
    && p < |m.mms| && m.mms[p].fifo != [] && g == Last(m.mms[p].fifo)
    && EntryAt(m, p, g) == Resident(f)
    && j < |m.swaps| && m.swaps[j].free != [] && off == m.swaps[j].free[0]
    && f < |m.ram.frames| && off < |m.swaps[j].frames|
  }

  ghost function Evicted(m: Machine, p: nat, g: nat, f: nat, j: nat, off: nat): Machine
    requires Evicts(m, p, g, f, j, off)
  {
    var d, mm := m.swaps[j], m.mms[p];
    m.(swaps := m.swaps[j := Device(d.frames[off := m.ram.frames[f]], d.free[1..])],
       mms := m.mms[p := mm.(fifo := DropLast(mm.fifo), pgd := mm.pgd[g := Swapped(j, off)])])
  }

  /** The page given up keeps its bytes in a swap frame that nobody used; every other page is untouched. */
  lemma EvictKeeps(m: Machine, held: seq<nat>, p: nat, g: nat, f: nat, j: nat, off: nat)
    requires Owned(m, held) && Evicts(m, p, g, f, j, off)
    ensures var m' := Evicted(m, p, g, f, j, off);
            && Keeps(m, m')
            && (forall q: nat, h: nat :: Stored(m'.ram, m'.swaps, EntryAt(m', q, h)))
            && (forall q: nat, h: nat :: EntryAt(m', q, h) ==
                  if q == p && h == g then Swapped(j, off) else EntryAt(m, q, h))
            && (forall q: nat, h: nat :: EntryAt(m, q, h) != Swapped(j, off))
  {}

  lemma EvictOwned(m: Machine, held: seq<nat>, p: nat, g: nat, f: nat, j: nat, off: nat)
    requires Owned(m, held) && Evicts(m, p, g, f, j, off)
    ensures Owned(Evicted(m, p, g, f, j, off), [f] + held)
  {
    var m' := Evicted(m, p, g, f, j, off);
    EvictKeeps(m, held, p, g, f, j, off);
    TailNoDup(m.swaps[j].free);
    DropLastNoDup(m.mms[p].fifo);
    assert Stored(m.ram, m.swaps, EntryAt(m, p, g));
    forall q: nat, h: nat | EntryAt(m', q, h).Resident? ensures EntryAt(m', q, h).fpn !in [f] + held {
      assert EntryAt(m, q, h) == EntryAt(m', q, h);
    }
    assert forall i :: 0 <= i < SWAPS && i != j ==> m'.swaps[i] == m.swaps[i];
    assert DeviceOk(m.swaps[j]);
  }

  // ---------------------------------------------------------------------------------------------
  // Several frames
  // ---------------------------------------------------------------------------------------------

  lemma KeepsTransitive(a: Machine, b: Machine, c: Machine)
    requires Keeps(a, b) && Keeps(b, c)
    ensures Keeps(a, c)
  {}

  lemma KeepsItself(m: Machine, held: seq<nat>)
    requires Owned(m, held)
    ensures Keeps(m, m)
  {}

  lemma OwnedWithout(m: Machine, held: seq<nat>)
    requires Owned(m, held)
    ensures Owned(m, [])
  {}

  lemma AllocOneOwned(m: Machine, p: nat, v: View, frames: seq<nat>, stale: seq<nat>, held: seq<nat>, r: Alloc)
    returns (m': Machine, held': seq<nat>)
    requires p < |m.mms| && v == Of(m, p) && Usable(v) && r == AllocOne(v, frames, stale)
    requires held <= frames && Owned(m, held) && Linked(v, frames, |held|)
    ensures m' == Put(m, p, r.view) && Keeps(m, m') && Owned(m', held')
    ensures r.status == Success ==> |held'| == |held| + 1 && held' <= r.frames && held' == [r.frames[0]] + held
    ensures r.status != Success ==> held' == held
  {
    m' := Put(m, p, r.view);
    if m.ram.free != [] {
      TakeFree(m, held, p, stale, frames);
      assert m'.mms == m.mms;
      held' := [r.frames[0]] + held;
    } else if m.mms[p].fifo == [] {
      assert m' == m;
      held' := held;
    } else {
      held' := EvictOneOwned(m, p, v, frames, stale, held, r);
    }
  }

  lemma EvictOneOwned(m: Machine, p: nat, v: View, frames: seq<nat>, stale: seq<nat>, held: seq<nat>, r: Alloc)
    returns (held': seq<nat>)
    requires p < |m.mms| && v == Of(m, p) && Usable(v) && r == AllocOne(v, frames, stale)
    requires held <= frames && Owned(m, held)
    requires m.ram.free == [] && m.mms[p].fifo != []
    ensures var m' := Put(m, p, r.view); Keeps(m, m') && Owned(m', held')
    ensures r.status == Success ==> |held'| == |held| + 1 && held' <= r.frames && held' == [r.frames[0]] + held
    ensures r.status != Success ==> held' == held
  {
    var m' := Put(m, p, r.view);
    var g, j := Last(m.mms[p].fifo), SwapTarget(v);
    assert g in m.mms[p].fifo && EntryAt(m, p, g).Resident?;
    var f := EntryAt(m, p, g).fpn;
    if j == SWAPS {
      DropLastNoDup(m.mms[p].fifo);
      assert forall q: nat, h: nat :: EntryAt(m', q, h) == EntryAt(m, q, h);
      held' := held;
    } else {
      var off := m.swaps[j].free[0];
      assert DeviceOk(m.swaps[j]) && off in m.swaps[j].free;
      assert m' == Evicted(m, p, g, f, j, off);
      EvictOwned(m, held, p, g, f, j, off);
      EvictKeeps(m, held, p, g, f, j, off);
      held' := [f] + held;
    }
  }

  /** An allocation, whether it succeeds or not, keeps ownership and every mapped page's bytes. */
  lemma {:induction false} AllocOwned(
      m: Machine, p: nat, v: View, req: nat, frames: seq<nat>, stale: seq<nat>, held: seq<nat>, r: Alloc)
    returns (m': Machine, held': seq<nat>)
    requires p < |m.mms| && v == Of(m, p) && Usable(v) && r == AllocPages(v, req, frames, stale)
    requires held <= frames && Owned(m, held) && Linked(v, frames, |held|)
    ensures m' == Put(m, p, r.view) && Keeps(m, m') && Owned(m', held')
    ensures r.status == Success ==> |held'| == req + |held| && held' <= r.frames
    decreases req
  {
    hide AllocOne;
    if req == 0 {
      m', held' := m, held;
      PutOf(m, p, v, v);
    } else {
      var r1 := AllocOne(v, frames, stale);
      var m1, held1 := AllocOneOwned(m, p, v, frames, stale, held, r1);
      if r1.status == Success {
        AllocOneLinks(v, frames, stale, |held|);
        PutOf(m, p, r1.view, r.view);
        m', held' := AllocOwned(m1, p, r1.view, req - 1, r1.frames, stale, held1, r);
        KeepsTransitive(m, m1, m');
      } else {
        m', held' := m1, held1;
      }
    }
  }

  /** Mapping held frames to pages that are not on the list. */
  lemma {:induction false} MapOwned(m: Machine, p: nat, first: nat, frames: seq<nat>)
    requires Owned(m, frames) && p < |m.mms| && first + |frames| <= MAX_PGN
    requires forall g :: first <= g < first + |frames| ==> g !in m.mms[p].fifo
    ensures |m.mms[p].pgd| == MAX_PGN && Owned(m.(mms := m.mms[p := MapPages(m.mms[p], first, frames)]), [])
    decreases |frames|
  {
    assert |m.mms[p].pgd| == MAX_PGN;
    hide Owned;
    if frames == [] {
      assert m.mms[p := MapPages(m.mms[p], first, frames)] == m.mms;
    } else {
      var mm := m.mms[p];
      var m1 := m.(mms := m.mms[p := mm.(pgd := mm.pgd[first := Resident(frames[0])], fifo := [first] + mm.fifo)]);
      MapOneOwned(m, p, first, frames);
      MapOwned(m1, p, first + 1, frames[1..]);
      assert m1.mms[p := MapPages(m1.mms[p], first + 1, frames[1..])] == m.mms[p := MapPages(mm, first, frames)];
    }
  }

  /** What mapping does to entries; if the pages were not mapped before, every page keeps its bytes. */
  lemma MapKeeps(m: Machine, p: nat, first: nat, frames: seq<nat>)
    requires Owned(m, frames) && p < |m.mms| && |m.mms[p].pgd| == MAX_PGN && first + |frames| <= MAX_PGN
    ensures var m' := m.(mms := m.mms[p := MapPages(m.mms[p], first, frames)]);
            && (forall q: nat, h: nat :: EntryAt(m', q, h) ==
                  if q == p && first <= h < first + |frames| then Resident(frames[h - first]) else EntryAt(m, q, h))
            && m'.mms[p].vmEnd == m.mms[p].vmEnd && m'.mms[p].sbrk == m.mms[p].sbrk
            && ((forall g :: first <= g < first + |frames| ==> EntryAt(m, p, g) == Absent) ==>
                  Keeps(m, m') && forall g :: first <= g < first + |frames| ==> g !in m.mms[p].fifo)
  {
    var m' := m.(mms := m.mms[p := MapPages(m.mms[p], first, frames)]);
    MapEntries(m.mms[p], first, frames);
    assert forall q: nat, h: nat :: EntryAt(m', q, h) ==
             if q == p && first <= h < first + |frames| then Resident(frames[h - first]) else EntryAt(m, q, h);
    if forall g :: first <= g < first + |frames| ==> EntryAt(m, p, g) == Absent {
      forall q: nat, h: nat | EntryAt(m, q, h) != Absent
        ensures EntryAt(m', q, h) == EntryAt(m, q, h) && Stored(m.ram, m.swaps, EntryAt(m, q, h))
      {}
    }
  }

  lemma MapOneOwned(m: Machine, p: nat, g: nat, frames: seq<nat>)
    requires frames != [] && Owned(m, frames) && p < |m.mms| && g < MAX_PGN && g !in m.mms[p].fifo
    ensures var mm := m.mms[p];
            var m' := m.(mms := m.mms[p := mm.(pgd := mm.pgd[g := Resident(frames[0])], fifo := [g] + mm.fifo)]);
            && Owned(m', frames[1..])
            && (forall q: nat, h: nat :: EntryAt(m', q, h) ==
                  if q == p && h == g then Resident(frames[0]) else EntryAt(m, q, h))
  {
    var mm, f := m.mms[p], frames[0];
    var m' := m.(mms := m.mms[p := mm.(pgd := mm.pgd[g := Resident(f)], fifo := [g] + mm.fifo)]);
    assert forall q: nat, h: nat :: EntryAt(m', q, h) == if q == p && h == g then Resident(f) else EntryAt(m, q, h);
    TailNoDup(frames);
    assert f in frames;
    forall q: nat, h: nat ensures Stored(m'.ram, m'.swaps, EntryAt(m', q, h)) {
      assert Stored(m.ram, m.swaps, EntryAt(m, q, h));
    }
    assert forall q: nat, h: nat :: EntryAt(m, q, h) != Resident(f);
  }

  // ---------------------------------------------------------------------------------------------
  // Mapping a range
  // ---------------------------------------------------------------------------------------------

  ghost predicate SameLimits(m: Machine, m': Machine) {
    |m'.mms| == |m.mms| && forall q :: 0 <= q < |m.mms| ==>
      m'.mms[q].vmEnd == m.mms[q].vmEnd && m'.mms[q].sbrk == m.mms[q].sbrk
  }

  predicate InRange(p: nat, first: nat, n: nat, q: nat, h: nat) {
    q == p && first <= h < first + n
  }

  /**
    Mapping fresh pages keeps ownership and every page's bytes, on success and on both failures. Success
    maps exactly the pages of the range; a failure maps none.
   */
  lemma MapRamOwned(m: Machine, p: nat, v: View, first: nat, n: nat, stale: seq<nat>, r: Mapped) returns (m': Machine)
    requires p < |m.mms| && v == Of(m, p) && Usable(v) && Owned(m, []) && first + n <= MAX_PGN
    requires r == MapRam(v, first, n, stale)
    requires r.ok ==> forall g :: first <= g < first + n ==> EntryAt(m, p, g) == Absent
    ensures m' == Put(m, p, r.view) && Owned(m', []) && Keeps(m, m') && SameLimits(m, m')
    ensures r.ok <==> AllocPages(v, n, [], stale).status == Success
    ensures forall q: nat, h: nat :: EntryAt(m', q, h) == Absent <==>
              EntryAt(m, q, h) == Absent && !(r.ok && InRange(p, first, n, q, h))
  {
    hide AllocOne;
    var a := AllocPages(v, n, [], stale);
    var m1, held := AllocOwned(m, p, v, n, [], stale, [], a);
    AllocKeepsSize(v, n, [], stale);
    forall q: nat, h: nat ensures EntryAt(m1, q, h) == Absent <==> EntryAt(m, q, h) == Absent {
      if q == p && h < MAX_PGN { assert a.view.mm.pgd[h] == Absent <==> v.mm.pgd[h] == Absent; }
    }
    if a.status == Success {
      assert held == a.frames[..n];
      MapKeeps(m1, p, first, held);
      MapOwned(m1, p, first, held);
      m' := m1.(mms := m1.mms[p := MapPages(m1.mms[p], first, held)]);
      PutOf(m, p, a.view, r.view);
      assert m' == Put(m1, p, r.view);
      KeepsTransitive(m, m1, m');
    } else {
      OwnedWithout(m1, held);
      m' := m1;
    }
  }
}
