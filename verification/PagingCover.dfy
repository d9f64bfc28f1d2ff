/**
  Extensions over pages that a fault has mapped: these, and no other operations, break the account of
  frames, and some of them ownership too.
 */
module PagingCover {

  import opened Bits
  import opened Paging
  import opened PagingBound
  import opened PagingConservation
  import opened PagingOwnership
  import opened PagingRuns
  import opened Seqs
  import Areas

  /** A successful extension of some process's area. */
  ghost predicate Extends(m: Machine, op: Op) {
    Sound(m) && InBounds(m, op) && op.Extend? && Succeeds(Of(m, op.p), op.vmaid, op.size)
  }

  function Start(m: Machine, op: Op): nat
    requires op.p < |m.mms|
  {
    m.mms[op.p].vmEnd / PAGE_SIZE
  }

  function Length(op: Op): nat
    requires op.Extend?
  {
    Areas.AlignUp(op.size) / PAGE_SIZE
  }

  /** The view in which the extension obtains its frames: the end has moved. */
  function Ended(m: Machine, op: Op): View
    requires op.Extend? && op.p < |m.mms|
  {
    var v := Of(m, op.p);
    v.(mm := v.mm.(sbrk := v.mm.sbrk + Areas.AlignUp(op.size), vmEnd := v.mm.sbrk + Areas.AlignUp(op.size)))
  }

  lemma EndedOwned(m: Machine, op: Op)
    requires Extends(m, op)
    ensures Usable(Ended(m, op)) && Owned(Put(m, op.p, Ended(m, op)), [])
    ensures Start(m, op) + Length(op) <= MAX_PGN && m.mms[op.p].sbrk == m.mms[op.p].vmEnd
    ensures forall lost :: Ledger(m, lost) ==> Ledger(Put(m, op.p, Ended(m, op)), lost)
  {
    OwnedIsUsable(m, [], op.p);
    assert Limits(m, op.p);
    hide Owned, Ledger;
    MoveEnd(m, op.p, Ended(m, op).mm.sbrk);
    forall lost | Ledger(m, lost) ensures Ledger(Put(m, op.p, Ended(m, op)), lost) {
      MoveEndLedger(m, op.p, Ended(m, op), lost);
    }
  }

  ghost function Obtains(m: Machine, op: Op): Alloc
    requires Extends(m, op)
  {
    EndedOwned(m, op);
    AllocPages(Ended(m, op), Length(op), [], op.stale)
  }

  lemma ObtainsAll(m: Machine, op: Op)
    requires Extends(m, op)
    ensures Obtains(m, op).status == Success && Usable(Of(m, op.p))
    ensures Do(m, op) == Put(m, op.p, MapRam(Ended(m, op), Start(m, op), Length(op), op.stale).view)
  {
    OwnedIsUsable(m, [], op.p);
    EndedOwned(m, op);
    hide Owned, AllocPages;
    ExtendOutcome(Of(m, op.p), op.vmaid, op.size, op.stale);
  }

  /** The two halves of a successful extension: it obtains frames, and maps its pages to them. */
  lemma Halves(m: Machine, op: Op, lost: seq<nat>) returns (a: Machine, held: seq<nat>)
    requires Extends(m, op)
    ensures a == Put(m, op.p, Obtains(m, op).view) && Owned(a, held) && |held| == Length(op)
    ensures op.p < |a.mms| && |a.mms[op.p].pgd| == MAX_PGN && Start(m, op) + Length(op) <= MAX_PGN
    ensures Do(m, op) == a.(mms := a.mms[op.p := MapPages(a.mms[op.p], Start(m, op), held)])
    ensures forall g: nat :: EntryAt(a, op.p, g) == Absent <==> EntryAt(m, op.p, g) == Absent
    ensures Ledger(m, lost) ==> Ledger(a, held + lost)
  {
    ObtainsAll(m, op);
    EndedOwned(m, op);
    var v1, p, r := Ended(m, op), op.p, Obtains(m, op);
    hide Extends, AllocOne, AllocPages, Owned, Usable, Ledger, Obtains, Do;
    a, held := AllocOwned(Put(m, p, v1), p, v1, Length(op), [], op.stale, [], r);
    if Ledger(m, lost) {
      assert [] + lost == lost;
      var a', held' := AllocLedger(Put(m, p, v1), p, v1, Length(op), [], op.stale, [], lost, r);
      assert held' == r.frames[..Length(op)] == held;
    }
    AllocKeepsSize(v1, Length(op), [], op.stale);
    PutOf(m, p, v1, r.view);
    assert held == r.frames[..Length(op)];
    forall g: nat ensures EntryAt(a, p, g) == Absent <==> EntryAt(m, p, g) == Absent {
      if g < MAX_PGN { assert r.view.mm.pgd[g] == Absent <==> v1.mm.pgd[g] == Absent; }
    }
  }

  // ---------------------------------------------------------------------------------------------
  // Ownership
  // ---------------------------------------------------------------------------------------------

  lemma OneRemains(v: View, frames: seq<nat>, stale: seq<nat>)
    requires Usable(v) && AllocOne(v, frames, stale).status == Success
    ensures var v', n := AllocOne(v, frames, stale).view, Short(1, |v.ram.free|);
            n <= |v.mm.fifo| && v'.mm.fifo == v.mm.fifo[..|v.mm.fifo| - n] && |v'.ram.free| == |v.ram.free| - 1 + n
  {}

  lemma {:induction false} AllocRemains(v: View, req: nat, frames: seq<nat>, stale: seq<nat>)
    requires Usable(v) && AllocPages(v, req, frames, stale).status == Success
    ensures var n := Short(req, |v.ram.free|);
            n <= |v.mm.fifo| && AllocPages(v, req, frames, stale).view.mm.fifo == v.mm.fifo[..|v.mm.fifo| - n]
    decreases req
  {
    if req == 0 {
      assert v.mm.fifo[..|v.mm.fifo|] == v.mm.fifo;
    } else {
      var r, n := AllocOne(v, frames, stale), Short(1, |v.ram.free|);
      assert r.status == Success && AllocPages(v, req, frames, stale) == AllocPages(r.view, req - 1, r.frames, stale);
      OneRemains(v, frames, stale);
      hide AllocOne, Usable;
      AllocRemains(r.view, req - 1, r.frames, stale);
      hide AllocPages;
      DropsAdd(v.mm.fifo, n, Short(req - 1, |r.view.ram.free|));
    }
  }

  lemma DropsAdd(s: seq<nat>, a: nat, b: nat)
    requires a + b <= |s|
    ensures s[..|s| - a][..|s| - a - b] == s[..|s| - (a + b)]
  {}

  /** A page of the extension is on the list, and not among the oldest, one of which goes for each frame RAM lacks. */
  ghost predicate Relists(m: Machine, op: Op) {
    && op.Extend? && op.p < |m.mms| && Succeeds(Of(m, op.p), op.vmaid, op.size)
    && var fifo, n := m.mms[op.p].fifo, Short(Length(op), |m.ram.free|);
       exists g :: Added(m, op.p, op.size, op.p, g) && g in fifo && (n <= |fifo| ==> g in fifo[..|fifo| - n])
  }

  lemma ListedTwice(s: seq<nat>, k: nat, g: nat)
    requires k <= |s| && g in s[..k] && g in s[k..]
    ensures !NoDup(s)
  {
    var i :| 0 <= i < k && s[..k][i] == g;
    var j :| 0 <= j < |s| - k && s[k..][j] == g;
    assert s[i] == s[k + j];
  }

  /** What the first half leaves of the list, and where the areas end. */
  lemma FirstHalf(m: Machine, op: Op, a: Machine)
    requires Extends(m, op) && a == Put(m, op.p, Obtains(m, op).view)
    ensures var fifo, n := m.mms[op.p].fifo, Short(Length(op), |m.ram.free|);
            n <= |fifo| && a.mms[op.p].fifo == fifo[..|fifo| - n]
    ensures forall q :: 0 <= q < |m.mms| ==> Limits(a, q)
  {
    EndedOwned(m, op);
    ObtainsAll(m, op);
    hide AllocOne, AllocPages, Owned;
    AllocRemains(Ended(m, op), Length(op), [], op.stale);
    AllocKeepsSize(Ended(m, op), Length(op), [], op.stale);
    hide Obtains, InBounds, Succeeds;
    forall q | 0 <= q < |m.mms| ensures Limits(a, q) {
      assert Limits(m, q);
    }
  }

  /** Mapping frames held keeps ownership exactly if none of the pages is on the list. */
  lemma SecondHalf(a: Machine, p: nat, first: nat, held: seq<nat>)
    requires Owned(a, held) && p < |a.mms| && |a.mms[p].pgd| == MAX_PGN && first + |held| <= MAX_PGN
    ensures Owned(a.(mms := a.mms[p := MapPages(a.mms[p], first, held)]), []) <==>
            forall g :: first <= g < first + |held| ==> g !in a.mms[p].fifo
  {
    var mm := MapPages(a.mms[p], first, held);
    if g :| first <= g < first + |held| && g in a.mms[p].fifo {
      MapLists(a.mms[p], first, held);
      ListedTwice(mm.fifo, |held|, g);
      assert a.(mms := a.mms[p := mm]).mms[p] == mm;
    } else {
      MapOwned(a, p, first, held);
    }
  }

  lemma MappingKeepsLimits(a: Machine, p: nat, first: nat, held: seq<nat>)
    requires p < |a.mms| && first + |held| <= |a.mms[p].pgd| && forall q :: 0 <= q < |a.mms| ==> Limits(a, q)
    ensures var m' := a.(mms := a.mms[p := MapPages(a.mms[p], first, held)]);
            forall q :: 0 <= q < |m'.mms| ==> Limits(m', q)
  {
    var m' := a.(mms := a.mms[p := MapPages(a.mms[p], first, held)]);
    MapEntries(a.mms[p], first, held);
    forall q | 0 <= q < |m'.mms| ensures Limits(m', q) {
      assert Limits(a, q);
    }
  }

  lemma RelistsRemaining(m: Machine, op: Op, fifo: seq<nat>)
    requires op.Extend? && op.p < |m.mms| && Succeeds(Of(m, op.p), op.vmaid, op.size)
    requires var all, n := m.mms[op.p].fifo, Short(Length(op), |m.ram.free|); n <= |all| && fifo == all[..|all| - n]
    ensures Relists(m, op) <==> exists g :: Start(m, op) <= g < Start(m, op) + Length(op) && g in fifo
  {
    assert forall g: nat :: Added(m, op.p, op.size, op.p, g) <==> Start(m, op) <= g < Start(m, op) + Length(op);
    assert forall g :: g in fifo ==> g in m.mms[op.p].fifo;
    if g :| Start(m, op) <= g < Start(m, op) + Length(op) && g in fifo {
      assert Added(m, op.p, op.size, op.p, g);
    }
  }

  lemma ExtensionKeepsOwnership(m: Machine, op: Op)
    requires Extends(m, op)
    ensures Sound(Do(m, op)) <==> !Relists(m, op)
  {
    var a, held := Halves(m, op, []);
    FirstHalf(m, op, a);
    RelistsRemaining(m, op, a.mms[op.p].fifo);
    assert |a.mms| == |m.mms|;
    hide Extends, Owned, Ledger, Obtains, Do, Limits, InBounds, Succeeds, MapPages, Put, EntryAt, Relists;
    SecondHalf(a, op.p, Start(m, op), held);
    MappingKeepsLimits(a, op.p, Start(m, op), held);
  }

  /** Ownership survives an operation in bounds exactly if it does not list a page twice. */
  lemma OwnershipKeptIff(m: Machine, op: Op)
    requires Sound(m) && InBounds(m, op)
    ensures Sound(Do(m, op)) <==> !Relists(m, op)
  {
    if op.Extend? && Succeeds(Of(m, op.p), op.vmaid, op.size) {
      ExtensionKeepsOwnership(m, op);
    } else {
      DoSound(m, op);
    }
  }

  // ---------------------------------------------------------------------------------------------
  // The account of frames
  // ---------------------------------------------------------------------------------------------

  /** The place of a page mapped over is then nobody's, and neither free nor lost before. */
  lemma CoveredIsLost(a: Machine, p: nat, first: nat, held: seq<nat>, lost: seq<nat>, g: nat)
    requires Owned(a, held) && p < |a.mms| && Ledger(a, held + lost) && first + |held| <= |a.mms[p].pgd|
    requires first <= g < first + |held| && EntryAt(a, p, g) != Absent
    ensures !Ledger(a.(mms := a.mms[p := MapPages(a.mms[p], first, held)]), lost)
  {
    var e, m' := EntryAt(a, p, g), a.(mms := a.mms[p := MapPages(a.mms[p], first, held)]);
    MapEntries(a.mms[p], first, held);
    assert Stored(a.ram, a.swaps, e) && InUse(a, e);
    forall q: nat, h: nat ensures EntryAt(m', q, h) != e {
      if q == p && first <= h < first + |held| {
        assert EntryAt(m', q, h) == Resident(held[h - first]) && held[h - first] in held;
      } else {
        assert EntryAt(m', q, h) == EntryAt(a, q, h);
      }
    }
    assert !InUse(m', e);
    if e.Resident? { assert e.fpn !in held + lost; }
  }

  lemma ExtensionKeepsFrames(m: Machine, op: Op, lost: seq<nat>)
    requires Extends(m, op) && Ledger(m, lost)
    ensures Ledger(Do(m, op), lost) <==> !Covers(m, op)
  {
    var a, held := Halves(m, op, lost);
    hide Extends, Owned, Ledger;
    if g: nat :| Added(m, op.p, op.size, op.p, g) && EntryAt(m, op.p, g) != Absent {
      CoveredIsLost(a, op.p, Start(m, op), held, lost, g);
      assert Covers(m, op);
    } else {
      forall g | Start(m, op) <= g < Start(m, op) + |held| ensures EntryAt(a, op.p, g) == Absent {
        assert Added(m, op.p, op.size, op.p, g) && EntryAt(m, op.p, g) == Absent;
      }
      MapLedger(a, op.p, Start(m, op), held, lost);
    }
  }

  /** The account of frames goes on after an operation: ownership holds, and it lost what failed extensions lose. */
  ghost predicate Accounts(m: Machine, op: Op, lost: seq<nat>, m': Machine) {
    && Sound(m) && InBounds(m, op) && Usable(Of(m, op.p)) && |m.swaps| == SWAPS && Sound(m')
    && exists more :: |more| == LostBy(m, op) && Ledger(m', more + lost)
  }

  /**
    Every operation in bounds keeps ownership and the account of frames, exactly if it is not a successful
    extension over a page mapped before.
   */
  lemma FramesKeptIff(m: Machine, op: Op, lost: seq<nat>)
    requires Sound(m) && InBounds(m, op) && Ledger(m, lost)
    ensures Accounts(m, op, lost, Do(m, op)) <==> !Covers(m, op)
  {
    OwnedIsUsable(m, [], op.p);
    if Covers(m, op) {
      ExtendOutcome(Of(m, op.p), op.vmaid, op.size, op.stale);
      ExtensionKeepsFrames(m, op, lost);
      assert LostBy(m, op) == 0 && [] + lost == lost;
      assert forall more: seq<nat> :: |more| == 0 ==> more + lost == lost;
    } else {
      DoSound(m, op);
      var more := DoLedger(m, op, lost);
    }
  }
}
