/** Which frames an allocation obtains, and where in the swap devices the pages that give up theirs go. */
module PagingChoice {

  import opened Bits
  import opened Paging
  import opened PagingBound
  import opened Seqs

  // ---------------------------------------------------------------------------------------------
  // One frame
  // ---------------------------------------------------------------------------------------------

  /**
    An evicted page goes to the first free frame of the active device while that has one, and else to the first
    free frame of a device before which every other in the table is full. Its bytes go with it.
   */
  lemma EvictedGoesTo(v: View, frames: seq<nat>, stale: seq<nat>) returns (j: nat, off: nat)
    requires Usable(v) && v.ram.free == [] && v.mm.fifo != [] && AllocOne(v, frames, stale).status == Success
    ensures j < SWAPS && v.swaps[j].free != [] && off == v.swaps[j].free[0]
    ensures v.swaps[v.active].free != [] ==> j == v.active
    ensures v.swaps[v.active].free == [] ==> forall k :: 0 <= k < j ==> v.swaps[k].free == []
    ensures var v', g := AllocOne(v, frames, stale).view, v.mm.fifo[|v.mm.fifo| - 1];
            && g < MAX_PGN && v.mm.pgd[g].Resident? && v.mm.pgd[g].fpn < |v.ram.frames|
            && off < |v.swaps[j].frames| && v'.ram == v.ram && v'.used == v.used && v'.active == v.active
            && v'.mm == v.mm.(pgd := v.mm.pgd[g := Swapped(j, off)], fifo := v.mm.fifo[..|v.mm.fifo| - 1])
            && v'.swaps == v.swaps[j := Device(v.swaps[j].frames[off := v.ram.frames[v.mm.pgd[g].fpn]],
                                               v.swaps[j].free[1..])]
  {
    j := SwapTarget(v);
    off := v.swaps[j].free[0];
    assert Last(v.mm.fifo) in v.mm.fifo && off in v.swaps[j].free && DeviceOk(v.swaps[j]);
  }

  /** A free frame is taken first, and nothing else changes but the list of used ones. */
  lemma FreeGoesFirst(v: View, frames: seq<nat>, stale: seq<nat>)
    requires Usable(v) && v.ram.free != []
    ensures var r, f := AllocOne(v, frames, stale), v.ram.free[0];
            && r.status == Success && r.frames == [f] + v.used
            && r.view == v.(ram := v.ram.(free := v.ram.free[1..]), used := [f] + v.used)
  {}

  /** Without a page to evict nothing changes; without room for it the page leaves the list all the same. */
  lemma NothingToTake(v: View, frames: seq<nat>, stale: seq<nat>)
    requires Usable(v) && v.ram.free == [] && AllocOne(v, frames, stale).status != Success
    ensures var r := AllocOne(v, frames, stale);
            if v.mm.fifo == [] then r == Alloc(v, frames, NoVictim)
            else
              && |v.mm.pgd| == MAX_PGN && v.mm.fifo[|v.mm.fifo| - 1] < MAX_PGN
              && v.mm.pgd[v.mm.fifo[|v.mm.fifo| - 1]].Resident?
              && r.view == v.(mm := v.mm.(fifo := v.mm.fifo[..|v.mm.fifo| - 1])) && r.status == OutOfMemory
              && r.frames == [v.mm.pgd[v.mm.fifo[|v.mm.fifo| - 1]].fpn] + (if frames == [] then stale else frames)
              && forall k :: 0 <= k < |v.swaps| ==> v.swaps[k].free == []
  {
    if v.mm.fifo != [] { assert Last(v.mm.fifo) in v.mm.fifo; }
  }

  // ---------------------------------------------------------------------------------------------
  // Several frames
  // ---------------------------------------------------------------------------------------------

  /** The free frames of device `t`, in order, as the places they are. */
  function On(swaps: seq<Device>, t: nat): (s: seq<Entry>)
    requires t < |swaps|
    ensures |s| == |swaps[t].free| && forall i :: 0 <= i < |s| ==> s[i] == Swapped(t, swaps[t].free[i])
  {
    seq(|swaps[t].free|, i requires 0 <= i < |swaps[t].free| => Swapped(t, swaps[t].free[i]))
  }

  function Others(swaps: seq<Device>, active: nat, t: nat): seq<Entry>
    requires |swaps| == SWAPS && t <= SWAPS
    decreases SWAPS - t
  {
    if t == SWAPS then [] else (if t == active then [] else On(swaps, t)) + Others(swaps, active, t + 1)
  }

  /** All places that evicted pages can go to, in the order in which they are used: the active device comes first. */
  function Room(v: View): seq<Entry>
    requires |v.swaps| == SWAPS && v.active < SWAPS
  {
    On(v.swaps, v.active) + Others(v.swaps, v.active, 0)
  }

  function Oldest(fifo: seq<nat>, i: nat): nat
    requires i < |fifo|
  {
    fifo[|fifo| - 1 - i]
  }

  /** The frames of RAM in the order in which allocations obtain them: free ones, then those of the oldest pages. */
  function Sources(v: View): (s: seq<nat>)
    requires Usable(v)
    ensures |s| == |v.ram.free| + |v.mm.fifo|
  {
    v.ram.free + seq(|v.mm.fifo|, i requires 0 <= i < |v.mm.fifo| =>
      assert Oldest(v.mm.fifo, i) in v.mm.fifo; v.mm.pgd[Oldest(v.mm.fifo, i)].fpn)
  }

  lemma OnUsed(swaps: seq<Device>, swaps': seq<Device>, j: nat)
    requires j < |swaps| && j < |swaps'| && swaps[j].free != [] && swaps'[j].free == swaps[j].free[1..]
    ensures On(swaps, j) == [Swapped(j, swaps[j].free[0])] + On(swaps', j)
  {}

  lemma OnNone(swaps: seq<Device>, t: nat)
    requires t < |swaps| && swaps[t].free == []
    ensures On(swaps, t) == []
  {}

  /** Using the first place of one device, if all before it are full, uses the first place of all. */
  lemma {:induction false} OthersUsed(swaps: seq<Device>, swaps': seq<Device>, active: nat, j: nat, t: nat)
    requires |swaps| == |swaps'| == SWAPS && t <= j < SWAPS && j != active && swaps[j].free != []
    requires forall k :: t <= k < j ==> swaps[k].free == []
    requires swaps'[j].free == swaps[j].free[1..] && forall k :: 0 <= k < SWAPS && k != j ==> swaps'[k] == swaps[k]
    ensures Others(swaps, active, t) == [Swapped(j, swaps[j].free[0])] + Others(swaps', active, t)
    decreases j - t
  {
    hide On;
    if t == j {
      OnUsed(swaps, swaps', j);
      OthersSame(swaps, swaps', active, j + 1);
      Regroup([Swapped(j, swaps[j].free[0])], On(swaps', j), Others(swaps', active, j + 1));
    } else {
      OnNone(swaps, t);
      OnNone(swaps', t);
      OthersUsed(swaps, swaps', active, j, t + 1);
      Empty(Others(swaps, active, t + 1));
      Empty(Others(swaps', active, t + 1));
    }
  }

  lemma Regroup<T>(a: seq<T>, b: seq<T>, c: seq<T>)
    ensures (a + b) + c == a + (b + c)
  {}

  lemma Empty<T>(s: seq<T>)
    ensures [] + s == s
  {}

  lemma {:induction false} OthersSame(swaps: seq<Device>, swaps': seq<Device>, active: nat, t: nat)
    requires |swaps| == |swaps'| == SWAPS && t <= SWAPS
    requires forall k :: t <= k < SWAPS && k != active ==> swaps'[k] == swaps[k]
    ensures Others(swaps', active, t) == Others(swaps, active, t)
    decreases SWAPS - t
  {
    if t == SWAPS {
    } else {
      OthersSame(swaps, swaps', active, t + 1);
    }
  }

  /** Taking the first free frame of the device chosen uses the first place of all. */
  lemma RoomUsed(v: View, v': View, j: nat)
    requires |v.swaps| == |v'.swaps| == SWAPS && v'.active == v.active < SWAPS && j < SWAPS && v.swaps[j].free != []
    requires v.swaps[v.active].free != [] ==> j == v.active
    requires v.swaps[v.active].free == [] ==> forall k :: 0 <= k < j ==> v.swaps[k].free == []
    requires v'.swaps[j].free == v.swaps[j].free[1..]
    requires forall k :: 0 <= k < SWAPS && k != j ==> v'.swaps[k] == v.swaps[k]
    ensures Room(v) == [Swapped(j, v.swaps[j].free[0])] + Room(v')
  {
    hide On, Others;
    if j == v.active {
      OnUsed(v.swaps, v'.swaps, j);
      OthersSame(v.swaps, v'.swaps, j, 0);
      Regroup([Swapped(j, v.swaps[j].free[0])], On(v'.swaps, j), Others(v'.swaps, j, 0));
    } else {
      OnNone(v.swaps, v.active);
      OnNone(v'.swaps, v.active);
      OthersUsed(v.swaps, v'.swaps, v.active, j, 0);
      Empty(Others(v.swaps, v.active, 0));
      Empty(Others(v'.swaps, v.active, 0));
    }
  }

  lemma EvictedUsesRoom(v: View, frames: seq<nat>, stale: seq<nat>)
    requires Usable(v) && v.ram.free == [] && v.mm.fifo != [] && AllocOne(v, frames, stale).status == Success
    ensures var v' := AllocOne(v, frames, stale).view;
            && |v'.swaps| == SWAPS && v'.active == v.active
            && Room(v) == [v'.mm.pgd[v.mm.fifo[|v.mm.fifo| - 1]]] + Room(v')
  {
    var v' := AllocOne(v, frames, stale).view;
    var j, off := EvictedGoesTo(v, frames, stale);
    assert |v.swaps| == |v'.swaps| == SWAPS && v'.active == v.active < SWAPS;
    hide AllocOne, Usable, Room;
    RoomUsed(v, v', j);
  }

  lemma OneSource(v: View, frames: seq<nat>, stale: seq<nat>)
    requires Usable(v) && AllocOne(v, frames, stale).status == Success
    ensures var r := AllocOne(v, frames, stale);
            r.frames != [] && Sources(v) == [r.frames[0]] + Sources(r.view)
  {
    var r := AllocOne(v, frames, stale);
    assert Sources(v)[0] == r.frames[0] && |Sources(r.view)| == |Sources(v)| - 1;
    forall i | 0 <= i < |Sources(r.view)| ensures Sources(r.view)[i] == Sources(v)[i + 1] {
      if v.ram.free == [] {
        var fifo := v.mm.fifo;
        assert fifo[|fifo| - 2 - i] in fifo && fifo[|fifo| - 2 - i] != fifo[|fifo| - 1];
      }
    }
  }

  /** A successful allocation obtains the first `req` frames in that order; the newest heads the list handed on. */
  lemma {:induction false} AllocFrames(v: View, req: nat, frames: seq<nat>, stale: seq<nat>)
    requires Usable(v) && AllocPages(v, req, frames, stale).status == Success
    ensures var out := AllocPages(v, req, frames, stale).frames;
            req <= |out| && req <= |Sources(v)| && forall i :: 0 <= i < req ==> out[req - 1 - i] == Sources(v)[i]
    decreases req
  {
    hide AllocOne, Usable, Sources;
    if req == 0 {
    } else {
      var r := AllocOne(v, frames, stale);
      var out := AllocPages(r.view, req - 1, r.frames, stale).frames;
      OneSource(v, frames, stale);
      AllocOneLinks(v, frames, stale, 0);
      AllocLinks(r.view, req - 1, r.frames, stale, 1);
      assert out[req - 1..req][0] == r.frames[..1][0];
      AllocFrames(r.view, req - 1, r.frames, stale);
      forall i | 0 <= i < req ensures out[req - 1 - i] == Sources(v)[i] {
        if i > 0 { assert out[req - 2 - (i - 1)] == Sources(r.view)[i - 1]; }
      }
    }
  }

  /** The `n` oldest pages of a list are in the first places, in order, and no other page has moved. */
  ghost predicate Placed(fifo: seq<nat>, n: nat, room: seq<Entry>, before: seq<Entry>, after: seq<Entry>) {
    && n <= |fifo| && n <= |room| && |before| == |after|
    && (forall i :: 0 <= i < n ==> Oldest(fifo, i) < |after| && after[Oldest(fifo, i)] == room[i])
    && (forall g :: 0 <= g < |after| && g !in fifo[|fifo| - n..] ==> after[g] == before[g])
  }

  lemma PlacedOneMore(
      fifo: seq<nat>, n: nat, room: seq<Entry>, before: seq<Entry>, mid: seq<Entry>, after: seq<Entry>, g: nat)
    requires NoDup(fifo) && 0 < n && fifo != [] && g == fifo[|fifo| - 1] < |before| && room != []
    requires mid == before[g := room[0]] && Placed(fifo[..|fifo| - 1], n - 1, room[1..], mid, after)
    ensures Placed(fifo, n, room, before, after)
  {
    var rest := fifo[..|fifo| - 1];
    assert g !in rest && fifo[|fifo| - n..] == rest[|rest| - (n - 1)..] + [g];
    forall i | 0 <= i < n ensures Oldest(fifo, i) < |after| && after[Oldest(fifo, i)] == room[i] {
      if i > 0 { assert Oldest(fifo, i) == Oldest(rest, i - 1) && room[i] == room[1..][i - 1]; }
    }
  }

  lemma FreePlaced(v: View, frames: seq<nat>, stale: seq<nat>, req: nat, after: seq<Entry>)
    requires Usable(v) && v.ram.free != [] && req > 0
    requires var v' := AllocOne(v, frames, stale).view;
             && |v'.swaps| == SWAPS && v'.active < SWAPS
             && Placed(v'.mm.fifo, Short(req - 1, |v'.ram.free|), Room(v'), v'.mm.pgd, after)
    ensures Placed(v.mm.fifo, Short(req, |v.ram.free|), Room(v), v.mm.pgd, after)
  {
    hide Placed;
  }

  lemma EvictedFacts(v: View, frames: seq<nat>, stale: seq<nat>, g: nat)
    requires Usable(v) && v.ram.free == [] && AllocOne(v, frames, stale).status == Success
    requires v.mm.fifo != [] ==> g == v.mm.fifo[|v.mm.fifo| - 1]
    ensures var v' := AllocOne(v, frames, stale).view;
            && v.mm.fifo != [] && g < |v.mm.pgd| && NoDup(v.mm.fifo) && v'.ram.free == []
            && |v.swaps| == SWAPS && v.active < SWAPS && |v'.swaps| == SWAPS && v'.active == v.active
            && Room(v) != [] && Room(v') == Room(v)[1..]
            && v'.mm.fifo == v.mm.fifo[..|v.mm.fifo| - 1] && v'.mm.pgd == v.mm.pgd[g := Room(v)[0]]
  {
    EvictedUsesRoom(v, frames, stale);
    var j, off := EvictedGoesTo(v, frames, stale);
    hide AllocOne, Room;
  }

  lemma EvictedPlaced(v: View, frames: seq<nat>, stale: seq<nat>, req: nat, after: seq<Entry>)
    requires Usable(v) && v.ram.free == [] && AllocOne(v, frames, stale).status == Success && req > 0
    requires var v' := AllocOne(v, frames, stale).view;
             && |v'.swaps| == SWAPS && v'.active < SWAPS
             && Placed(v'.mm.fifo, Short(req - 1, |v'.ram.free|), Room(v'), v'.mm.pgd, after)
    ensures |v.swaps| == SWAPS && v.active < SWAPS
    ensures Placed(v.mm.fifo, Short(req, |v.ram.free|), Room(v), v.mm.pgd, after)
  {
    hide AllocOne, Usable, Room, Placed, NoDup;
    var g := if v.mm.fifo == [] then 0 else v.mm.fifo[|v.mm.fifo| - 1];
    EvictedFacts(v, frames, stale, g);
    PlacedOneMore(v.mm.fifo, req, Room(v), v.mm.pgd, AllocOne(v, frames, stale).view.mm.pgd, after, g);
  }

  /** The pages whose frames it takes go to the first places in their order, the oldest page first; no other moves. */
  lemma {:induction false} AllocPlaces(v: View, req: nat, frames: seq<nat>, stale: seq<nat>)
    requires Usable(v) && AllocPages(v, req, frames, stale).status == Success
    ensures |v.swaps| == SWAPS && v.active < SWAPS
    ensures Placed(v.mm.fifo, Short(req, |v.ram.free|), Room(v), v.mm.pgd,
                   AllocPages(v, req, frames, stale).view.mm.pgd)
    decreases req
  {
    assert |v.swaps| == SWAPS && v.active < SWAPS;
    if req == 0 {
      assert Placed(v.mm.fifo, 0, Room(v), v.mm.pgd, v.mm.pgd);
    } else {
      hide AllocOne, Usable, Room, Placed, Short;
      var r := AllocOne(v, frames, stale);
      AllocPlaces(r.view, req - 1, r.frames, stale);
      var after := AllocPages(v, req, frames, stale).view.mm.pgd;
      if v.ram.free != [] {
        FreePlaced(v, frames, stale, req, after);
      } else {
        EvictedPlaced(v, frames, stale, req, after);
      }
    }
  }

  /** A successful mapping gives the first page of the range the last frame obtained, and so on to the first. */
  lemma MapRamChooses(v: View, first: nat, n: nat, stale: seq<nat>)
    requires Usable(v) && first + n <= MAX_PGN && MapRam(v, first, n, stale).ok
    ensures var pgd := MapRam(v, first, n, stale).view.mm.pgd;
            && |pgd| == MAX_PGN && n <= |Sources(v)|
            && forall g :: first <= g < first + n ==> pgd[g] == Resident(Sources(v)[n - 1 - (g - first)])
  {
    var r := AllocPages(v, n, [], stale);
    AllocFrames(v, n, [], stale);
    AllocKeepsSize(v, n, [], stale);
    hide AllocOne, AllocPages, Sources;
    MapEntries(r.view.mm, first, r.frames[..n]);
    forall i | 0 <= i < n ensures r.frames[..n][i] == Sources(v)[n - 1 - i] {
      assert r.frames[n - 1 - (n - 1 - i)] == Sources(v)[n - 1 - i];
    }
  }
}
