/** Exactly when a request for several pages can be met. */
module PagingBound {

  import opened Paging

  function FreeSwap(swaps: seq<Device>): nat
    requires |swaps| == SWAPS
  {
    |swaps[0].free| + |swaps[1].free| + |swaps[2].free| + |swaps[3].free|
  }

  function Min(a: nat, b: nat): nat { if a < b then a else b }

  /** How many of `req` frames must come from evictions. */
  function Short(req: nat, free: nat): nat { if req <= free then 0 else req - free }

  /** The outcome predicted from three sizes: free frames, evictable pages, free swap frames. */
  function Outcome(req: nat, free: nat, evictable: nat, swap: nat): Status {
    if req <= free + Min(evictable, swap) then Success
    else if evictable <= swap then NoVictim
    else OutOfMemory
  }

  /**
    A request succeeds exactly when the free frames, plus as many pages as can be both evicted and
    stored, cover it; otherwise the error code tells which of the two ran out first.
   */
  lemma {:induction false} ExactSuccessBound(v: View, req: nat, frames: seq<nat>, stale: seq<nat>)
    requires Usable(v)
    ensures AllocPages(v, req, frames, stale).status ==
            Outcome(req, |v.ram.free|, |v.mm.fifo|, FreeSwap(v.swaps))
    decreases req
  {
    if req == 0 {
    } else {
      var r := AllocOne(v, frames, stale);
      if r.status == Success {
        var j := SwapTarget(v);
        if v.ram.free == [] {
          assert |r.view.mm.fifo| == |v.mm.fifo| - 1;
          assert FreeSwap(r.view.swaps) == FreeSwap(v.swaps) - 1;
        }
        ExactSuccessBound(r.view, req - 1, r.frames, stale);
      } else if r.status == OutOfMemory {
        assert FreeSwap(v.swaps) == 0;
      }
    }
  }

  /** The condition in the words of the design: RAM first, then one victim and one swap frame per page. */
  lemma SuccessCondition(v: View, req: nat, stale: seq<nat>)
    requires Usable(v)
    ensures AllocPages(v, req, [], stale).status == Success <==>
            var free, evictable, swap := |v.ram.free|, |v.mm.fifo|, FreeSwap(v.swaps);
            req <= free + evictable && (req > free ==> req - free <= swap)
  {
    ExactSuccessBound(v, req, [], stale);
  }
}
