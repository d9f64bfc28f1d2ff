/**
  The multi-level queue scheduler over its static arrays, proved against the selection rule.
 */
module Sched {

  import opened Mlq
  import opened ProcessQueue

  /** The number of empty queues among the first `k`, which is what the scan counts. */
  ghost function EmptyCount<P>(queues: seq<seq<P>>, k: nat): (c: nat)
    requires k <= |queues|
    ensures c <= k
    ensures c == k <==> forall i :: 0 <= i < k ==> |queues[i]| == 0
  {
    if k == 0 then 0
    else EmptyCount(queues, k - 1) + if |queues[k - 1]| == 0 then 1 else 0
  }

  /**
    Where the scan is: it has passed over the priorities below `k` of the state `now`, which is `m`,
    or `m` with every budget refilled once the scan has wrapped around.
   */
  ghost predicate Scanned<P>(m: Ready<P>, now: Ready<P>, k: nat, wrapped: bool)
    requires Shape(m)
  {
    && k < MAX_PRIO
    && now == (if wrapped then m.(slot := FullSlots()) else m)
    && (forall j :: 0 <= j < k ==> !Eligible(now, j))
    && (wrapped ==> !AllEmpty(m) && forall j :: 0 <= j < MAX_PRIO ==> !Eligible(m, j))
  }

  /** What the scan knows when it goes on to the next priority, and refills the budgets if that is the first. */
  ghost predicate MovesOn<P>(m: Ready<P>, now: Ready<P>, k: nat, wrapped: bool)
    requires Shape(m)
  {
    && (k < MAX_PRIO - 1 ==> Scanned(m, now, k + 1, wrapped))
    && (k == MAX_PRIO - 1 ==> !wrapped && Scanned(m, now.(slot := FullSlots()), 0, true))
  }

  lemma ScanFinds<P>(m: Ready<P>, now: Ready<P>, k: nat, wrapped: bool)
    requires Shape(m) && Scanned(m, now, k, wrapped) && Eligible(now, k)
    ensures Select(m) == Pop(now, k).(reset := wrapped)
  {}

  lemma ScanGivesUp<P>(m: Ready<P>, now: Ready<P>, wrapped: bool)
    requires Shape(m) && Scanned(m, now, MAX_PRIO - 1, wrapped)
    requires EmptyCount(m.queues, MAX_PRIO) == MAX_PRIO
    ensures !wrapped && Select(m) == Selection(m, None, false)
  {}

  lemma ScanMovesOn<P>(m: Ready<P>, now: Ready<P>, k: nat, wrapped: bool)
    requires Shape(m) && Scanned(m, now, k, wrapped)
    requires !Eligible(now, k) && EmptyCount(m.queues, k + 1) < MAX_PRIO
    ensures MovesOn(m, now, k, wrapped)
  {
    if k == MAX_PRIO - 1 {
      var i :| 0 <= i < MAX_PRIO && |m.queues[i]| > 0;
      assert !Eligible(now, i);
    }
  }

  /** The scheduler's state and the process returned are what the simple rule says. */
  ghost predicate Outcome(m: Ready<Pcb?>, now: Ready<Pcb?>, proc: Pcb?)
    requires Shape(m)
  {
    now == Select(m).after && proc == match Select(m).picked case None => null case Some(p) => p
  }

  lemma OutcomeFound(m: Ready<Pcb?>, now: Ready<Pcb?>, k: nat, wrapped: bool, next: Ready<Pcb?>, proc: Pcb?)
    requires Shape(m) && Shape(now) && k < MAX_PRIO && |now.queues[k]| > 0
    requires Select(m) == Pop(now, k).(reset := wrapped)
    requires next == Pop(now, k).after && Some(proc) == Pop(now, k).picked
    ensures Outcome(m, next, proc)
  {}

  lemma OutcomeNone(m: Ready<Pcb?>)
    requires Shape(m) && Select(m) == Selection(m, None, false)
    ensures Outcome(m, m, null)
  {}

  class Scheduler {
    const ready: seq<Queue>
    const slot: array<int>
    /** The slot array, the queues and their arrays. */
    ghost const repr: set<object>

    ghost predicate Valid()
      reads repr
    {
      && slot in repr && (forall i :: 0 <= i < |ready| ==> ready[i] in repr && ready[i].proc in repr)
      && |ready| == MAX_PRIO
      && slot.Length == MAX_PRIO
      && (forall i :: 0 <= i < |ready| ==> ready[i].Valid())
      && (forall i, j :: 0 <= i < j < |ready| ==> ready[i] != ready[j] && ready[i].proc != ready[j].proc)
    }

    ghost function Queues(): (s: seq<seq<Pcb?>>)
      requires Valid()
      reads repr
      ensures |s| == MAX_PRIO
      ensures forall i :: 0 <= i < MAX_PRIO ==> s[i] == ready[i].Contents()
    {
      seq(MAX_PRIO, i requires 0 <= i < MAX_PRIO reads repr
                      requires Valid() => ready[i].Contents())
    }

    ghost function State(): (m: Ready<Pcb?>)
      requires Valid()
      reads repr
      ensures Shape(m)
    {
      Ready(Queues(), slot[..])
    }

    /** Every queue starts empty and every budget full. */
    constructor ()
      ensures Valid() && fresh(repr)
      ensures State() == Ready(seq(MAX_PRIO, _ => []), FullSlots())
    {
      var queues: seq<Queue> := [];
      ghost var made: set<object> := {};
      while |queues| < MAX_PRIO
        invariant |queues| <= MAX_PRIO && fresh(made)
        invariant forall i :: 0 <= i < |queues| ==> queues[i] in made && queues[i].proc in made
        invariant forall i :: 0 <= i < |queues| ==> queues[i].Valid() && queues[i].Contents() == []
        invariant forall i, j :: 0 <= i < j < |queues| ==>
                                   queues[i] != queues[j] && queues[i].proc != queues[j].proc
      {
        var q := new Queue();
        queues, made := queues + [q], made + {q, q.proc};
      }
      var budgets := new int[MAX_PRIO](i => MAX_PRIO - i);
      ready, slot, repr := queues, budgets, made + {budgets};
      new;
      assert slot[..] == FullSlots();
      assert Queues() == seq(MAX_PRIO, _ => []);
    }

    method ResetSlot()
      requires Valid()
      modifies slot
      ensures Valid()
      ensures State() == old(State()).(slot := FullSlots())
    {
      var i := 0;
      while i < MAX_PRIO
        invariant 0 <= i <= MAX_PRIO
        invariant forall j :: 0 <= j < i ==> slot[j] == MAX_PRIO - j
      {
        slot[i] := MAX_PRIO - i;
        i := i + 1;
      }
      assert slot[..] == FullSlots();
      assert Queues() == old(Queues());
    }

    method UpdateSlot(prio: nat, usedTime: int)
      requires Valid() && prio < MAX_PRIO
      modifies slot
      ensures Valid()
      ensures State() == old(State()).(slot := old(State()).slot[prio := old(State()).slot[prio] - usedTime])
    {
      slot[prio] := slot[prio] - usedTime;
      assert Queues() == old(Queues());
    }

    method GetSlot(prio: nat) returns (s: int)
      requires Valid() && prio < MAX_PRIO
      ensures s == State().slot[prio]
    {
      s := slot[prio];
    }

    method PutMlqProc(p: Pcb)
      requires Valid() && p.prio < MAX_PRIO
      modifies ready[p.prio], ready[p.prio].proc
      ensures Valid()
      ensures State() == var m := old(State()); m.(queues := m.queues[p.prio := Enqueue(m.queues[p.prio], p)])
    {
      ready[p.prio].EnqueueProc(p);
      assert Queues() == old(Queues())[p.prio := Enqueue(old(Queues())[p.prio], p)];
    }

    method TakeHead(i: nat) returns (p: Pcb?)
      requires Valid() && i < MAX_PRIO && State().queues[i] != []
      modifies ready[i], ready[i].proc
      ensures Valid()
      ensures State() == Pop(old(State()), i).after && Some(p) == Pop(old(State()), i).picked
    {
      p := ready[i].Dequeue();
      assert Queues() == Pop(old(State()), i).after.queues;
    }

    /** Moves the scan one priority on, refilling every budget when it comes round to the first. */
    method NextPrio(ghost m: Ready<Pcb?>, ghost wrapped: bool, prio: nat, count: nat)
      returns (next: nat, countEmpty: nat)
      requires Valid() && prio < MAX_PRIO && Shape(m) && MovesOn(m, State(), prio, wrapped)
      requires count == EmptyCount(m.queues, prio + 1)
      modifies slot
      ensures Valid()
      ensures State() == if prio == MAX_PRIO - 1 then old(State()).(slot := FullSlots()) else old(State())
      ensures if prio == MAX_PRIO - 1 then next == 0 && !wrapped else next == prio + 1
      ensures Scanned(m, State(), next, wrapped || next == 0) && countEmpty == EmptyCount(m.queues, next)
    {
      next, countEmpty := (prio + 1) % MAX_PRIO, count;
      if next == 0 {
        countEmpty := 0;
        ResetSlot();
      }
    }

    /** Looks at one priority: can it be served, and how many empty queues have been seen so far? */
    method Probe(ghost m: Ready<Pcb?>, ghost wrapped: bool, prio: nat, count: nat)
      returns (found: bool, countEmpty: nat)
      requires Valid() && Shape(m) && Scanned(m, State(), prio, wrapped)
      requires count == EmptyCount(m.queues, prio)
      ensures countEmpty == EmptyCount(m.queues, prio + 1)
      ensures found ==> Eligible(State(), prio) && State().queues[prio] != []
      ensures found ==> Select(m) == Pop(State(), prio).(reset := wrapped)
      ensures !found && countEmpty == MAX_PRIO ==>
                !wrapped && State() == m && Select(m) == Selection(m, None, false)
      ensures !found && countEmpty < MAX_PRIO ==> MovesOn(m, State(), prio, wrapped)
    {
      var isEmpty := ready[prio].Empty();
      found := !isEmpty && slot[prio] > 0;
      countEmpty := if isEmpty then count + 1 else count;
      if found {
        ScanFinds(m, State(), prio, wrapped);
      } else if countEmpty == MAX_PRIO {
        ScanGivesUp(m, State(), wrapped);
      } else {
        ScanMovesOn(m, State(), prio, wrapped);
      }
    }

    /** The scan: at most two passes over the priorities, and the outcome is the simple rule's. */
    method GetMlqProc() returns (proc: Pcb?, ghost rounds: nat)
      requires Valid()
      modifies repr
      ensures Valid()
      ensures Outcome(old(State()), State(), proc) && rounds <= 2 * MAX_PRIO
    {
      ghost var m, wrapped := State(), false;
      proc, rounds := null, 0;
      var currPrio: nat, countEmpty: nat := 0, 0;
      assert Scanned(m, m, 0, false);
      assert |ready| == MAX_PRIO && slot in repr;
      assert forall i :: 0 <= i < |ready| ==> ready[i] in repr && ready[i].proc in repr;
      hide *;
      while true
        invariant Valid() && currPrio < MAX_PRIO && Scanned(m, State(), currPrio, wrapped)
        invariant countEmpty == EmptyCount(m.queues, currPrio)
        invariant rounds == currPrio + if wrapped then MAX_PRIO else 0
        decreases 2 * MAX_PRIO - rounds
      {
        rounds := rounds + 1;
        var found, count := Probe(m, wrapped, currPrio, countEmpty);
        if found {
          ghost var now := State();
          proc := TakeHead(currPrio);
          OutcomeFound(m, now, currPrio, wrapped, State(), proc);
          break;
        }
        if count == MAX_PRIO {
          OutcomeNone(m);
          break;
        }
        currPrio, countEmpty := NextPrio(m, wrapped, currPrio, count);
        wrapped := wrapped || currPrio == 0;
      }
    }
  }

  /** A process put into a new scheduler is the one it serves, and the scheduler is then as new. */
  method PutThenGet(p: Pcb) returns (s: Scheduler, proc: Pcb?)
    requires p.prio < MAX_PRIO
    ensures s.Valid() && proc == p && s.State() == Ready(seq(MAX_PRIO, _ => []), FullSlots())
  {
    s := new Scheduler();
    s.PutMlqProc(p);
    ghost var m := s.State();
    ghost var rounds;
    SelectOnly(m, p.prio);
    proc, rounds := s.GetMlqProc();
  }

  lemma SelectOnly<P>(m: Ready<P>, i: nat)
    requires Shape(m) && i < MAX_PRIO && Eligible(m, i) && forall j :: 0 <= j < MAX_PRIO && j != i ==> m.queues[j] == []
    ensures Select(m) == Pop(m, i)
  {
    assert FirstEligible(m, 0) == i;
  }
}
