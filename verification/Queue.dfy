/**
  The bounded process queue: a fixed array filled from the front, shifted down on removal.
 */
module ProcessQueue {

  import opened Mlq
  import opened Seqs

  /** A process control block; the scheduler compares these by identity. */
  class Pcb {
    const pid: nat
    const prio: nat

    constructor (pid: nat, prio: nat)
      ensures this.pid == pid && this.prio == prio
    {
      this.pid, this.prio := pid, prio;
    }
  }

  class Queue {
    const proc: array<Pcb?>
    var size: nat

    ghost predicate Valid()
      reads this, proc
    {
      && proc.Length == MAX_QUEUE_SIZE
      && size <= MAX_QUEUE_SIZE
      && forall i :: 0 <= i < size ==> proc[i] != null
    }

    /** The queued processes, next to be served first. */
    ghost function Contents(): (s: seq<Pcb?>)
      requires Valid()
      reads this, proc
    {
      proc[..size]
    }

    constructor ()
      ensures Valid() && Contents() == [] && fresh(proc)
    {
      proc := new Pcb?[MAX_QUEUE_SIZE](_ => null);
      size := 0;
    }

    method Empty() returns (r: bool)
      requires Valid()
      ensures r <==> Contents() == []
    {
      r := size == 0;
    }

    /**
      Appends at the tail, unless the process is null, the queue holds ten, or the process is one of them; a
      queue without repetition stays so.
     */
    method EnqueueProc(p: Pcb?)
      requires Valid()
      modifies this`size, proc
      ensures Valid()
      ensures p != null && |old(Contents())| < 10 && p !in old(Contents()) ==> Contents() == old(Contents()) + [p]
      ensures p == null || |old(Contents())| >= 10 || p in old(Contents()) ==> Contents() == old(Contents())
      ensures NoDup(old(Contents())) ==> NoDup(Contents())
      ensures Contents() == if p == null then old(Contents()) else Enqueue(old(Contents()), p)
    {
      if p == null { return; }
      if size >= MAX_QUEUE_SIZE { return; }
      var i := 0;
      while i < size
        invariant 0 <= i <= size
        invariant forall j :: 0 <= j < i ==> proc[j] != p
      {
        if proc[i] == p { assert p in Contents(); return; }
        i := i + 1;
      }
      assert p !in Contents();
      proc[size] := p;
      size := size + 1;
    }

    /** Removes and returns the head, shifting the rest down by one; null from an empty queue. */
    method Dequeue() returns (p: Pcb?)
      requires Valid()
      modifies this`size, proc
      ensures Valid()
      ensures old(Contents()) == [] ==> p == null && Contents() == []
      ensures old(Contents()) != [] ==> p == old(Contents())[0] && Contents() == old(Contents())[1..]
    {
      var isEmpty := Empty();
      if isEmpty { return null; }
      p := proc[0];
      var i := 0;
      while i < size - 1
        invariant size == old(size) && 0 <= i <= size - 1
        invariant forall j :: 0 <= j < i ==> proc[j] == old(proc[j + 1])
        invariant forall j :: i <= j < proc.Length ==> proc[j] == old(proc[j])
      {
        proc[i] := proc[i + 1];
        i := i + 1;
      }
      proc[size - 1] := null;
      size := size - 1;
    }
  }
}
