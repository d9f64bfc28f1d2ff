/** Start-up followed by runs, one after the other, on one heap. */
module Session {

  import opened Bits
  import opened Paging
  import opened PagingOwnership
  import opened PagingRuns
  import PagingFlat
  import opened PagingStray
  import opened Syscall
  import opened Boot

  const ONE_PAGE := Extend(0, 0, PAGE_SIZE, [])

  /** From start-up, a process that asks for a page and writes to it finds its first page resident. */
  lemma WriteIsKept(m: Machine, b: Byte) returns (n: Machine)
    requires Booted(m) && Sound(m) && |m.ram.frames| >= 1 && m.mms != []
    ensures AllowedRun(m, [ONE_PAGE, Write(0, 0, b)]) && n == Run(m, [ONE_PAGE, Write(0, 0, b)])
    ensures Sound(n) && AllowedRun(n, [Read(0, 0)])
    ensures ReadBy(n, Read(0, 0)) == b
  {
    assert Fresh(m.mms[0]);
    OwnedIsUsable(m, [], 0);
    FirstExtension(Of(m, 0), 1);
    assert Reaches(m, [], m) && [] + [ONE_PAGE] == [ONE_PAGE];
    hide Booted, Owned, IncVmaLimit;
    var n1, w := Do(m, ONE_PAGE), Write(0, 0, b);
    ReachesOn(m, [], m, ONE_PAGE);
    assert EntryAt(n1, 0, 0).Resident? by { assert Of(n1, 0) == First(Of(m, 0), 1).view; }
    n := ReadAfterWrite(n1, b);
    ReachesOn(m, [ONE_PAGE], n1, w);
  }

  lemma ReadAfterWrite(m: Machine, b: Byte) returns (n: Machine)
    requires Sound(m) && EntryAt(m, 0, 0).Resident?
    ensures Allowed(m, Write(0, 0, b)) && n == Do(m, Write(0, 0, b)) && Sound(n) && AllowedRun(n, [Read(0, 0)])
    ensures ReadBy(n, Read(0, 0)) == b
  {
    OwnedIsUsable(m, [], 0);
    n := Do(m, Write(0, 0, b));
    assert Stored(m.ram, m.swaps, EntryAt(m, 0, 0));
    PagingFlat.WriteEffect(m, Write(0, 0, b), 0, 0);
  }

  lemma RanRead(m: Machine, op: Op, n: Machine, data: seq<Byte>)
    requires Ran(m, [op], n, data) && |data| == 1 && op.Read?
    ensures Sound(m) && Allowed(m, op) && data[0] == ReadBy(m, op)
  {
    RunPrefix(m, [op], 0);
    assert [op][..0] == [] && Run(m, []) == m;
  }

  /** A process writes a byte in one run and reads it in another; there may be other processes. */
  method WriteThenRead(ram: nat, swaps: seq<nat>, n: nat, b: Byte) returns (got: Byte)
    requires |swaps| == SWAPS && PAGE_SIZE <= ram && ram / PAGE_SIZE <= FPN_LIMIT && n > 0
    requires forall i :: 0 <= i < SWAPS ==> swaps[i] / PAGE_SIZE <= SWPOFF_LIMIT
    ensures got == b
  {
    hide Booted, Sound, Holds, AllowedRun, Run, Ran, ReadBy;
    var callers, m, mem := Start(ram, swaps, n);
    ghost var k := WriteIsKept(m, b);
    var written, k1, mem1 := RunAll(callers, [ONE_PAGE, Write(0, 0, b)], m, mem);
    var data, l, mem2 := RunAll(callers, [Read(0, 0)], k, mem1);
    RanRead(k, Read(0, 0), l, data);
    got := data[0];
  }
}
