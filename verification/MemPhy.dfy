/** Random-access memory devices: a byte array managed in frames, and the list of free frames. */
module PhysicalMemory {

  import opened Paging
  import opened Seqs

  /** The whole frames of a device; bytes beyond the last whole frame belong to none. */
  ghost function Cut(s: seq<Byte>): (fs: seq<Page>)
    ensures |fs| == |s| / PAGE_SIZE
    ensures forall f :: 0 <= f < |fs| ==> fs[f] == s[f * PAGE_SIZE..(f + 1) * PAGE_SIZE]
  {
    seq(|s| / PAGE_SIZE, f requires 0 <= f < |s| / PAGE_SIZE => s[f * PAGE_SIZE..(f + 1) * PAGE_SIZE])
  }

  lemma CutAt(s: seq<Byte>, f: nat, k: nat)
    requires f < |s| / PAGE_SIZE && k < PAGE_SIZE
    ensures Cut(s)[f][k] == s[f * PAGE_SIZE + k]
  {}

  /** Changing the bytes of one frame changes that frame and no other. */
  lemma CutReplace(s: seq<Byte>, t: seq<Byte>, f: nat, page: Page)
    requires |s| == |t| && f < |s| / PAGE_SIZE
    requires forall k :: 0 <= k < |s| ==>
      t[k] == if f * PAGE_SIZE <= k < (f + 1) * PAGE_SIZE then page[k - f * PAGE_SIZE] else s[k]
    ensures Cut(t) == Cut(s)[f := page]
  {
    forall g | 0 <= g < |Cut(t)| ensures Cut(t)[g] == Cut(s)[f := page][g] {
      forall k | 0 <= k < PAGE_SIZE ensures Cut(t)[g][k] == Cut(s)[f := page][g][k] {
        CutAt(t, g, k);
        CutAt(s, g, k);
      }
    }
  }

  lemma PushedOk(frames: seq<Page>, fpn: nat, free: seq<nat>)
    ensures DeviceOk(Device(frames, [fpn] + free)) <==>
            DeviceOk(Device(frames, free)) && fpn < |frames| && fpn !in free
  {
    var pushed := [fpn] + free;
    assert forall f :: f in pushed <==> f == fpn || f in free;
    if NoDup(pushed) {
      assert pushed[1..] == free && pushed[0] == fpn;
      TailNoDup(pushed);
    }
    if NoDup(free) && fpn !in free { ConsNoDup(fpn, free); }
  }

  class MemPhy {
    const storage: array<Byte>
    var freeFp: seq<nat>
    var usedFp: seq<nat>

    ghost function Abs(): Device
      reads this, storage
    {
      Device(Cut(storage[..]), freeFp)
    }

    /** A device of `maxsz` zero bytes, formatted. */
    constructor (maxsz: nat)
      ensures fresh(storage) && storage.Length == maxsz && usedFp == []
      ensures Formatted(Abs()) && forall k :: 0 <= k < maxsz ==> storage[k] == 0
    {
      storage := new Byte[maxsz](_ => 0);
      freeFp, usedFp := [], [];
      new;
      var code := Format();
      assert storage.Length < PAGE_SIZE ==> freeFp == Numbers(0);
    }

    /** A device without a whole frame is refused, and its free list left as it was. */
    method Format() returns (code: int)
      modifies `freeFp
      ensures storage.Length < PAGE_SIZE ==> code == -1 && freeFp == old(freeFp)
      ensures storage.Length >= PAGE_SIZE ==> code == 0 && Formatted(Abs())
    {
      var numfp := storage.Length / PAGE_SIZE;
      if numfp <= 0 { return -1; }
      freeFp := [0];
      var iter := 1;
      while iter < numfp
        invariant 1 <= iter <= numfp && freeFp == Numbers(iter)
      {
        freeFp := freeFp + [iter];
        iter := iter + 1;
      }
      return 0;
    }

    method GetFreeFp() returns (ok: bool, fpn: nat)
      modifies `freeFp
      ensures ok <==> old(freeFp) != []
      ensures ok ==> fpn == old(freeFp)[0] && freeFp == old(freeFp)[1..]
      ensures !ok ==> freeFp == old(freeFp)
    {
      ok, fpn := false, 0;
      if freeFp != [] {
        ok, fpn := true, freeFp[0];
        freeFp := freeFp[1..];
      }
    }

    /**
      The frame becomes the next to be handed out. The free list stays in order exactly if it was so and
      the frame is one of the device's that was not free already: the code does not look.
     */
    method PutFreeFp(fpn: nat)
      modifies `freeFp
      ensures freeFp == [fpn] + old(freeFp)
      ensures DeviceOk(Abs()) <==> DeviceOk(old(Abs())) && fpn < |Abs().frames| && fpn !in old(freeFp)
    {
      PushedOk(Abs().frames, fpn, freeFp);
      freeFp := [fpn] + freeFp;
    }

    /** A frame put back is the next one handed out, and the free list is then as it was. */
    method PutThenGet(fpn: nat) returns (ok: bool, got: nat)
      modifies `freeFp
      ensures ok && got == fpn && Abs() == old(Abs())
    {
      PutFreeFp(fpn);
      ok, got := GetFreeFp();
    }

    method Read(addr: nat) returns (value: Byte)
      requires addr < storage.Length
      ensures value == storage[addr]
      ensures addr / PAGE_SIZE < |Abs().frames| ==> value == Abs().frames[addr / PAGE_SIZE][addr % PAGE_SIZE]
    {
      if addr / PAGE_SIZE < storage.Length / PAGE_SIZE { CutAt(storage[..], addr / PAGE_SIZE, addr % PAGE_SIZE); }
      value := storage[addr];
    }

    method Write(addr: nat, data: Byte)
      requires addr < storage.Length
      modifies storage
      ensures storage[..] == old(storage[..])[addr := data]
      ensures var fs, f := old(Abs().frames), addr / PAGE_SIZE;
              f < |fs| ==> Abs().frames == fs[f := fs[f][addr % PAGE_SIZE := data]]
    {
      ghost var s, f := storage[..], addr / PAGE_SIZE;
      storage[addr] := data;
      if f < |Cut(s)| { CutReplace(s, storage[..], f, Cut(s)[f][addr % PAGE_SIZE := data]); }
    }
  }

  /** Copies one frame, byte by byte, between two devices. */
  method SwapCpPage(src: MemPhy, srcfpn: nat, dst: MemPhy, dstfpn: nat)
    requires src.storage != dst.storage
    requires srcfpn < src.storage.Length / PAGE_SIZE && dstfpn < dst.storage.Length / PAGE_SIZE
    modifies dst.storage
    ensures dst.Abs() == old(dst.Abs()).(frames := old(dst.Abs()).frames[dstfpn := src.Abs().frames[srcfpn]])
  {
    ghost var s := dst.storage[..];
    var cell := 0;
    while cell < PAGE_SIZE
      invariant 0 <= cell <= PAGE_SIZE
      invariant forall k :: 0 <= k < |s| ==>
        dst.storage[k] == if dstfpn * PAGE_SIZE <= k < dstfpn * PAGE_SIZE + cell
                          then src.storage[srcfpn * PAGE_SIZE + (k - dstfpn * PAGE_SIZE)] else s[k]
    {
      var data := src.Read(srcfpn * PAGE_SIZE + cell);
      dst.Write(dstfpn * PAGE_SIZE + cell, data);
      assert forall k :: 0 <= k < |s| ==> dst.storage[k] == dst.storage[..][k];
      cell := cell + 1;
    }
    CutReplace(s, dst.storage[..], dstfpn, Cut(src.storage[..])[srcfpn]);
  }
}
