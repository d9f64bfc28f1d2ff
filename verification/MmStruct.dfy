/**
  A process's memory description in place: page table words, the linked replacement list, and the limits
  of its one area.
 */
module AddressSpace {

  import opened Bits
  import opened Paging
  import opened Seqs
  import Areas

  class PgNode {
    const pgn: nat
    var next: PgNode?

    constructor (pgn: nat, next: PgNode?)
      ensures this.pgn == pgn && this.next == next
    {
      this.pgn, this.next := pgn, next;
    }
  }

  ghost function Entries(words: seq<bv32>): (es: seq<Entry>)
    ensures |es| == |words| && forall g :: 0 <= g < |es| ==> es[g] == Decode(words[g])
  {
    seq(|words|, g requires 0 <= g < |words| => Decode(words[g]))
  }

  ghost function Pgns(nodes: seq<PgNode>): (s: seq<nat>)
    ensures |s| == |nodes| && forall i :: 0 <= i < |s| ==> s[i] == nodes[i].pgn
  {
    seq(|nodes|, i requires 0 <= i < |nodes| => nodes[i].pgn)
  }

  ghost function NodeAt(nodes: seq<PgNode>, i: nat): PgNode? {
    if i < |nodes| then nodes[i] else null
  }

  lemma ConsNodes(node: PgNode, rest: seq<PgNode>)
    ensures var nodes := [node] + rest;
            && nodes[1..] == rest && NodeAt(nodes, 0) == node && Pgns(nodes) == [node.pgn] + Pgns(rest)
            && forall i :: 0 <= i < |nodes| ==>
                 NodeAt(nodes, i + 1) == NodeAt(rest, i) && (i > 0 ==> nodes[i] == rest[i - 1])
  {}

  class MmStruct {
    const pgd: array<bv32>
    /** The free regions of the one area. */
    const regions: Areas.VmArea
    var fifoPgn: PgNode?
    var vmEnd: nat
    var sbrk: nat
    /** The nodes of the replacement list from its head on. */
    ghost var spine: seq<PgNode>

    ghost predicate Linked()
      reads `fifoPgn, `spine, spine
    {
      && NoDup(spine)
      && fifoPgn == NodeAt(spine, 0)
      && (forall i :: 0 <= i < |spine| ==> spine[i].next == NodeAt(spine, i + 1))
    }

    /** Words of pages never mapped are still zero. */
    ghost predicate Zeroed()
      reads pgd
    {
      forall g :: 0 <= g < pgd.Length && Decode(pgd[g]) == Absent ==> pgd[g] == 0
    }

    ghost function Abs(): (a: Mm)
      reads this, pgd
      ensures |a.pgd| == pgd.Length
    {
      Mm(Entries(pgd[..]), Pgns(spine), vmEnd, sbrk)
    }

    constructor ()
      ensures fresh(pgd) && pgd.Length == MAX_PGN && Linked() && Zeroed() && spine == []
      ensures Abs().fifo == [] && vmEnd == 0 && sbrk == 0
      ensures forall g :: 0 <= g < MAX_PGN ==> Abs().pgd[g] == Absent
      ensures fresh(regions) && regions.freeList == [Areas.Region(0, 0)]
    {
      regions := new Areas.VmArea(0, 0);
      pgd := new bv32[MAX_PGN](_ => 0);
      fifoPgn, vmEnd, sbrk, spine := null, 0, 0, [];
    }

    method EnlistPgnNode(pgn: nat)
      requires Linked()
      modifies `fifoPgn, `spine
      ensures Linked() && |spine| == |old(spine)| + 1 && fresh(spine[0]) && spine[1..] == old(spine)
      ensures Abs() == old(Abs()).(fifo := [pgn] + old(Abs()).fifo)
    {
      var node := new PgNode(pgn, fifoPgn);
      ghost var rest := spine;
      ConsNoDup(node, rest);
      ConsNodes(node, rest);
      hide NoDup, Entries, NodeAt, Pgns;
      fifoPgn, spine := node, [node] + rest;
    }

    /** Unlinks the oldest page, the last of the list. */
    method FindVictimPage() returns (ok: bool, pgn: nat)
      requires Linked()
      modifies `fifoPgn, `spine, spine
      ensures ok <==> old(spine) != []
      ensures Linked() && spine == if ok then DropLast(old(spine)) else old(spine)
      ensures ok ==> pgn == Last(old(Abs()).fifo) && Abs() == old(Abs()).(fifo := DropLast(old(Abs()).fifo))
      ensures !ok ==> Abs() == old(Abs())
    {
      var pg := fifoPgn;
      if pg == null { return false, 0; }
      assert pg == spine[0];
      if pg.next == null {
        pgn := pg.pgn;
        fifoPgn, spine := null, [];
        assert Pgns(spine) == DropLast(old(Pgns(spine)));
        return true, pgn;
      }
      ghost var i := 0;
      assert |spine| > 1;
      while pg.next.next != null
        invariant 0 <= i < |spine| - 1 && pg == spine[i] && pg.next == spine[i + 1]
        decreases |spine| - i
      {
        assert pg.next == spine[i + 1];
        pg, i := pg.next, i + 1;
      }
      assert pg.next == spine[i + 1] && |spine| == i + 2;
      pgn := pg.next.pgn;
      pg.next := null;
      spine := DropLast(spine);
      assert Pgns(spine) == DropLast(old(Pgns(spine)));
      return true, pgn;
    }

    /** Marks page `pgn` as resident in a frame. */
    method SetFpn(pgn: nat, fpn: nat)
      requires pgn < pgd.Length && fpn < FPN_LIMIT && Zeroed()
      modifies pgd
      ensures Zeroed() && Abs() == old(Abs()).(pgd := old(Abs()).pgd[pgn := Resident(fpn)])
    {
      SetFpnDecodes(pgd[pgn], fpn);
      pgd[pgn] := PteSetFpn(pgd[pgn], fpn as bv32);
      assert Entries(pgd[..]) == old(Entries(pgd[..]))[pgn := Resident(fpn)];
    }

    /** Marks page `pgn` as swapped. */
    method SetSwap(pgn: nat, typ: nat, off: nat)
      requires pgn < pgd.Length && typ < SWPTYP_LIMIT && off < SWPOFF_LIMIT && Zeroed()
      modifies pgd
      ensures Zeroed() && Abs() == old(Abs()).(pgd := old(Abs()).pgd[pgn := Swapped(typ, off)])
    {
      SetSwapDecodes(pgd[pgn], typ, off);
      pgd[pgn] := PteSetSwap(pgd[pgn], typ as bv32, off as bv32);
      assert Entries(pgd[..]) == old(Entries(pgd[..]))[pgn := Swapped(typ, off)];
    }
  }
}
