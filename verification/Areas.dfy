/**
  Virtual memory areas: page alignment, the overlap test on the area list, and first-fit carving of
  free regions. Region ends are read inclusively, as the carving code does.
 */
module Areas {

  const PAGE_SIZE: nat := 256
  const ADDRESS_LIMIT: nat := 0x40_0000

  // ---------------------------------------------------------------------------------------------
  // Alignment
  // ---------------------------------------------------------------------------------------------

  function AlignUp(size: nat): nat {
    (size + PAGE_SIZE - 1) / PAGE_SIZE * PAGE_SIZE
  }

  /** The least multiple of the page size that covers the request. */
  lemma AlignUpIsLeast(size: nat, m: nat)
    ensures AlignUp(size) % PAGE_SIZE == 0 && size <= AlignUp(size)
    ensures m % PAGE_SIZE == 0 && size <= m ==> AlignUp(size) <= m
  {}

  // ---------------------------------------------------------------------------------------------
  // The overlap test
  // ---------------------------------------------------------------------------------------------

  datatype Area = Area(id: nat, start: nat, end: nat)

  /** What is left of a product when it is narrowed to a 32-bit signed integer. */
  function CInt(x: int): int {
    (x + 0x8000_0000) % 0x1_0000_0000 - 0x8000_0000
  }

  predicate FitsInt(x: int) {
    -0x8000_0000 <= x < 0x8000_0000
  }

  /** The two sign-of-product tests of the range [start, end) against one area. */
  predicate Clash(a: Area, start: int, end: int) {
    || CInt((end - 1 - a.start) * (a.end - 1 - start)) >= 0
    || CInt((start - a.start) * (a.end - end)) >= 0
  }

  predicate Free(areas: seq<Area>, id: nat, start: int, end: int) {
    forall i :: 0 <= i < |areas| && areas[i].id != id && areas[i].start != areas[i].end ==> !Clash(areas[i], start, end)
  }

  /** Fails exactly if some area of another number, not empty, fails one of the two tests. */
  method ValidateOverlap(areas: seq<Area>, id: nat, start: int, end: int) returns (r: int)
    ensures r == 0 || r == -1
    ensures r == -1 <==> exists i :: 0 <= i < |areas| && areas[i].id != id && areas[i].start != areas[i].end
                                     && Clash(areas[i], start, end)
    ensures r == 0 <==> Free(areas, id, start, end)
  {
    var i := 0;
    while i < |areas|
      invariant 0 <= i <= |areas| && Free(areas[..i], id, start, end)
    {
      var a := areas[i];
      if a.id != id && a.start != a.end {
        if CInt((end - 1 - a.start) * (a.end - 1 - start)) >= 0 { assert Clash(areas[i], start, end); return -1; }
        if CInt((start - a.start) * (a.end - end)) >= 0 { assert Clash(areas[i], start, end); return -1; }
      }
      assert areas[..i + 1] == areas[..i] + [a];
      i := i + 1;
    }
    assert areas[..i] == areas;
    return 0;
  }

  predicate Within(start: int, end: int, x: int) {
    start <= x < end
  }

  ghost predicate Intersects(a: Area, start: int, end: int) {
    exists x :: Within(a.start, a.end, x) && Within(start, end, x)
  }

  lemma IntersectsByEnds(a: Area, start: int, end: int)
    requires a.start < a.end && start < end
    ensures Intersects(a, start, end) <==> start < a.end && a.start < end
  {
    var x := if a.start < start then start else a.start;
    if start < a.end && a.start < end { assert Within(a.start, a.end, x) && Within(start, end, x); }
  }

  lemma Positive(a: int, b: int)
    ensures a >= 0 && b >= 0 ==> a * b >= 0
    ensures a <= 0 && b <= 0 ==> a * b >= 0
    ensures (a > 0 && b < 0) || (a < 0 && b > 0) ==> a * b < 0
  {}

  ghost predicate ProductsFit(a: Area, start: int, end: int) {
    FitsInt((end - 1 - a.start) * (a.end - 1 - start)) && FitsInt((start - a.start) * (a.end - end))
  }

  /** While the products fit an int, the two sign tests together decide intersection. */
  lemma SignTestsDecideOverlap(a: Area, start: int, end: int)
    requires a.start < a.end && start < end && ProductsFit(a, start, end)
    ensures Clash(a, start, end) <==> Intersects(a, start, end)
  {
    hide CInt, FitsInt;
    FittingNarrowed((end - 1 - a.start) * (a.end - 1 - start));
    FittingNarrowed((start - a.start) * (a.end - end));
    IntersectsByEnds(a, start, end);
    Positive(end - 1 - a.start, a.end - 1 - start);
    Positive(start - a.start, a.end - end);
  }

  lemma FittingNarrowed(x: int)
    requires FitsInt(x)
    ensures CInt(x) == x
  {}

  /** The low 32 bits of a product, or of its magnitude. */
  function LowWord(x: int): nat { x % 0x1_0000_0000 }

  function Magnitude(x: int): nat { if x < 0 then -x else x }

  /** The magnitude of a negative product is one that narrowing leaves negative. */
  predicate StaysNegative(x: int) {
    1 <= LowWord(Magnitude(x)) <= 0x8000_0000
  }

  lemma NonNegativeNarrowed(x: int)
    ensures CInt(x) >= 0 <==> LowWord(x) < 0x8000_0000
  {}

  /** Some other area that is not empty meets the range. */
  ghost predicate Meets(areas: seq<Area>, id: nat, start: int, end: int) {
    exists i :: 0 <= i < |areas| && areas[i].id != id && areas[i].start < areas[i].end
                && Intersects(areas[i], start, end)
  }

  /** What it takes to see that a range that meets the area does, and that one apart from it does not. */
  predicate Seen(a: Area, start: int, end: int) {
    || LowWord((end - 1 - a.start) * (a.end - 1 - start)) < 0x8000_0000
    || LowWord((start - a.start) * (a.end - end)) < 0x8000_0000
  }

  predicate ToldApart(a: Area, start: int, end: int) {
    StaysNegative((end - 1 - a.start) * (a.end - 1 - start)) && StaysNegative((start - a.start) * (a.end - end))
  }

  lemma AreaVerdict(a: Area, start: int, end: int)
    requires a.start < a.end && start < end
    ensures Clash(a, start, end) <==> Seen(a, start, end)
    ensures !Intersects(a, start, end) ==> (Clash(a, start, end) <==> !ToldApart(a, start, end))
    ensures Intersects(a, start, end) && ProductsFit(a, start, end) ==> Seen(a, start, end)
    ensures !Intersects(a, start, end) && ProductsFit(a, start, end) ==> ToldApart(a, start, end)
  {
    hide CInt, LowWord;
    var x, y := (end - 1 - a.start) * (a.end - 1 - start), (start - a.start) * (a.end - end);
    IntersectsByEnds(a, start, end);
    Positive(end - 1 - a.start, a.end - 1 - start);
    Positive(start - a.start, a.end - end);
    NonNegativeNarrowed(x);
    NonNegativeNarrowed(y);
    if x < 0 { NegativeNarrowed(-x); }
    if y < 0 { NegativeNarrowed(-y); }
    if ProductsFit(a, start, end) { SignTestsDecideOverlap(a, start, end); }
  }

  /**
    Exactly when the verdict on a list is right, for products of any size. When some other area that is not
    empty meets the range, the low word of one of its products, or of another area's, must be below 2^31;
    when none does, the magnitudes of both products of each must be between 1 and 2^31 in their low words.
    While the products fit an int that is always so.
   */
  lemma OverlapTestIsExact(areas: seq<Area>, id: nat, start: int, end: int)
    requires start < end && forall i :: 0 <= i < |areas| ==> areas[i].start <= areas[i].end
    ensures (Free(areas, id, start, end) <==> !Meets(areas, id, start, end)) <==>
            if Meets(areas, id, start, end)
            then exists i :: 0 <= i < |areas| && areas[i].id != id && areas[i].start < areas[i].end
                             && Seen(areas[i], start, end)
            else forall i :: 0 <= i < |areas| && areas[i].id != id && areas[i].start < areas[i].end ==>
                               ToldApart(areas[i], start, end)
    ensures (forall i :: 0 <= i < |areas| ==> ProductsFit(areas[i], start, end)) ==>
              (Free(areas, id, start, end) <==> !Meets(areas, id, start, end))
  {
    forall i | 0 <= i < |areas| && areas[i].id != id && areas[i].start < areas[i].end
      ensures Clash(areas[i], start, end) <==> Seen(areas[i], start, end)
      ensures !Intersects(areas[i], start, end) ==>
                (Clash(areas[i], start, end) <==> !ToldApart(areas[i], start, end))
      ensures ProductsFit(areas[i], start, end) ==> (Clash(areas[i], start, end) <==> Intersects(areas[i], start, end))
    {
      AreaVerdict(areas[i], start, end);
    }
  }

  /** Beyond that the narrowed products can take the wrong sign: these ranges do not meet, yet clash. */
  lemma NarrowedProductsMislead()
    ensures var a := Area(1, 0, 0x1_0000);
            Clash(a, 0x1_0000, 0x2_0000) && !Intersects(a, 0x1_0000, 0x2_0000)
  {}

  /**
    Extending an area by `amount` bytes at its own end, below 4 MB: the test accepts exactly when the
    low 32 bits of the product of the two sizes are neither zero nor above 2^31.
   */
  lemma ExtensionAccepted(id: nat, areaId: nat, end: nat, amount: nat)
    requires areaId != id && 0 < end && 2 <= end + amount <= ADDRESS_LIMIT
    ensures Free([Area(areaId, 0, end)], id, end, end + amount) <==>
            1 <= (end * amount) % 0x1_0000_0000 <= 0x8000_0000
  {
    var a := Area(areaId, 0, end);
    assert Free([a], id, end, end + amount) <==> !Clash(a, end, end + amount) by {
      assert [a][0].id != id && [a][0].start != [a][0].end;
    }
    ExtensionClash(a, end, amount);
  }

  lemma ExtensionClash(a: Area, end: nat, amount: nat)
    requires a.start == 0 && a.end == end && 0 < end && 2 <= end + amount <= ADDRESS_LIMIT
    ensures !Clash(a, end, end + amount) <==> 1 <= (end * amount) % 0x1_0000_0000 <= 0x8000_0000
  {
    hide CInt;
    var x, y: int := end + amount - 1, end * amount;
    ProductsAtEnd(end, amount);
    NegativeNarrowed(x);
    NegativeNarrowed(y);
    assert CInt(-x) < 0;
  }

  lemma ProductsAtEnd(end: int, amount: int)
    ensures (end + amount - 1) * (end - 1 - end) == -(end + amount - 1)
    ensures end * (end - (end + amount)) == -(end * amount)
  {}

  lemma NegativeNarrowed(x: int)
    requires x >= 0
    ensures CInt(-x) < 0 <==> 1 <= x % 0x1_0000_0000 <= 0x8000_0000
    ensures x % 0x1_0000_0000 == LowWord(x)
  {}

  // ---------------------------------------------------------------------------------------------
  // First-fit carving
  // ---------------------------------------------------------------------------------------------

  const ULONG_LIMIT: nat := 0x1_0000_0000_0000_0000

  type ULong = x: int | 0 <= x < ULONG_LIMIT

  function ULongOf(x: int): ULong { x % ULONG_LIMIT }

  /** The bytes from `start` to `end`, both included. */
  datatype Region = Region(start: ULong, end: ULong)

  function Size(r: Region): int { r.end - r.start + 1 }

  /** The size as the code computes it, without sign. */
  function Measure(r: Region): ULong { ULongOf(r.end - r.start + 1) }

  function Total(rs: seq<Region>): int {
    if rs == [] then 0 else Size(rs[0]) + Total(rs[1..])
  }

  predicate Disjoint(a: Region, b: Region) {
    a.end < b.start || b.end < a.start
  }

  ghost predicate FreeList(rs: seq<Region>) {
    && (forall i :: 0 <= i < |rs| ==> Size(rs[i]) >= 1 && rs[i].end < ULONG_LIMIT - 1)
    && (forall i, j :: 0 <= i < j < |rs| ==> Disjoint(rs[i], rs[j]))
  }

  /** The list after `size` bytes are taken from the front of node `i`; an emptied node is unlinked. */
  function Carve(rs: seq<Region>, i: nat, size: int): seq<Region>
    requires i < |rs|
  {
    var rest := Region(ULongOf(rs[i].start + size), rs[i].end);
    if rest.start > rest.end then rs[..i] + rs[i + 1..] else rs[i := rest]
  }

  class VmArea {
    var freeList: seq<Region>

    constructor (start: ULong, end: ULong)
      ensures freeList == [Region(start, end)]
    {
      freeList := [Region(start, end)];
    }

    /**
      First fit: the first node that measures at least `size` bytes gives them up from its front. Sizes
      and ends are unsigned, so a negative request counts as a very large one.
     */
    method GetFreeRegion(size: int) returns (ok: bool, region: Region)
      requires FitsInt(size)
      modifies this
      ensures ok ==> exists i :: 0 <= i < |old(freeList)|
                       && Measure(old(freeList)[i]) >= ULongOf(size)
                       && (forall j :: 0 <= j < i ==> Measure(old(freeList)[j]) < ULongOf(size))
                       && region == Region(old(freeList)[i].start, ULongOf(old(freeList)[i].start + size - 1))
                       && freeList == Carve(old(freeList), i, size)
      ensures !ok && freeList != [] ==> region == Region(ULONG_LIMIT - 1, ULONG_LIMIT - 1)
      ensures !ok ==> freeList == old(freeList)
                      && forall i :: 0 <= i < |freeList| ==> Measure(freeList[i]) < ULongOf(size)
    {
      NegativeWraps(-1);
      hide ULongOf;
      ok, region := false, Region(0, 0);
      if freeList == [] { return; }
      region := Region(ULongOf(-1), ULongOf(-1));
      var i := 0;
      while i < |freeList|
        invariant 0 <= i <= |freeList| && freeList == old(freeList)
        invariant forall j :: 0 <= j < i ==> Measure(freeList[j]) < ULongOf(size)
      {
        var node := freeList[i];
        if ULongOf(node.end - node.start + 1) >= ULongOf(size) {
          region := Region(node.start, ULongOf(node.start + size - 1));
          var start := ULongOf(node.start + size);
          if start > node.end {
            freeList := freeList[..i] + freeList[i + 1..];
          } else {
            freeList := freeList[i := Region(start, node.end)];
          }
          assert freeList == Carve(old(freeList), i, size);
          return true, region;
        }
        i := i + 1;
      }
    }
  }

  /** In a free list of disjoint regions the unsigned size is the size. */
  lemma MeasureIsSize(rs: seq<Region>, i: nat)
    requires FreeList(rs) && i < |rs|
    ensures Measure(rs[i]) == Size(rs[i])
  {}

  lemma {:induction false} TotalConcat(a: seq<Region>, b: seq<Region>)
    ensures Total(a + b) == Total(a) + Total(b)
    decreases |a|
  {
    if a == [] {
      assert a + b == b;
    } else {
      assert (a + b)[1..] == a[1..] + b;
      TotalConcat(a[1..], b);
    }
  }

  lemma TotalAt(rs: seq<Region>, i: nat)
    requires i < |rs|
    ensures Total(rs) == Total(rs[..i]) + Size(rs[i]) + Total(rs[i + 1..])
  {
    assert rs == rs[..i] + rs[i..];
    TotalConcat(rs[..i], rs[i..]);
    assert rs[i..][1..] == rs[i + 1..];
  }

  /** What carving must achieve: `size` bytes out of node `i`, and a free list of all the others. */
  ghost predicate Carved(rs: seq<Region>, i: nat, size: nat, rest: seq<Region>)
    requires i < |rs|
  {
    rs[i].start + size <= ULONG_LIMIT && 1 <= size &&
    var taken := Region(rs[i].start, rs[i].start + size - 1);
    && Size(taken) == size
    && rs[i].start <= taken.start && taken.end <= rs[i].end
    && FreeList(rest)
    && (forall j :: 0 <= j < |rest| ==> Disjoint(taken, rest[j]))
    && Total(rest) == Total(rs) - size
  }

  lemma NoWrap(x: int)
    requires 0 <= x < ULONG_LIMIT
    ensures ULongOf(x) == x
  {}

  lemma UnlinkTotal(rs: seq<Region>, i: nat)
    requires i < |rs|
    ensures Total(rs[..i] + rs[i + 1..]) == Total(rs) - Size(rs[i])
  {
    TotalAt(rs, i);
    TotalConcat(rs[..i], rs[i + 1..]);
  }

  lemma UnlinkNode(rs: seq<Region>, i: nat, size: nat)
    requires FreeList(rs) && i < |rs| && size == Size(rs[i])
    ensures Carved(rs, i, size, rs[..i] + rs[i + 1..])
  {
    var rest := rs[..i] + rs[i + 1..];
    UnlinkTotal(rs, i);
    hide Total;
    assert forall j :: 0 <= j < |rest| ==> rest[j] == if j < i then rs[j] else rs[j + 1];
  }

  lemma ShrinkTotal(rs: seq<Region>, i: nat, r: Region)
    requires i < |rs|
    ensures Total(rs[i := r]) == Total(rs) - Size(rs[i]) + Size(r)
  {
    TotalAt(rs, i);
    TotalAt(rs[i := r], i);
    assert rs[i := r][..i] == rs[..i] && rs[i := r][i + 1..] == rs[i + 1..];
  }

  lemma ShrinkNode(rs: seq<Region>, i: nat, size: nat)
    requires FreeList(rs) && i < |rs| && 1 <= size < Size(rs[i])
    ensures rs[i].start + size < ULONG_LIMIT && Carved(rs, i, size, rs[i := Region(rs[i].start + size, rs[i].end)])
  {
    var rest := rs[i := Region(rs[i].start + size, rs[i].end)];
    ShrinkTotal(rs, i, Region(rs[i].start + size, rs[i].end));
    hide Total;
    assert forall j :: 0 <= j < |rest| && j != i ==> rest[j] == rs[j];
  }

  /** A negative number counts as one below 2^64. */
  lemma NegativeWraps(x: int)
    requires -0x1_0000_0000_0000_0000 <= x < 0
    ensures ULongOf(x) == x + 0x1_0000_0000_0000_0000
  {}

  /** Only node `i` changes: it starts `size` bytes later, or is gone if it would then start beyond its end. */
  lemma CarveIs(rs: seq<Region>, i: nat, size: int)
    requires i < |rs|
    ensures var start := (rs[i].start + size) % 0x1_0000_0000_0000_0000;
            Carve(rs, i, size) ==
            rs[..i] + (if start > rs[i].end then [] else [Region(start, rs[i].end)]) + rs[i + 1..]
  {}

  /** A request for nothing takes nothing. */
  lemma CarveNothing(rs: seq<Region>, i: nat)
    requires FreeList(rs) && i < |rs|
    ensures Carve(rs, i, 0) == rs
  {
    NoWrap(rs[i].start);
  }

  lemma CarveCases(rs: seq<Region>, i: nat, size: nat)
    requires i < |rs| && 1 <= size <= Size(rs[i]) && rs[i].end < ULONG_LIMIT - 1
    ensures rs[i].start + size < ULONG_LIMIT
    ensures Carve(rs, i, size) ==
            if size == Size(rs[i]) then rs[..i] + rs[i + 1..] else rs[i := Region(rs[i].start + size, rs[i].end)]
  {
    NoWrap(rs[i].start + size);
    hide ULongOf;
  }

  /** The bytes handed out leave the free list: nothing is lost, nothing is handed out twice. */
  lemma CarveIsExact(rs: seq<Region>, i: nat, size: nat)
    requires FreeList(rs) && i < |rs| && 1 <= size <= Size(rs[i])
    ensures Carved(rs, i, size, Carve(rs, i, size))
  {
    CarveCases(rs, i, size);
    hide ULongOf, Carved, Carve, FreeList;
    if size == Size(rs[i]) { UnlinkNode(rs, i, size); } else { ShrinkNode(rs, i, size); }
  }
}
