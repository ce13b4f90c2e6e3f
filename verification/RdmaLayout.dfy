/** The aligned region that holds the RDMA byte counters of each IO link: its size, and what lies where in it. */
module RdmaLayout {
  import opened Remainders
  import Pools

  const U32: nat := 0x1_0000_0000

  /** Sizes of a byte counter with its error word, and of the smallest region. */
  const ELEMENT: nat := 16
  const MIN_AREA: nat := 2048
  const MIN_ELEMENTS: nat := 128

  predicate PowerOfTwo(n: nat) {
    n == 1 || (n > 1 && n % 2 == 0 && PowerOfTwo(n / 2))
  }

  lemma {:induction false} PowerIsMultiple(n: nat, m: nat)
    requires PowerOfTwo(n) && PowerOfTwo(m) && n <= m
    ensures m % n == 0
    decreases m
  {
    if n == m {
      Remainder(m, 1, 0, n);
    } else if n == 1 {
    } else {
      HalfIsLess(n, m);
      PowerIsMultiple(n, m / 2);
      var q := (m / 2) / n;
      assert m / 2 == n * q + (m / 2) % n;
      assert m == n * (2 * q);
      Remainder(m, 2 * q, 0, n);
    }
  }

  /** A larger power of two is at least twice as large. */
  lemma {:induction false} HalfIsLess(n: nat, m: nat)
    requires PowerOfTwo(n) && PowerOfTwo(m) && n < m
    ensures n <= m / 2
    decreases m
  {
    if n > 1 {
      HalfIsLess(n / 2, m / 2);
    }
  }

  function Wanted(maxConnections: nat, links: nat): nat {
    (if links > 1 then 2 else 4) * maxConnections
  }

  /** The number of elements asked for, in 32 bits. */
  function Asked(maxConnections: nat, links: nat): nat {
    var n := Wanted(maxConnections, links) % U32;
    if n < MIN_ELEMENTS then MIN_ELEMENTS else n
  }

  /** `compute_rdma_section_size`: the smallest power of two from 2048 on that holds the elements, one of which is
      kept back. */
  method ComputeSectionSize(maxConnections: nat, links: nat) returns (size: nat, elements: nat)
    requires maxConnections < U32
    ensures PowerOfTwo(size) && MIN_AREA <= size && (elements + 1) * ELEMENT <= size
    ensures size > MIN_AREA ==> size / 2 < Asked(maxConnections, links) * ELEMENT
    ensures Asked(maxConnections, links) - 1 <= elements <= Asked(maxConnections, links)
    ensures size % ELEMENT == 0
  {
    size := MIN_AREA;
    elements := Asked(maxConnections, links);
    assert PowerOfTwo(2) && PowerOfTwo(4) && PowerOfTwo(8) && PowerOfTwo(16) && PowerOfTwo(32) && PowerOfTwo(64);
    assert PowerOfTwo(128) && PowerOfTwo(256) && PowerOfTwo(512) && PowerOfTwo(1024) && PowerOfTwo(2048);
    while size < elements * ELEMENT
      invariant PowerOfTwo(size) && MIN_AREA <= size && (size > MIN_AREA ==> size / 2 < elements * ELEMENT)
      decreases elements * ELEMENT - size
    {
      size := size * 2;
    }
    PowerIsMultiple(ELEMENT, size);
    if size == elements * ELEMENT {
      elements := elements - 1;
    }
  }

  /** With one link there are four elements for every connection, with more there are two for each on every link, and
      never less than 128 elements, exactly when that number fits 32 bits. */
  lemma {:induction false} EnoughIff(maxConnections: nat, links: nat)
    requires maxConnections < U32
    ensures links <= 1 ==> (4 * maxConnections < U32 <==> Asked(maxConnections, links) >= 4 * maxConnections)
    ensures links > 1 ==> (2 * maxConnections < U32 <==> Asked(maxConnections, links) >= 2 * maxConnections)
    ensures links <= 1 && 128 <= 4 * maxConnections < U32 ==> Asked(maxConnections, links) == 4 * maxConnections
    ensures links > 1 && 128 <= 2 * maxConnections < U32 ==> Asked(maxConnections, links) == 2 * maxConnections
    ensures Asked(maxConnections, links) >= 128
  {
    AskedIs(maxConnections, links);
  }

  lemma {:induction false} AskedIs(maxConnections: nat, links: nat)
    ensures var w := Wanted(maxConnections, links);
            if w < U32 then Asked(maxConnections, links) == if w < 128 then 128 else w
            else 128 <= Asked(maxConnections, links) < w
  {
    var w := Wanted(maxConnections, links);
    if w < U32 {
      Remainder(w, 0, w, U32);
    } else {
      assert w % U32 < U32;
    }
  }

  // ----- Alignment -----

  /** `a & ~(size - 1)` for a power of two. */
  function Masked(a: nat, size: nat): nat
    requires size > 0
  {
    a - a % size
  }

  /** The first aligned address from `a` on. */
  function AlignUp(a: nat, size: nat): nat
    requires size > 0
  {
    if a % size != 0 then Masked(a + size, size) else a
  }

  lemma {:induction false} MaskedIsMultiple(a: nat, size: nat)
    requires size > 0
    ensures Masked(a, size) % size == 0 && Masked(a, size) <= a < Masked(a, size) + size
  {
    assert a == size * (a / size) + a % size;
    Remainder(Masked(a, size), a / size, 0, size);
  }

  lemma {:induction false} AlignUpIsNear(a: nat, size: nat)
    requires size > 0
    ensures AlignUp(a, size) % size == 0 && a <= AlignUp(a, size) < a + size
  {
    if a % size != 0 {
      MaskedIsMultiple(a + size, size);
      assert a == size * (a / size) + a % size;
      assert size * (a / size + 1) == size * (a / size) + size;
      Remainder(a + size, a / size + 1, a % size, size);
    }
  }

  /** The mask test of an address finds exactly the addresses of the region. */
  lemma {:induction false} MaskFindsRegion(a: nat, start: nat, size: nat)
    requires size > 0 && start % size == 0
    ensures Masked(a, size) == start <==> start <= a < start + size
  {
    MaskedIsMultiple(a, size);
    if start <= a < start + size {
      assert start == size * (start / size) + start % size;
      Remainder(a, start / size, a - start, size);
    }
  }

  // ----- The mask, bit by bit -----

  function PowerOf2(k: nat): nat {
    if k == 0 then 1 else 2 * PowerOf2(k - 1)
  }

  lemma {:induction false} FourMore(k: nat)
    ensures PowerOf2(k + 4) == 16 * PowerOf2(k)
  {
    assert PowerOf2(k + 2) == 4 * PowerOf2(k);
  }

  lemma {:induction false} SixtyFourBits()
    ensures PowerOf2(64) == 0x1_0000_0000_0000_0000
  {
    SixteenMore(0);
    SixteenMore(16);
    SixteenMore(32);
    SixteenMore(48);
  }

  lemma {:induction false} SixteenMore(k: nat)
    ensures PowerOf2(k + 16) == 0x1_0000 * PowerOf2(k)
  {
    FourMore(k);
    FourMore(k + 4);
    FourMore(k + 8);
    FourMore(k + 12);
  }

  /** Bitwise "and". */
  function And(a: nat, b: nat): nat {
    if a == 0 || b == 0 then 0 else 2 * And(a / 2, b / 2) + (if a % 2 == 1 && b % 2 == 1 then 1 else 0)
  }

  /** `~(size - 1)` in `bits` bits. */
  function Mask(size: nat, bits: nat): nat
    requires size <= PowerOf2(bits)
  {
    PowerOf2(bits) - size
  }

  lemma {:induction false} AndAllOnes(a: nat, bits: nat)
    requires a < PowerOf2(bits)
    ensures And(a, PowerOf2(bits) - 1) == a
  {
    if a > 0 {
      var half, ones := PowerOf2(bits - 1), PowerOf2(bits) - 1;
      assert ones == 2 * half - 1 && ones / 2 == half - 1 && ones % 2 == 1;
      AndAllOnes(a / 2, bits - 1);
      assert And(a, ones) == 2 * And(a / 2, half - 1) + a % 2;
    }
  }

  lemma {:induction false} RemainderOfHalf(a: nat, half: nat)
    requires half > 0
    ensures a % (2 * half) == 2 * ((a / 2) % half) + a % 2
  {
    var h := a / 2;
    var q := h / half;
    assert h == half * q + h % half && a == 2 * h + a % 2;
    assert 2 * (half * q) == (2 * half) * q;
    Remainder(a, q, 2 * (h % half) + a % 2, 2 * half);
  }

  lemma {:induction false} AndEven(a: nat, m: nat)
    ensures And(a, 2 * m) == 2 * And(a / 2, m)
  {
    assert 2 * m / 2 == m && (2 * m) % 2 == 0;
  }

  /** Masking off the low bits of an address leaves the largest multiple of the size that is not above it. */
  lemma {:induction false} MaskIsMasked(a: nat, size: nat, bits: nat)
    requires PowerOfTwo(size) && size <= PowerOf2(bits) && a < PowerOf2(bits)
    ensures And(a, Mask(size, bits)) == Masked(a, size)
  {
    if size == 1 {
      AndAllOnes(a, bits);
    } else {
      var m := Mask(size / 2, bits - 1);
      MaskIsMasked(a / 2, size / 2, bits - 1);
      RemainderOfHalf(a, size / 2);
      assert Mask(size, bits) == 2 * m && size == 2 * (size / 2);
      AndEven(a, m);
      assert And(a, 2 * m) == 2 * (a / 2 - (a / 2) % (size / 2));
    }
  }

  /** The mask test of an address, as the driver makes it: it finds exactly the addresses of the region. */
  lemma {:induction false} MaskTestFindsRegion(a: nat, start: nat, size: nat)
    requires PowerOfTwo(size) && size <= 0x1_0000_0000_0000_0000 && a < 0x1_0000_0000_0000_0000 && start % size == 0
    ensures PowerOf2(64) == 0x1_0000_0000_0000_0000
    ensures And(a, Mask(size, 64)) == start <==> start <= a < start + size
  {
    SixtyFourBits();
    MaskIsMasked(a, size, 64);
    MaskFindsRegion(a, start, size);
  }

  // ----- The regions of all links -----

  /** One link's region: where its counters start, physically and as an offset into the allocation, and how many
      objects it has. The element after the last object's is the broadcast counter. */
  datatype Region = Region(start: nat, offset: nat, objects: nat)

  /** The offset used for link `i`: the distance to the next boundary, or the last such distance when there is none. */
  function Offset(bases: seq<nat>, size: nat, i: nat): nat
    requires i < |bases| && size > 0
  {
    if bases[i] % size != 0 then Masked(bases[i] + size, size) - bases[i]
    else if i == 0 then 0
    else Offset(bases, size, i - 1)
  }

  /** `rdma_init`: one region per link, given where the allocations lie. Both the offset and the number of elements are
      carried from one link to the next. */
  method RdmaInit(bases: seq<nat>, size: nat, elements: nat) returns (regions: seq<Region>)
    requires size > 0 && |bases| <= elements
    ensures |regions| == |bases|
    ensures forall i :: 0 <= i < |bases| ==>
      regions[i] == Region(AlignUp(bases[i], size), Offset(bases, size, i), elements - (i + 1))
  {
    regions := [];
    var offset, left := 0, elements;
    while |regions| < |bases|
      invariant |regions| <= |bases| && left == elements - |regions|
      invariant offset == if |regions| == 0 then 0 else Offset(bases, size, |regions| - 1)
      invariant forall i :: 0 <= i < |regions| ==>
        regions[i] == Region(AlignUp(bases[i], size), Offset(bases, size, i), elements - (i + 1))
    {
      var start := bases[|regions|];
      MaskedIsMultiple(start + size, size);
      if start % size != 0 {
        start := Masked(start + size, size);
        offset := start - bases[|regions|];
      }
      left := left - 1;
      regions := regions + [Region(start, offset, left)];
    }
  }

  lemma {:induction false} OffsetIsSmall(bases: seq<nat>, size: nat, i: nat)
    requires i < |bases| && size > 0
    ensures Offset(bases, size, i) < size
  {
    AlignUpIsNear(bases[i], size);
    if bases[i] % size == 0 && i > 0 {
      OffsetIsSmall(bases, size, i - 1);
    }
  }

  /** The area, the control block and the object list of every link lie inside its allocation, which was sized
      before the element for the broadcast counter was taken off. */
  lemma {:induction false} RegionFits(bases: seq<nat>, size: nat, elements: nat, i: nat, control: nat, objectSize: nat)
    requires size > 0 && i < |bases| <= elements
    ensures Offset(bases, size, i) + size + control + (elements - (i + 1)) * objectSize
         <= size * 2 + control + (elements - i) * objectSize
  {
    OffsetIsSmall(bases, size, i);
    assert (elements - i) * objectSize == (elements - (i + 1)) * objectSize + objectSize;
  }

  /** A link's objects are where their physical addresses say exactly when its allocation is not aligned,
      or those of all links before it are aligned too. */
  lemma {:induction false} ConsistentIff(bases: seq<nat>, size: nat, i: nat)
    requires size > 0 && i < |bases|
    ensures bases[i] + Offset(bases, size, i) == AlignUp(bases[i], size)
       <==> bases[i] % size != 0 || forall j :: 0 <= j < i ==> bases[j] % size == 0
  {
    MaskedIsMultiple(bases[i] + size, size);
    if bases[i] % size == 0 {
      OffsetZeroIff(bases, size, i);
    }
  }

  lemma {:induction false} OffsetZeroIff(bases: seq<nat>, size: nat, i: nat)
    requires size > 0 && i < |bases|
    ensures Offset(bases, size, i) == 0 <==> forall j :: 0 <= j <= i ==> bases[j] % size == 0
  {
    AlignUpIsNear(bases[i], size);
    if bases[i] % size != 0 {
      assert AlignUp(bases[i], size) % size == 0;
    } else if i > 0 {
      OffsetZeroIff(bases, size, i - 1);
    }
  }

  /** The byte counter and error word of an object. */
  function Counter(start: nat, k: nat): nat {
    start + k * ELEMENT
  }

  /** The counters of all objects and the broadcast counter lie in the region, apart from each other, and the mask
      test of any of their addresses names the region. */
  lemma {:induction false} CountersInRegion(start: nat, size: nat, objects: nat, j: nat, k: nat)
    requires size > 0 && start % size == 0 && (objects + 1) * ELEMENT <= size && j <= objects && k <= objects
    ensures start <= Counter(start, j) && Counter(start, j) + ELEMENT <= start + size
    ensures j != k ==>
      Counter(start, j) + ELEMENT <= Counter(start, k) || Counter(start, k) + ELEMENT <= Counter(start, j)
    ensures Masked(Counter(start, j), size) == start
  {
    MaskFindsRegion(Counter(start, j), start, size);
  }

  /** `rdma_obj_init`: the objects in order, each with the address of its own counter, on the free list. */
  method RdmaObjInit(list: seq<Pools.Entry>, start: nat) returns (free: Pools.Entry)
    requires list != [] && Pools.NoDup(list)
    modifies list`next, list`prev, list`pa
    ensures Pools.Chain(free, list)
    ensures forall i :: 0 <= i < |list| ==> list[i].pa == Counter(start, i) && list[i].prev == null
  {
    free := list[0];
    var i := 0;
    while i < |list|
      invariant i <= |list|
      invariant forall j :: 0 <= j < i ==>
        list[j].next == Pools.After(list, j) && list[j].prev == null && list[j].pa == Counter(start, j)
    {
      list[i].next := if i + 1 < |list| then list[i + 1] else null;
      list[i].prev := null;
      list[i].pa := start + i * ELEMENT;
      i := i + 1;
    }
  }
}
