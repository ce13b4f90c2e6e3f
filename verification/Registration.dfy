/** `bgvrnic_reg_user_mr`: the DMA pages behind a memory region, coalesced into as few list elements as fit. */
module Registration {
  import opened ScatterGather

  const U32: nat := 0x1_0000_0000
  const EINVAL: int := -22

  /** A DMA segment of whole pages starting at bus address `addr`. */
  datatype Segment = Segment(addr: nat, len: nat)

  predicate WellFormed(segs: seq<Segment>, pageSize: nat) {
    && pageSize > 0
    && forall i :: 0 <= i < |segs| ==>
       segs[i].addr > 0 && 0 < segs[i].len < MAX_SGL_LENGTH && segs[i].len % pageSize == 0
  }

  function Pages(s: Segment, pageSize: nat): nat
    requires pageSize > 0
  {
    s.len / pageSize
  }

  /** The bytes of the pinned pages, in order. */
  ghost function PageBytes(segs: seq<Segment>): seq<nat> {
    if segs == [] then [] else Range(segs[0].addr, segs[0].len) + PageBytes(segs[1..])
  }

  /** The bytes the registration loop offers: page `k` of a segment is offered with the length of the whole segment. */
  ghost function OfferedBytes(segs: seq<Segment>, pageSize: nat): seq<nat>
    requires pageSize > 0
  {
    if segs == [] then [] else OfferedPages(segs[0], 0, pageSize) + OfferedBytes(segs[1..], pageSize)
  }

  ghost function OfferedPages(s: Segment, k: nat, pageSize: nat): seq<nat>
    requires pageSize > 0
    decreases Pages(s, pageSize) - k
  {
    if k >= Pages(s, pageSize) then []
    else OfferedPage(s, k, pageSize) + OfferedPages(s, k + 1, pageSize)
  }

  ghost function OfferedPage(s: Segment, k: nat, pageSize: nat): (page: seq<nat>)
    ensures |page| == s.len
  {
    Range(s.addr + pageSize * k, s.len)
  }

  /** Every segment that ends before the last of the `need` bytes is a single page. */
  predicate SinglePagesBefore(segs: seq<Segment>, pageSize: nat, need: nat) {
    segs == [] || need <= segs[0].len
    || (segs[0].len == pageSize && SinglePagesBefore(segs[1..], pageSize, need - pageSize))
  }

  /** The second page of a segment of several pages is never also the first page of the next segment. */
  predicate DistinctPages(segs: seq<Segment>, pageSize: nat) {
    forall i :: 0 <= i < |segs| - 1 && segs[i].len != pageSize ==> segs[i + 1].addr != segs[i].addr + pageSize
  }

  /** What one segment adds: itself, and then its second page again when it has one. */
  lemma {:induction false} OfferedOnce(s: Segment, pageSize: nat)
    requires pageSize > 0 && s.len > 0 && s.len % pageSize == 0
    ensures s.len == pageSize ==> OfferedPages(s, 0, pageSize) == Range(s.addr, s.len)
    ensures s.len != pageSize ==>
      && s.len < |OfferedPages(s, 0, pageSize)|
      && OfferedPages(s, 0, pageSize)[..s.len] == Range(s.addr, s.len)
      && OfferedPages(s, 0, pageSize)[s.len] == s.addr + pageSize
  {
    assert Pages(s, pageSize) >= 1;
    assert s.len == pageSize * Pages(s, pageSize);
    assert pageSize * 0 == 0 && pageSize * 1 == pageSize;
    var second := OfferedPages(s, 1, pageSize);
    assert OfferedPages(s, 0, pageSize) == Range(s.addr, s.len) + second;
    if s.len == pageSize {
      assert Pages(s, pageSize) == 1;
    } else {
      assert Pages(s, pageSize) > 1;
      assert second == Range(s.addr + pageSize, s.len) + OfferedPages(s, 2, pageSize);
    }
  }

  lemma {:induction false} OfferedAtLeastPages(segs: seq<Segment>, pageSize: nat)
    requires WellFormed(segs, pageSize)
    ensures |OfferedBytes(segs, pageSize)| >= |PageBytes(segs)|
  {
    if segs != [] {
      OfferedOnce(segs[0], pageSize);
      OfferedAtLeastPages(segs[1..], pageSize);
    }
  }

  /** The region's first `need` bytes are offered correctly if and only if
      no segment of several pages ends before the last of them. */
  lemma {:induction false} OfferedIsPagesIff(segs: seq<Segment>, pageSize: nat, need: nat)
    requires WellFormed(segs, pageSize) && DistinctPages(segs, pageSize) && need <= |PageBytes(segs)|
    ensures need <= |OfferedBytes(segs, pageSize)|
    ensures OfferedBytes(segs, pageSize)[..need] == PageBytes(segs)[..need] <==> SinglePagesBefore(segs, pageSize, need)
  {
    OfferedAtLeastPages(segs, pageSize);
    if segs != [] {
      var s, rest := segs[0], segs[1..];
      var offered, pages := OfferedBytes(segs, pageSize), PageBytes(segs);
      OfferedOnce(s, pageSize);
      assert offered[..s.len] == Range(s.addr, s.len) == pages[..s.len];
      if need <= s.len {
        assert offered[..need] == offered[..s.len][..need] && pages[..need] == pages[..s.len][..need];
      } else if s.len == pageSize {
        OfferedIsPagesIff(rest, pageSize, need - s.len);
        var o, p := OfferedBytes(rest, pageSize)[..need - s.len], PageBytes(rest)[..need - s.len];
        assert offered[..need] == Range(s.addr, s.len) + o && pages[..need] == Range(s.addr, s.len) + p;
        CancelPrefix(Range(s.addr, s.len), o, p);
      } else {
        assert pages[s.len] == PageBytes(rest)[0] == rest[0].addr == segs[1].addr;
        assert offered[..need][s.len] != pages[..need][s.len];
      }
    }
  }

  lemma {:induction false} CancelPrefix<T>(p: seq<T>, a: seq<T>, b: seq<T>)
    ensures p + a == p + b <==> a == b
  {
    if p + a == p + b {
      assert a == (p + a)[|p|..] && b == (p + b)[|p|..];
    }
  }

  // ----- The registration loop -----

  predicate ContinuesLast(list: seq<Sge>, addr: nat, len: Length)
    requires list != []
  {
    var last := list[|list| - 1];
    last.pa + last.len == addr && last.len + len < MAX_SGL_LENGTH
  }

  /** A page joins the last element when it continues it and the sum still fits; otherwise it starts a new element. */
  function AddPage(list: seq<Sge>, addr: nat, len: Length): seq<Sge> {
    if list != [] && ContinuesLast(list, addr, len) then
      var last := list[|list| - 1];
      list[..|list| - 1] + [Sge(last.pa, last.len + len)]
    else
      list + [Sge(addr, len)]
  }

  lemma {:induction false} FlattenOne(pa: nat, len: Length)
    requires pa > 0
    ensures Flatten([Sge(pa, len)]) == Range(pa, len)
  {
    assert Flatten([Sge(pa, len)]) == Range(pa, len) + Flatten([]);
  }

  lemma {:induction false} GrowLast(front: seq<Sge>, last: Sge, len: Length)
    requires NonNull(front) && last.pa > 0 && last.len + len < MAX_SGL_LENGTH
    ensures Flatten(front + [Sge(last.pa, last.len + len)]) == Flatten(front + [last]) + Range(last.pa + last.len, len)
  {
    FlattenAppend(front, [last]);
    FlattenAppend(front, [Sge(last.pa, last.len + len)]);
    FlattenOne(last.pa, last.len);
    FlattenOne(last.pa, last.len + len);
    RangeSplit(last.pa, last.len, len);
    Associates(Flatten(front), Range(last.pa, last.len), Range(last.pa + last.len, len));
  }

  lemma {:induction false} NewLast(list: seq<Sge>, addr: nat, len: Length)
    requires NonNull(list) && addr > 0
    ensures Flatten(list + [Sge(addr, len)]) == Flatten(list) + Range(addr, len)
  {
    FlattenOne(addr, len);
    FlattenAppend(list, [Sge(addr, len)]);
  }

  lemma {:induction false} LongerLast(list: seq<Sge>, addr: nat, len: Length)
    requires NonNull(list) && list != [] && ContinuesLast(list, addr, len)
    ensures var last := list[|list| - 1];
            Flatten(list[..|list| - 1] + [Sge(last.pa, last.len + len)]) == Flatten(list) + Range(addr, len)
  {
    var front, last := list[..|list| - 1], list[|list| - 1];
    assert list == front + [last];
    GrowLast(front, last, len);
  }

  /** Coalescing adds exactly the page's bytes. */
  lemma {:induction false} AddPageFlattens(list: seq<Sge>, addr: nat, len: Length)
    requires NonNull(list) && addr > 0
    ensures NonNull(AddPage(list, addr, len))
    ensures Flatten(AddPage(list, addr, len)) == Flatten(list) + Range(addr, len)
  {
    if list != [] && ContinuesLast(list, addr, len) {
      LongerLast(list, addr, len);
    } else {
      NewLast(list, addr, len);
    }
  }

  /** No element continues the one before it and would fit into it. */
  predicate Tight(list: seq<Sge>) {
    forall i :: 0 < i < |list| ==>
      list[i - 1].pa + list[i - 1].len != list[i].pa || list[i - 1].len + list[i].len >= 0x1000_0000
  }

  lemma {:induction false} AddPageTight(list: seq<Sge>, addr: nat, len: Length)
    requires Tight(list)
    ensures Tight(AddPage(list, addr, len))
  {
    var list' := AddPage(list, addr, len);
    forall i | 0 < i < |list'|
      ensures list'[i - 1].pa + list'[i - 1].len != list'[i].pa || list'[i - 1].len + list'[i].len >= 0x1000_0000
    {
      assert list'[i - 1] == list[i - 1];
    }
  }

  method StorePage(sge: array<Sge>, num: nat, addr: nat, len: Length) returns (num': nat)
    requires num < sge.Length
    modifies sge
    ensures num' <= sge.Length && num' <= num + 1 && num' > 0
    ensures sge[..num'] == AddPage(old(sge[..num]), addr, len)
  {
    if num == 0 || sge[num - 1].pa + sge[num - 1].len != addr || sge[num - 1].len + len >= MAX_SGL_LENGTH {
      sge[num] := Sge(addr, len);
      num' := num + 1;
    } else {
      sge[num - 1] := Sge(sge[num - 1].pa, sge[num - 1].len + len);
      num' := num;
    }
  }

  /** How many elements the table must have room for: one per page. */
  function PageCount(segs: seq<Segment>, pageSize: nat): nat
    requires pageSize > 0
  {
    if segs == [] then 0 else Pages(segs[0], pageSize) + PageCount(segs[1..], pageSize)
  }

  lemma {:induction false} PagesCounted(segs: seq<Segment>, pageSize: nat)
    requires WellFormed(segs, pageSize)
    ensures PageCount(segs, pageSize) * pageSize == |PageBytes(segs)|
  {
    if segs != [] {
      PagesCounted(segs[1..], pageSize);
      assert Pages(segs[0], pageSize) * pageSize == segs[0].len;
      assert (Pages(segs[0], pageSize) + PageCount(segs[1..], pageSize)) * pageSize
          == Pages(segs[0], pageSize) * pageSize + PageCount(segs[1..], pageSize) * pageSize;
    }
  }

  lemma {:induction false} FewPages(segs: seq<Segment>, pageSize: nat, n: nat)
    requires WellFormed(segs, pageSize) && |PageBytes(segs)| < n * pageSize
    ensures PageCount(segs, pageSize) < n
  {
    PagesCounted(segs, pageSize);
    if PageCount(segs, pageSize) >= n {
      assert PageCount(segs, pageSize) * pageSize
          == n * pageSize + (PageCount(segs, pageSize) - n) * pageSize;
    }
  }

  /** The list holds the first bytes offered from `offset` on, up to `length` of them. */
  ghost predicate Holds(list: seq<Sge>, toMap: nat, seen: seq<nat>, length: nat) {
    && NonNull(list) && Tight(list)
    && toMap == length - Min(length, |seen|)
    && Flatten(list) == seen[..Min(length, |seen|)]
  }

  lemma {:induction false} HoldsStep(list: seq<Sge>, toMap: nat, seen: seq<nat>, length: nat, addr: nat, len: Length)
    requires Holds(list, toMap, seen, length) && addr > 0
    ensures Holds(AddPage(list, addr, Min(len, toMap)), toMap - Min(len, toMap), seen + Range(addr, len), length)
  {
    AddPageTight(list, addr, Min(len, toMap));
    AddPageFlattens(list, addr, Min(len, toMap));
    var seen' := seen + Range(addr, len);
    assert seen[..Min(length, |seen|)] + Range(addr, Min(len, toMap)) == seen'[..Min(length, |seen'|)];
  }

  /** What has been offered so far without the cut at `offset`, and what has been seen of the region. */
  ghost predicate Offered(all: seq<nat>, head: seq<nat>, left: seq<nat>, seen: seq<nat>, offset: nat) {
    && all == head + left
    && (head != [] ==> offset <= |head|)
    && seen == (if head == [] then [] else head[offset..])
  }

  lemma {:induction false} OfferedStep(all: seq<nat>, head: seq<nat>, page: seq<nat>, left: seq<nat>, seen: seq<nat>,
                                       offset: nat)
    requires Offered(all, head, page + left, seen, offset) && offset < |page|
    ensures Offered(all, head + page, left, seen + (if head == [] then page[offset..] else page), offset)
  {
    assert head + (page + left) == (head + page) + left;
  }

  lemma {:induction false} NextPage(s: Segment, k: nat, pageSize: nat,
                                    all: seq<nat>, head: seq<nat>, rest: seq<nat>, seen: seq<nat>, offset: nat)
    requires offset < pageSize <= s.len && k < Pages(s, pageSize)
    requires Offered(all, head, OfferedPages(s, k, pageSize) + rest, seen, offset)
    ensures var page := OfferedPage(s, k, pageSize);
            Offered(all, head + page, OfferedPages(s, k + 1, pageSize) + rest,
                    seen + (if head == [] then page[offset..] else page), offset)
  {
    var page, left := OfferedPage(s, k, pageSize), OfferedPages(s, k + 1, pageSize) + rest;
    assert OfferedPages(s, k, pageSize) + rest == page + left;
    OfferedStep(all, head, page, left, seen, offset);
  }

  /** One page of the registration loop. */
  method RegPage(table: array<Sge>, num: nat, toMap: nat, s: Segment, k: nat, pageSize: nat, offset: nat,
                 ghost seen: seq<nat>, ghost length: nat)
    returns (num': nat, toMap': nat, ghost seen': seq<nat>)
    requires num < table.Length && Holds(table[..num], toMap, seen, length)
    requires s.addr > 0 && offset < pageSize <= s.len < MAX_SGL_LENGTH
    modifies table
    ensures 0 < num' <= num + 1 && num' <= table.Length && Holds(table[..num'], toMap', seen', length)
    ensures seen' == seen + (if num == 0 then OfferedPage(s, k, pageSize)[offset..] else OfferedPage(s, k, pageSize))
  {
    var address, pLen := s.addr + pageSize * k, s.len;
    ghost var page := OfferedPage(s, k, pageSize);
    if num == 0 {
      address, pLen := address + offset, pLen - offset;
      assert Range(address, pLen) == page[offset..];
    }
    HoldsStep(table[..num], toMap, seen, length, address, pLen);
    seen' := seen + Range(address, pLen);
    num' := StorePage(table, num, address, Min(pLen, toMap));
    toMap' := toMap - Min(pLen, toMap);
  }

  /** All pages of one segment. */
  method RegSegment(table: array<Sge>, num: nat, toMap: nat, s: Segment, pageSize: nat, offset: nat, ghost length: nat,
                    ghost all: seq<nat>, ghost head: seq<nat>, ghost rest: seq<nat>, ghost seen: seq<nat>)
    returns (num': nat, toMap': nat, ghost head': seq<nat>, ghost seen': seq<nat>)
    requires s.addr > 0 && offset < pageSize <= s.len < MAX_SGL_LENGTH
    requires num + Pages(s, pageSize) <= table.Length && (num == 0 <==> head == [])
    requires Holds(table[..num], toMap, seen, length)
      && Offered(all, head, OfferedPages(s, 0, pageSize) + rest, seen, offset)
    modifies table
    ensures num' <= num + Pages(s, pageSize) && num' <= table.Length && num' > 0 && head' != []
    ensures Holds(table[..num'], toMap', seen', length) && Offered(all, head', rest, seen', offset)
  {
    var k := 0;
    num', toMap', head', seen' := num, toMap, head, seen;
    assert Pages(s, pageSize) > 0;
    while k < Pages(s, pageSize)
      invariant k <= Pages(s, pageSize) && (num' == 0 <==> head' == []) && (k > 0 ==> num' > 0) && num' <= num + k
      invariant Holds(table[..num'], toMap', seen', length)
      invariant Offered(all, head', OfferedPages(s, k, pageSize) + rest, seen', offset)
    {
      NextPage(s, k, pageSize, all, head', rest, seen', offset);
      head' := head' + OfferedPage(s, k, pageSize);
      num', toMap', seen' := RegPage(table, num', toMap', s, k, pageSize, offset, seen', length);
      k := k + 1;
    }
    assert OfferedPages(s, k, pageSize) + rest == rest;
  }

  lemma {:induction false} SegmentHasAPage(s: Segment, pageSize: nat)
    requires pageSize > 0 && s.len > 0 && s.len % pageSize == 0
    ensures pageSize <= s.len
  {
  }

  /** The loop over the segments, for a byte count that fits in 32 bits. */
  method MapSegments(segs: seq<Segment>, pageSize: nat, offset: nat, want: nat) returns (sge: seq<Sge>)
    requires WellFormed(segs, pageSize) && offset < pageSize && segs != []
    ensures NonNull(sge) && Tight(sge) && |sge| <= PageCount(segs, pageSize)
    ensures var offered := OfferedBytes(segs, pageSize);
            offset <= |offered| && Flatten(sge) == offered[offset..][..Min(want, |offered| - offset)]
  {
    var table := new Sge[PageCount(segs, pageSize)];
    var num, j := 0, 0;
    var toMap := want;
    ghost var head: seq<nat>, seen: seq<nat> := [], [];
    ghost var all := OfferedBytes(segs, pageSize);
    while j < |segs|
      invariant j <= |segs| && num + PageCount(segs[j..], pageSize) <= table.Length && (num == 0 <==> head == [])
        && (j > 0 ==> num > 0)
      invariant Holds(table[..num], toMap, seen, want)
      invariant Offered(all, head, OfferedBytes(segs[j..], pageSize), seen, offset)
    {
      assert segs[j..][1..] == segs[j + 1..];
      SegmentHasAPage(segs[j], pageSize);
      num, toMap, head, seen := RegSegment(table, num, toMap, segs[j], pageSize, offset, want,
                                           all, head, OfferedBytes(segs[j + 1..], pageSize), seen);
      j := j + 1;
    }
    assert segs[j..] == [] && all == head;
    sge := table[..num];
  }

  /** What registering leaves: the first bytes offered from the offset on, up to the 32-bit byte count. */
  ghost predicate RegionOf(sge: seq<Sge>, segs: seq<Segment>, pageSize: nat, offset: nat, length: nat)
    requires pageSize > 0
  {
    var offered := OfferedBytes(segs, pageSize);
    NonNull(sge) && offset <= |offered| && Flatten(sge) == offered[offset..][..Min(length % U32, |offered| - offset)]
  }

  /** Registers `length` bytes starting `offset` bytes into the pinned pages; the byte count is kept in 32 bits. */
  method RegUserMr(segs: seq<Segment>, pageSize: nat, offset: nat, length: nat) returns (rc: int, sge: seq<Sge>)
    requires WellFormed(segs, pageSize) && offset < pageSize && segs != []
    ensures if length == 0 then rc == EINVAL && sge == [] else rc == 0
    ensures length > 0 ==> RegionOf(sge, segs, pageSize, offset, length)
    ensures Tight(sge) && |sge| <= PageCount(segs, pageSize)
  {
    if length == 0 {
      return EINVAL, [];
    }
    sge := MapSegments(segs, pageSize, offset, length % U32);
    rc := 0;
  }

  lemma {:induction false} EqualFrom<T>(a: seq<T>, b: seq<T>, lo: nat, hi: nat)
    requires lo <= hi <= |a| && hi <= |b| && a[..lo] == b[..lo]
    ensures a[..hi] == b[..hi] <==> a[lo..hi] == b[lo..hi]
  {
    assert a[..hi] == a[..lo] + a[lo..hi];
    assert b[..hi] == b[..lo] + b[lo..hi];
    CancelPrefix(a[..lo], a[lo..hi], b[lo..hi]);
  }

  /** What is offered for a region is the region, byte for byte, exactly when only the segment holding its end has
      several pages. */
  lemma {:induction false} OfferedFromIsPagesIff(segs: seq<Segment>, pageSize: nat, offset: nat, length: nat)
    requires WellFormed(segs, pageSize) && DistinctPages(segs, pageSize) && segs != []
    requires offset < pageSize && offset + length <= |PageBytes(segs)|
    ensures offset + length <= |OfferedBytes(segs, pageSize)|
    ensures OfferedBytes(segs, pageSize)[offset..offset + length] == PageBytes(segs)[offset..offset + length]
       <==> SinglePagesBefore(segs, pageSize, offset + length)
  {
    SegmentHasAPage(segs[0], pageSize);
    OfferedIsPagesIff(segs, pageSize, offset + length);
    OfferedIsPagesIff(segs, pageSize, offset);
    EqualFrom(OfferedBytes(segs, pageSize), PageBytes(segs), offset, offset + length);
  }

  lemma {:induction false} CutTo32Bits(bytes: seq<nat>, all: seq<nat>, offset: nat, length: nat)
    requires offset + length <= |all| && bytes == all[offset..][..Min(length % U32, |all| - offset)]
    ensures if length < U32 then bytes == all[offset..offset + length] else |bytes| < length
  {
  }

  /** A registered region is its pinned bytes if and only if its length fits the 32-bit byte count and only the
      segment that holds its end has several pages. */
  lemma {:induction false} RegisteredIsPinnedIff(sge: seq<Sge>, segs: seq<Segment>, pageSize: nat, offset: nat,
                                                 length: nat)
    requires WellFormed(segs, pageSize) && DistinctPages(segs, pageSize) && segs != []
    requires offset < pageSize && 0 < length && offset + length <= |PageBytes(segs)|
    requires RegionOf(sge, segs, pageSize, offset, length)
    ensures Flatten(sge) == PageBytes(segs)[offset..offset + length]
       <==> length < U32 && SinglePagesBefore(segs, pageSize, offset + length)
  {
    OfferedFromIsPagesIff(segs, pageSize, offset, length);
    CutTo32Bits(Flatten(sge), OfferedBytes(segs, pageSize), offset, length);
    assert |PageBytes(segs)[offset..offset + length]| == length;
  }
}
