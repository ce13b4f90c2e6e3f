/** From pinned user pages on one node to pinned user pages on the other. */
module EndToEnd {
  import opened ScatterGather
  import opened Registration
  import opened Translation
  import opened RdmaWalk
  import opened RdmaTransfer

  /** Elements of the tables that the driver translates into. */
  const MAX_SGE: nat := 58

  /** A user buffer: its DMA segments, the part of them that is registered, and the user address of that part. */
  datatype UserBuffer = UserBuffer(segs: seq<Segment>, pageSize: nat, offset: nat, length: nat, start: nat)

  /** The buffer can be registered as a whole: its length fits 32 bits and only the segment holding its end has several
      pages. */
  ghost predicate Whole(b: UserBuffer) {
    && b.segs != [] && WellFormed(b.segs, b.pageSize) && DistinctPages(b.segs, b.pageSize)
    && b.offset < b.pageSize && 0 < b.length < RdmaWalk.U32 && b.offset + b.length <= |PageBytes(b.segs)|
    && SinglePagesBefore(b.segs, b.pageSize, b.offset + b.length)
  }

  /** Two neighbouring pages, which registering coalesces into one element, are such a buffer. */
  lemma {:induction false} NeighbouringPagesAreWhole(addr: nat, pageSize: nat, start: nat)
    requires addr > 0 && 0 < pageSize < MAX_SGL_LENGTH
    ensures var segs := [Segment(addr, pageSize), Segment(addr + pageSize, pageSize)];
            Whole(UserBuffer(segs, pageSize, 0, 2 * pageSize, start))
    ensures AddPage([Sge(addr, pageSize)], addr + pageSize, pageSize)
         == if 2 * pageSize < MAX_SGL_LENGTH then [Sge(addr, 2 * pageSize)]
            else [Sge(addr, pageSize), Sge(addr + pageSize, pageSize)]
  {
    var second := Segment(addr + pageSize, pageSize);
    var segs := [Segment(addr, pageSize), second];
    assert segs[1..] == [second] && [second][1..] == [];
    assert PageBytes([second]) == Range(second.addr, second.len) + PageBytes([]);
    assert pageSize % pageSize == 0;
  }

  /** What `bgvrnic_reg_user_mr` leaves for such a buffer. */
  ghost predicate Registered(b: UserBuffer, sge: seq<Sge>) {
    Whole(b) && RegionOf(sge, b.segs, b.pageSize, b.offset, b.length)
  }

  predicate InBuffer(u: UserSge, b: UserBuffer) {
    b.start <= u.addr && 0 < u.length && u.addr + u.length <= b.start + b.length
  }

  /** The pinned bytes of a buffer. */
  ghost function PinnedBytes(b: UserBuffer): (bytes: seq<nat>)
    requires Whole(b)
    ensures |bytes| == b.length
  {
    PageBytes(b.segs)[b.offset..b.offset + b.length]
  }

  /** The part of a region's bytes that a user range names. */
  ghost function Part(bytes: seq<nat>, u: UserSge, start: nat): seq<nat>
    requires start <= u.addr && u.addr + u.length <= start + |bytes|
  {
    bytes[u.addr - start..u.addr - start + u.length]
  }

  /** The pinned bytes behind a user range. */
  ghost function BytesBehind(u: UserSge, b: UserBuffer): seq<nat>
    requires Whole(b) && InBuffer(u, b)
  {
    Part(PinnedBytes(b), u, b.start)
  }

  lemma {:induction false} RegionIsPinned(b: UserBuffer, sge: seq<Sge>)
    requires Registered(b, sge)
    ensures NonNull(sge) && Total(sge) == b.length
    ensures Flatten(sge) == PinnedBytes(b)
  {
    RegisteredIsPinnedIff(sge, b.segs, b.pageSize, b.offset, b.length);
    FlattenLength(sge);
  }

  lemma {:induction false} StartsInside(list: seq<Sge>, off: nat)
    requires NonNull(list) && off < Total(list)
    ensures Starts(list, off)
  {
    if off >= list[0].len {
      StartsInside(list[1..], off - list[0].len);
    }
  }

  /** A range inside a region translates to its part of the region's bytes. */
  lemma {:induction false} RangePieces(sge: seq<Sge>, bytes: seq<nat>, start: nat, u: UserSge)
    requires NonNull(sge) && Flatten(sge) == bytes && |bytes| < RdmaWalk.U32
    requires start <= u.addr && 0 < u.length && u.addr + u.length <= start + |bytes|
    ensures var mr := Region(start, sge);
            && Starts(sge, Offset(u, mr)) && NonNull(PiecesOf(u, mr)) && Total(PiecesOf(u, mr)) == u.length
            && Flatten(PiecesOf(u, mr)) == Part(bytes, u, start)
  {
    var off := u.addr - start;
    FlattenLength(sge);
    assert Offset(u, Region(start, sge)) == off;
    StartsInside(sge, off);
    PiecesFlatten(sge, off, u.length);
    FlattenLength(Pieces(sge, off, u.length));
  }

  /** A range of a registered buffer translates to its pinned bytes. */
  lemma {:induction false} TranslatedIsPinned(b: UserBuffer, sge: seq<Sge>, u: UserSge)
    requires Registered(b, sge) && InBuffer(u, b)
    ensures var mr := Region(b.start, sge);
            && Starts(mr.sge, Offset(u, mr)) && NonNull(PiecesOf(u, mr))
            && Flatten(PiecesOf(u, mr)) == BytesBehind(u, b) && Total(PiecesOf(u, mr)) == u.length
  {
    RegionIsPinned(b, sge);
    RangePieces(sge, PinnedBytes(b), b.start, u);
  }

  /** A list that covers a request is walked safely and completely, whatever lies behind it in memory. */
  lemma {:induction false} CoveringPrefix(list: seq<Sge>, junk: seq<Sge>, n: nat, total: nat)
    requires NonNull(list) && total < n <= WALK_LIMIT && n - total <= Total(list)
    ensures Safe(list + junk, n, total)
    ensures n - total == Total(list) ==> Boundary(list + junk, n - total)
  {
    assert (list + junk)[1..] == list[1..] + junk;
    if total + list[0].len < n {
      CoveringPrefix(list[1..], junk, n, total + list[0].len);
    }
  }

  lemma {:induction false} CopiesPrefixOf(puts: seq<Put>, src: seq<nat>, dst: seq<nat>, src': seq<nat>, dst': seq<nat>,
                                          n: nat)
    requires Copies(puts, src + src', dst + dst', n) && n <= |src| && n <= |dst|
    ensures Copies(puts, src, dst, n)
  {
  }

  /** Two lists of which one ends with the request and the other covers it. */
  predicate Fits(la: seq<Sge>, lb: seq<Sge>, n: nat) {
    NonNull(la) && NonNull(lb) && 0 < n <= WALK_LIMIT && n == Min(Total(la), Total(lb))
  }

  lemma {:induction false} ListsEnd(la: seq<Sge>, junkA: seq<Sge>, lb: seq<Sge>, junkB: seq<Sge>, n: nat)
    requires Fits(la, lb, n)
    ensures Safe(la + junkA, n, 0) && Safe(lb + junkB, n, 0) && Walk(la + junkA, lb + junkB, n, 0).total == n
    ensures n <= Total(la + junkA) && n <= Total(lb + junkB)
  {
    CoveringPrefix(la, junkA, n, 0);
    CoveringPrefix(lb, junkB, n, 0);
    FlattenAppend(la, junkA);
    FlattenAppend(lb, junkB);
    WalkEnds(la + junkA, lb + junkB, n, 0);
  }

  /** When the request ends with one list and the other covers it, the walk completes it, whatever lies behind the
      lists. */
  lemma {:induction false} ListsCopy(la: seq<Sge>, junkA: seq<Sge>, lb: seq<Sge>, junkB: seq<Sge>, n: nat, t: Trace)
    requires Fits(la, lb, n) && t == Walk(la + junkA, lb + junkB, n, 0)
    ensures t.total == n && Copies(t.puts, Flatten(la), Flatten(lb), n)
  {
    ListsEnd(la, junkA, lb, junkB, n);
    WalkCopies(la + junkA, lb + junkB, n, 0);
    FlattenAppend(la, junkA);
    FlattenAppend(lb, junkB);
    FlattenLength(la);
    FlattenLength(lb);
    CopiesPrefixOf(t.puts, Flatten(la), Flatten(lb), Flatten(junkA), Flatten(junkB), n);
  }

  /** Registering on both nodes, translating one range on each and walking the two lists
      copies byte i of the one user range to byte i of the other, for every i. */
  lemma {:induction false} CopyPinnedRange(a: UserBuffer, sgeA: seq<Sge>, ua: UserSge, b: UserBuffer, sgeB: seq<Sge>,
                                           ub: UserSge, junkA: seq<Sge>, junkB: seq<Sge>, t: Trace)
    requires Registered(a, sgeA) && InBuffer(ua, a) && Registered(b, sgeB) && InBuffer(ub, b)
    requires ua.length == ub.length <= WALK_LIMIT
    requires t == Walk(PiecesOf(ua, Region(a.start, sgeA)) + junkA, PiecesOf(ub, Region(b.start, sgeB)) + junkB,
                       ua.length, 0)
    ensures t.total == ua.length && Copies(t.puts, BytesBehind(ua, a), BytesBehind(ub, b), ua.length)
  {
    TranslatedIsPinned(a, sgeA, ua);
    TranslatedIsPinned(b, sgeB, ub);
    ListsCopy(PiecesOf(ua, Region(a.start, sgeA)), junkA, PiecesOf(ub, Region(b.start, sgeB)), junkB, ua.length, t);
  }

  /** The same for lists of ranges on both sides, as a send and its receive entry have them:
      the request is cut to the shorter side. */
  lemma {:induction false} CopyUserRanges(mrsA: map<nat, Region>, usA: seq<UserSge>, mrsB: map<nat, Region>,
                                          usB: seq<UserSge>, cap: nat, junkA: seq<Sge>, junkB: seq<Sge>, n: nat,
                                          t: Trace)
    requires AllInRange(usA, mrsA) && AllInRange(usB, mrsB)
    requires Translate(mrsA, usA, cap, []).Stored? && Translate(mrsB, usB, cap, []).Stored?
    requires 0 < n == Min(SumLengths(usA), SumLengths(usB)) <= WALK_LIMIT
    requires t == Walk(Translate(mrsA, usA, cap, []).elements + junkA, Translate(mrsB, usB, cap, []).elements + junkB,
                       n, 0)
    ensures t.total == n && Copies(t.puts, UserBytes(usA, mrsA), UserBytes(usB, mrsB), n)
  {
    var la, lb := Translate(mrsA, usA, cap, []).elements, Translate(mrsB, usB, cap, []).elements;
    TranslateFlattens(mrsA, usA, cap, []);
    TranslateFlattens(mrsB, usB, cap, []);
    assert Flatten(la) == UserBytes(usA, mrsA) && Flatten(lb) == UserBytes(usB, mrsB);
    FlattenLength(la);
    FlattenLength(lb);
    ListsCopy(la, junkA, lb, junkB, n, t);
  }

  // ----- The calls, one after the other -----

  lemma {:induction false} OneRange(mrs: map<nat, Region>, u: UserSge, cap: nat)
    requires u.lkey in mrs && Starts(mrs[u.lkey].sge, Offset(u, mrs[u.lkey])) && cap > 0
    ensures Translate(mrs, [u], cap, [])
         == if |PiecesOf(u, mrs[u.lkey])| >= cap then TableFull else Stored(PiecesOf(u, mrs[u.lkey]))
  {
    assert [u][1..] == [] && [] + PiecesOf(u, mrs[u.lkey]) == PiecesOf(u, mrs[u.lkey]);
  }

  /** `bgvrnic_xlate_sgl` for one range: the length comes back, unless the table is too small. */
  method TranslateOne(mr: Region, u: UserSge) returns (table: array<Sge>, ok: bool, rc: int)
    requires Starts(mr.sge, Offset(u, mr)) && u.length <= WALK_LIMIT
    ensures fresh(table) && table.Length == MAX_SGE && (ok <==> |PiecesOf(u, mr)| < MAX_SGE)
    ensures ok ==> table[..|PiecesOf(u, mr)|] == PiecesOf(u, mr) && Wraps(rc, u.length)
  {
    table := new Sge[MAX_SGE](_ => Sge(0, 0));
    OneRange(map[u.lkey := mr], u, MAX_SGE);
    assert SumLengths([u]) == u.length + SumLengths([]);
    var r := XlateSgl(map[u.lkey := mr], [u], table, MAX_SGE);
    ok, rc := false, 0;
    if r.Returned? {
      ok, rc := (r.rc - u.length) % 0x1_0000_0000 == 0, r.rc;
    }
  }

  /** `bgvrnic_reg_user_mr` for a buffer and `bgvrnic_xlate_sgl` for a range of it, which needs no more elements
      than the buffer has pages. */
  method Prepare(b: UserBuffer, u: UserSge) returns (table: array<Sge>, ok: bool, rc: int, ghost list: seq<Sge>)
    requires Whole(b) && InBuffer(u, b) && u.length <= WALK_LIMIT
    ensures fresh(table) && table.Length == MAX_SGE && (ok <==> |list| < MAX_SGE)
    ensures NonNull(list) && Flatten(list) == BytesBehind(u, b) && Total(list) == u.length
    ensures |list| <= PageCount(b.segs, b.pageSize) && (ok ==> table[..|list|] == list && Wraps(rc, u.length))
  {
    var error, sge := RegUserMr(b.segs, b.pageSize, b.offset, b.length);
    TranslatedIsPinned(b, sge, u);
    var mr := Region(b.start, sge);
    list := PiecesOf(u, mr);
    PiecesAreFew(sge, Offset(u, mr), u.length);
    table, ok, rc := TranslateOne(mr, u);
  }

  lemma {:induction false} Tables(ta: seq<Sge>, la: seq<Sge>, tb: seq<Sge>, lb: seq<Sge>, n: nat)
    requires Fits(la, lb, n) && |la| <= |ta| && ta[..|la|] == la && |lb| <= |tb| && tb[..|lb|] == lb
    ensures Safe(ta, n, 0) && Safe(tb, n, 0)
    ensures var t := Walk(ta, tb, n, 0);
            t.total == n && Kept(t, n) == t.puts && Copies(t.puts, Flatten(la), Flatten(lb), n)
  {
    assert ta == la + ta[|la|..] && tb == lb + tb[|lb|..];
    ListsEnd(la, ta[|la|..], lb, tb[|lb|..], n);
    ListsCopy(la, ta[|la|..], lb, tb[|lb|..], n, Walk(ta, tb, n, 0));
  }

  /** The length that comes back as a signed integer, as the 64-bit length of the request it becomes. */
  function Widened(rc: int): nat
    requires -0x8000_0000 <= rc
  {
    if rc < 0 then rc + 0x1_0000_0000_0000_0000 else rc
  }

  /** A range's own elements are never read past as the request is walked, if and only if the range has less than 2^31
      bytes: the length of a longer one is negative on its way and becomes a request that no list covers. */
  lemma {:induction false} RequestIsCoveredIff(list: seq<Sge>, length: nat, rc: int)
    requires NonNull(list) && Total(list) == length && 0 < length <= WALK_LIMIT && Wraps(rc, length)
    ensures Widened(rc) == length <==> length < 0x8000_0000
    ensures Safe(list, Widened(rc), 0) <==> length < 0x8000_0000
  {
    WrapsIff(rc, length);
    if length < 0x8000_0000 {
      CoveringIsSafe(list, length, 0);
    } else {
      NeverSafe(list, Widened(rc), 0);
    }
  }

  /** A walk for more bytes than its 32-bit total can count only ends at a null address. */
  lemma {:induction false} NeverSafe(list: seq<Sge>, n: nat, total: nat)
    requires NonNull(list) && total < 0x1_0000_0000 <= n
    ensures !Safe(list, n, total)
  {
    if list != [] {
      NeverSafe(list[1..], n, Add32(total, list[0].len));
    }
  }

  /** Both nodes register and translate, and the one that answers the request writes over the two tables: the write
      succeeds, and its puts send byte i of the one user range to byte i of the other, for every i. A range that needs
      more elements than a table has stops the kernel before; no range of a buffer with fewer pages than that does. The
      length that translation returns becomes the request, which fails for ranges from 2^31 bytes on
      (`RequestIsCoveredIff`). */
  method CopyRange(fifo: InjFifo, a: UserBuffer, ua: UserSge, b: UserBuffer, ub: UserSge, counter: nat,
                   errorSource: nat)
    returns (ok: bool, rc: int, ghost puts: seq<Put>)
    requires Whole(a) && InBuffer(ua, a) && Whole(b) && InBuffer(ub, b) && ua.length == ub.length < 0x8000_0000
    modifies fifo`injected
    ensures |PageBytes(a.segs)| < MAX_SGE * a.pageSize && |PageBytes(b.segs)| < MAX_SGE * b.pageSize ==> ok
    ensures ok ==> rc == 0 && Copies(puts, BytesBehind(ua, a), BytesBehind(ub, b), ua.length)
    ensures fifo.injected == old(fifo.injected) + IfActive(ok && fifo.active, Puts(puts, counter))
  {
    if |PageBytes(a.segs)| < MAX_SGE * a.pageSize && |PageBytes(b.segs)| < MAX_SGE * b.pageSize {
      FewPages(a.segs, a.pageSize, MAX_SGE);
      FewPages(b.segs, b.pageSize, MAX_SGE);
    }
    var local, okA, length, la := Prepare(a, ua);
    var remote, okB, _, lb := Prepare(b, ub);
    ok, rc, puts := okA && okB, 0, [];
    if ok {
      Tables(local[..], la, remote[..], lb, ua.length);
      puts := Walk(local[..], remote[..], ua.length, 0).puts;
      WrapsIff(length, ua.length);
      rc := RdmaWrite(fifo, local, remote, Widened(length), counter, errorSource);
    }
  }
}
