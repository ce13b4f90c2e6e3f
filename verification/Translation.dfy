/** `bgvrnic_xlate_sgl`: user ranges inside registered regions, turned into physical list elements. */
module Translation {
  import opened ScatterGather

  const E2BIG: int := -7
  const ENOMEM: int := -12
  const INT32: int := 0x8000_0000
  const U64: nat := 0x1_0000_0000_0000_0000

  /** A registered region: the user address it starts at and the elements behind it. */
  datatype Region = Region(start: nat, sge: seq<Sge>)

  /** A user range: address, 32-bit length and the key of its region. */
  datatype UserSge = UserSge(addr: nat, length: nat, lkey: nat)

  /** Where a range starts in its region, in 64-bit arithmetic. */
  function Offset(u: UserSge, mr: Region): nat {
    (u.addr - mr.start) % U64
  }

  /** The search for byte `off` of the list finds an element, which may be an empty one behind its last byte. */
  predicate Starts(list: seq<Sge>, off: nat) {
    list != [] && (off == 0 || off < list[0].len || Starts(list[1..], off - list[0].len))
  }

  /** A range that starts inside its region and does not reach past its end. */
  predicate InRange(u: UserSge, mr: Region) {
    NonNull(mr.sge) && Starts(mr.sge, Offset(u, mr)) && Offset(u, mr) + u.length <= Total(mr.sge)
  }

  predicate AllInRange(us: seq<UserSge>, mrs: map<nat, Region>) {
    forall i :: 0 <= i < |us| && us[i].lkey in mrs ==> InRange(us[i], mrs[us[i].lkey])
  }

  /** The elements that cover `len` bytes from `list` on. */
  function Cover(list: seq<Sge>, len: nat): seq<Sge>
    decreases |list|, 0
  {
    if len == 0 || list == [] then [] else CoverFrom(list, len)
  }

  /** The same, but the first element is always taken, cut to the length. */
  function CoverFrom(list: seq<Sge>, len: nat): seq<Sge>
    requires list != []
    decreases |list|, 0, 0
  {
    if list[0].len > len then [Sge(list[0].pa, len)] else [list[0]] + Cover(list[1..], len - list[0].len)
  }

  /** The elements for one range: skip to the element holding its start, cut that one, and cover the rest. */
  function Pieces(list: seq<Sge>, off: nat, len: nat): seq<Sge> {
    if list == [] then []
    else if off != 0 && off >= list[0].len then Pieces(list[1..], off - list[0].len, len)
    else CoverFrom([Sge(list[0].pa + off, list[0].len - off)] + list[1..], len)
  }

  lemma {:induction false} FlattenFront(e: Sge, rest: seq<Sge>)
    requires e.pa > 0
    ensures Flatten([e] + rest) == Range(e.pa, e.len) + Flatten(rest)
    ensures Total([e] + rest) == e.len + Total(rest)
  {
    assert ([e] + rest)[1..] == rest;
  }

  lemma {:induction false} CoverFromFlattens(e: Sge, rest: seq<Sge>, len: nat)
    requires NonNull([e] + rest) && len <= e.len + Total(rest)
    ensures NonNull(CoverFrom([e] + rest, len)) && len <= |Flatten([e] + rest)|
    ensures Flatten(CoverFrom([e] + rest, len)) == Flatten([e] + rest)[..len]
    decreases |rest|
  {
    var list := [e] + rest;
    assert list[0] == e && list[1..] == rest;
    FlattenFront(e, rest);
    FlattenLength(rest);
    if e.len > len {
      FlattenFront(Sge(e.pa, len), []);
      assert [Sge(e.pa, len)] + [] == [Sge(e.pa, len)];
    } else {
      var tail := Cover(rest, len - e.len);
      if len > e.len {
        assert rest == [rest[0]] + rest[1..];
        assert NonNull(rest) by { assert forall i :: 0 <= i < |rest| ==> rest[i] == list[i + 1]; }
        CoverFromFlattens(rest[0], rest[1..], len - e.len);
      }
      FlattenFront(e, tail);
    }
  }

  lemma {:induction false} SliceAfter<T>(a: seq<T>, b: seq<T>, lo: nat, n: nat)
    requires |a| <= lo && lo + n <= |a| + |b|
    ensures (a + b)[lo..lo + n] == b[lo - |a|..lo - |a| + n]
  {
  }

  lemma {:induction false} SliceAcross<T>(a: seq<T>, b: seq<T>, lo: nat, n: nat)
    requires lo <= |a| && lo + n <= |a| + |b|
    ensures (a + b)[lo..lo + n] == (a[lo..] + b)[..n]
  {
  }

  /** The range starts in the first element. */
  lemma {:induction false} PiecesHere(e: Sge, rest: seq<Sge>, off: nat, len: nat)
    requires NonNull([e] + rest) && off <= e.len && off + len <= e.len + Total(rest)
    ensures var pieces := CoverFrom([Sge(e.pa + off, e.len - off)] + rest, len);
            && NonNull(pieces) && off + len <= |Flatten([e] + rest)|
            && Flatten(pieces) == Flatten([e] + rest)[off..off + len]
  {
    var first := Sge(e.pa + off, e.len - off);
    assert NonNull(rest) by { assert forall i :: 0 <= i < |rest| ==> rest[i] == ([e] + rest)[i + 1]; }
    CoverFromFlattens(first, rest, len);
    FlattenLength(rest);
    FlattenFront(first, rest);
    FlattenFront(e, rest);
    assert Range(e.pa, e.len)[off..] == Range(first.pa, first.len);
    SliceAcross(Range(e.pa, e.len), Flatten(rest), off, len);
  }

  /** The elements found for a range stand for exactly its bytes. */
  lemma {:induction false} PiecesFlatten(list: seq<Sge>, off: nat, len: nat)
    requires NonNull(list) && Starts(list, off) && off + len <= Total(list)
    ensures NonNull(Pieces(list, off, len)) && off + len <= |Flatten(list)|
    ensures Flatten(Pieces(list, off, len)) == Flatten(list)[off..off + len]
    decreases |list|
  {
    var e, rest := list[0], list[1..];
    assert list == [e] + rest;
    if off != 0 && off >= e.len {
      PiecesFlatten(rest, off - e.len, len);
      SliceAfter(Range(e.pa, e.len), Flatten(rest), off, len);
    } else {
      PiecesHere(e, rest, off, len);
    }
  }

  /** A range has no more elements than its region. */
  lemma {:induction false} PiecesAreFew(list: seq<Sge>, off: nat, len: nat)
    ensures |Pieces(list, off, len)| <= |list|
  {
    if list != [] {
      if off != 0 && off >= list[0].len {
        PiecesAreFew(list[1..], off - list[0].len, len);
      } else {
        CoverIsShort([Sge(list[0].pa + off, list[0].len - off)] + list[1..], len);
      }
    }
  }

  lemma {:induction false} CoverIsShort(list: seq<Sge>, len: nat)
    requires list != []
    ensures |CoverFrom(list, len)| <= |list|
  {
    if list[0].len < len && list[1..] != [] {
      CoverIsShort(list[1..], len - list[0].len);
    }
  }

  // ----- The translation loops -----

  /** The search for the element holding the range's start; it runs off the list when the range starts outside. */
  method FindStart(sge: seq<Sge>, offset: nat, ghost len: nat) returns (mi: nat, off: nat)
    ensures mi < |sge| <==> Starts(sge, offset)
    ensures mi < |sge| ==> (off == 0 || off < sge[mi].len)
    ensures mi < |sge| ==>
      Pieces(sge, offset, len) == CoverFrom([Sge(sge[mi].pa + off, sge[mi].len - off)] + sge[mi + 1..], len)
  {
    mi, off := 0, offset;
    while off != 0 && mi < |sge| && off >= sge[mi].len
      invariant mi <= |sge| && Starts(sge, offset) == Starts(sge[mi..], off)
      invariant Pieces(sge, offset, len) == Pieces(sge[mi..], off, len)
    {
      assert sge[mi..][1..] == sge[mi + 1..];
      off := off - sge[mi].len;
      mi := mi + 1;
    }
    if mi < |sge| {
      assert sge[mi..][1..] == sge[mi + 1..];
    }
  }

  /** One user range: stores its elements from `pi` on, stopping when the table is full; a start outside the region
      is a bug that stops the kernel. */
  method XlateRange(sge: seq<Sge>, offset: nat, len: nat, psge: array<Sge>, pi: nat, cap: nat)
    returns (bug: bool, pi': nat)
    requires pi < cap <= psge.Length
    modifies psge
    ensures bug <==> !Starts(sge, offset)
    ensures !bug ==> var pieces := Pieces(sge, offset, len);
            && pi' == Min(pi + |pieces|, cap)
            && psge[..pi'] == old(psge[..pi]) + pieces[..pi' - pi]
  {
    ghost var pieces := Pieces(sge, offset, len);
    ghost var before := psge[..pi];
    var mi, off := FindStart(sge, offset, len);
    bug, pi' := mi >= |sge|, pi;
    if bug {
      return;
    }
    var first := Sge(sge[mi].pa + off, sge[mi].len - off);
    assert ([first] + sge[mi + 1..])[1..] == sge[mi + 1..];
    mi := mi + 1;
    if first.len > len {
      psge[pi] := Sge(first.pa, len);
      pi' := pi + 1;
      return;
    }
    psge[pi] := first;
    pi' := pi + 1;
    var left: nat := len - first.len;
    assert pieces == [first] + Cover(sge[mi..], left);
    assert psge[..pi'] == before + [first];
    while left != 0 && pi' < cap && mi < |sge|
      invariant pi < pi' <= cap && mi <= |sge|
      invariant psge[..pi'] + Cover(sge[mi..], left) == before + pieces
    {
      assert sge[mi..][1..] == sge[mi + 1..];
      if sge[mi].len > left {
        psge[pi'] := Sge(sge[mi].pa, left);
        left := 0;
      } else {
        psge[pi'] := sge[mi];
        left := left - sge[mi].len;
      }
      pi', mi := pi' + 1, mi + 1;
    }
    PrefixOf(psge[..pi'], Cover(sge[mi..], left), before, pieces);
  }

  lemma {:induction false} PrefixOf<T>(a: seq<T>, b: seq<T>, c: seq<T>, d: seq<T>)
    requires a + b == c + d && |c| <= |a|
    ensures |a| <= |c| + |d| && a == c + d[..|a| - |c|]
    ensures b == [] <==> |a| == |c| + |d|
  {
    assert a == (a + b)[..|a|];
    assert |a + b| == |c + d|;
  }

  /** A 32-bit signed total, as the driver keeps it. */
  function ToInt32(n: nat): (r: int)
    ensures Wraps(r, n)
  {
    var low := n % (2 * INT32);
    if low < INT32 then low else low - 2 * INT32
  }

  function SumLengths(us: seq<UserSge>): nat {
    if us == [] then 0 else us[0].length + SumLengths(us[1..])
  }

  function PiecesOf(u: UserSge, mr: Region): seq<Sge> {
    Pieces(mr.sge, Offset(u, mr), u.length)
  }

  /** How a translation ends: all elements stored, the table full, a range whose key names no region, or one that
      starts outside its region, which stops the kernel. */
  datatype Status = Stored(elements: seq<Sge>) | TableFull | NoRegion | Bug

  /** The elements of all ranges, as long as they leave at least one entry of the table free. */
  function Translate(mrs: map<nat, Region>, us: seq<UserSge>, cap: nat, before: seq<Sge>): Status {
    if us == [] then Stored(before)
    else if us[0].lkey !in mrs then NoRegion
    else if !Starts(mrs[us[0].lkey].sge, Offset(us[0], mrs[us[0].lkey])) then Bug
    else
      var now := before + PiecesOf(us[0], mrs[us[0].lkey]);
      if |now| >= cap then TableFull else Translate(mrs, us[1..], cap, now)
  }

  /** The bytes the user ranges name. */
  ghost function UserBytes(us: seq<UserSge>, mrs: map<nat, Region>): seq<nat>
    requires AllInRange(us, mrs)
  {
    if us == [] then []
    else (if us[0].lkey in mrs then RangeBytes(us[0], mrs[us[0].lkey]) else []) + UserBytes(us[1..], mrs)
  }

  ghost function RangeBytes(u: UserSge, mr: Region): seq<nat>
    requires InRange(u, mr)
  {
    FlattenLength(mr.sge);
    Flatten(mr.sge)[Offset(u, mr)..Offset(u, mr) + u.length]
  }

  /** A translation that succeeds stands for the user's bytes, in order. */
  lemma {:induction false} TranslateFlattens(mrs: map<nat, Region>, us: seq<UserSge>, cap: nat, before: seq<Sge>)
    requires AllInRange(us, mrs) && NonNull(before) && Translate(mrs, us, cap, before).Stored?
    ensures var elements := Translate(mrs, us, cap, before).elements;
            && NonNull(elements) && Flatten(elements) == Flatten(before) + UserBytes(us, mrs)
            && |UserBytes(us, mrs)| == SumLengths(us)
            && (|before| < cap ==> |elements| < cap)
  {
    if us != [] {
      var u, mr := us[0], mrs[us[0].lkey];
      PiecesFlatten(mr.sge, Offset(u, mr), u.length);
      FlattenAppend(before, PiecesOf(u, mr));
      TranslateFlattens(mrs, us[1..], cap, before + PiecesOf(u, mr));
    }
  }

  // ----- When the returned length is what the elements hold -----

  lemma {:induction false} CoverFromTotal(e: Sge, rest: seq<Sge>, len: nat)
    requires NonNull([e] + rest)
    ensures NonNull(CoverFrom([e] + rest, len)) && Total(CoverFrom([e] + rest, len)) == Min(len, e.len + Total(rest))
    decreases |rest|
  {
    var list := [e] + rest;
    assert list[0] == e && list[1..] == rest;
    if e.len > len {
      FlattenFront(Sge(e.pa, len), []);
      assert [Sge(e.pa, len)] + [] == [Sge(e.pa, len)];
    } else {
      if len > e.len && rest != [] {
        assert rest == [rest[0]] + rest[1..];
        assert NonNull(rest) by { assert forall i :: 0 <= i < |rest| ==> rest[i] == list[i + 1]; }
        CoverFromTotal(rest[0], rest[1..], len - e.len);
      }
      FlattenFront(e, Cover(rest, len - e.len));
    }
  }

  lemma {:induction false} PiecesTotal(list: seq<Sge>, off: nat, len: nat)
    requires NonNull(list) && Starts(list, off)
    ensures off <= Total(list) && NonNull(Pieces(list, off, len))
    ensures Total(Pieces(list, off, len)) == Min(len, Total(list) - off)
    decreases |list|
  {
    var e, rest := list[0], list[1..];
    if off != 0 && off >= e.len {
      PiecesTotal(rest, off - e.len, len);
    } else {
      var first := Sge(e.pa + off, e.len - off);
      assert NonNull([first] + rest) by { assert forall i :: 0 < i < |list| ==> ([first] + rest)[i] == list[i]; }
      CoverFromTotal(first, rest, len);
    }
  }

  /** What a stored translation holds, and that it is at most what it claims. */
  lemma {:induction false} TranslateTotal(mrs: map<nat, Region>, us: seq<UserSge>, cap: nat, before: seq<Sge>)
    requires Translate(mrs, us, cap, before).Stored? && NonNull(before)
    requires forall k :: k in mrs ==> NonNull(mrs[k].sge)
    ensures NonNull(Translate(mrs, us, cap, before).elements)
    ensures var held := Total(Translate(mrs, us, cap, before).elements) - Total(before);
            held <= SumLengths(us) && (held == SumLengths(us) <==> AllInRange(us, mrs))
  {
    if us != [] {
      var u, mr := us[0], mrs[us[0].lkey];
      PiecesTotal(mr.sge, Offset(u, mr), u.length);
      FlattenAppend(before, PiecesOf(u, mr));
      assert NonNull(before + PiecesOf(u, mr));
      TranslateTotal(mrs, us[1..], cap, before + PiecesOf(u, mr));
      assert AllInRange(us, mrs) <==> InRange(u, mr) && AllInRange(us[1..], mrs) by {
        assert forall i :: 0 < i < |us| ==> us[i] == us[1..][i - 1];
      }
    }
  }

  /** `rc` is what a C program makes of `n` in a 32-bit signed integer. */
  predicate Wraps(rc: int, n: nat) {
    -0x8000_0000 <= rc < 0x8000_0000 && (rc - n) % 0x1_0000_0000 == 0
  }

  lemma {:induction false} WrapsIff(rc: int, n: nat)
    requires Wraps(rc, n)
    ensures rc == ToInt32(n) && (rc == n <==> n < 0x8000_0000)
  {
  }

  /** Of ranges below 2^31 bytes in all, the length that is returned is theirs in any case; the table holds that many
      bytes if and only if no range reaches past the end of its region. */
  lemma {:induction false} ReturnIsHonestIff(mrs: map<nat, Region>, us: seq<UserSge>, cap: nat, rc: int)
    requires Translate(mrs, us, cap, []).Stored? && forall k :: k in mrs ==> NonNull(mrs[k].sge)
    requires Wraps(rc, SumLengths(us))
    ensures Total(Translate(mrs, us, cap, []).elements) == SumLengths(us) <==> AllInRange(us, mrs)
    ensures rc == SumLengths(us) <==> SumLengths(us) < 0x8000_0000
    ensures SumLengths(us) < 0x8000_0000 ==>
              (rc == Total(Translate(mrs, us, cap, []).elements) <==> AllInRange(us, mrs))
  {
    TranslateTotal(mrs, us, cap, []);
    WrapsIff(rc, SumLengths(us));
  }

  /** What the call gives back; it gives nothing back when the kernel stops. */
  datatype Outcome = Stopped | Returned(rc: int, n: nat)

  method XlateSgl(mrs: map<nat, Region>, us: seq<UserSge>, psge: array<Sge>, cap: nat) returns (r: Outcome)
    requires 0 < cap <= psge.Length
    modifies psge
    ensures match Translate(mrs, us, cap, [])
            case Stored(elements) => r.Returned? && r.n == |elements| < cap && psge[..r.n] == elements
                                     && -0x8000_0000 <= r.rc < 0x8000_0000
                                     && (r.rc - SumLengths(us)) % 0x1_0000_0000 == 0
                                     && (SumLengths(us) < 0x8000_0000 ==> r.rc == SumLengths(us))
            case TableFull => r == Returned(E2BIG, cap)
            case NoRegion => r == Returned(ENOMEM, cap)
            case Bug => r == Stopped
  {
    var ui, pi := 0, 0;
    var total: nat := 0;
    assert us[..0] == [];
    while ui < |us|
      invariant ui <= |us| && pi < cap
      invariant Translate(mrs, us, cap, []) == Translate(mrs, us[ui..], cap, psge[..pi])
      invariant total + SumLengths(us[ui..]) == SumLengths(us)
    {
      assert us[ui..][1..] == us[ui + 1..];
      if us[ui].lkey !in mrs {
        return Returned(ENOMEM, cap);
      }
      var mr := mrs[us[ui].lkey];
      total := total + us[ui].length;
      ghost var now := psge[..pi] + PiecesOf(us[ui], mr);
      var bug: bool;
      bug, pi := XlateRange(mr.sge, Offset(us[ui], mr), us[ui].length, psge, pi, cap);
      if bug {
        return Stopped;
      }
      if pi >= cap {
        return Returned(E2BIG, cap);
      }
      assert psge[..pi] == now;
      ui := ui + 1;
    }
    r := Returned(ToInt32(total), pi);
  }
}
