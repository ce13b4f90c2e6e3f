/** Physical scatter/gather lists, the direct puts that move their bytes, and what both mean byte by byte. */
module ScatterGather {

  /** The first length that no longer fits the 28-bit field. */
  const MAX_SGL_LENGTH: nat := 0x1000_0000

  type Length = n: nat | n < MAX_SGL_LENGTH

  /** One list element: a physical address and a 28-bit length. */
  datatype Sge = Sge(pa: nat, len: Length)

  /** A direct put: `len` bytes from physical address `src` to physical address `dst` on the other node. */
  datatype Put = Put(src: nat, dst: nat, len: nat)

  function Min(a: nat, b: nat): nat {
    if a <= b then a else b
  }

  /** A list ends where its memory ends or at its first null address; a zero length does not end it. */
  predicate Ended(list: seq<Sge>) {
    list == [] || list[0].pa == 0
  }

  predicate NonNull(list: seq<Sge>) {
    forall i :: 0 <= i < |list| ==> list[i].pa != 0
  }

  function Total(list: seq<Sge>): nat {
    if Ended(list) then 0 else list[0].len + Total(list[1..])
  }

  /** The addresses `pa`, `pa + 1`, ..., `pa + n - 1`. */
  ghost function Range(pa: nat, n: nat): seq<nat> {
    seq(n, i => pa + i)
  }

  /** The bytes a list stands for, as the sequence of their addresses. */
  ghost function Flatten(list: seq<Sge>): seq<nat> {
    if Ended(list) then [] else Range(list[0].pa, list[0].len) + Flatten(list[1..])
  }

  lemma {:induction false} FlattenLength(list: seq<Sge>)
    ensures |Flatten(list)| == Total(list)
  {
    if !Ended(list) {
      FlattenLength(list[1..]);
    }
  }

  lemma {:induction false} FlattenAppend(a: seq<Sge>, b: seq<Sge>)
    requires NonNull(a)
    ensures Flatten(a + b) == Flatten(a) + Flatten(b)
    ensures Total(a + b) == Total(a) + Total(b)
  {
    if a == [] {
      assert a + b == b;
    } else {
      assert (a + b)[1..] == a[1..] + b;
      FlattenAppend(a[1..], b);
    }
  }

  /** The list without its first `m` bytes, where `m` does not reach past the first element. */
  function Drop(list: seq<Sge>, m: nat): seq<Sge>
    requires list != [] && m <= list[0].len
  {
    if m == list[0].len then list[1..] else [Sge(list[0].pa + m, list[0].len - m)] + list[1..]
  }

  lemma {:induction false} RangeSplit(pa: nat, m: nat, n: nat)
    ensures Range(pa, m + n) == Range(pa, m) + Range(pa + m, n)
  {
  }

  lemma {:induction false} DropFlattens(list: seq<Sge>, m: nat)
    requires !Ended(list) && m <= list[0].len
    ensures m <= |Flatten(list)|
    ensures Flatten(list)[..m] == Range(list[0].pa, m)
    ensures Flatten(list)[m..] == Flatten(Drop(list, m))
    ensures Total(Drop(list, m)) == Total(list) - m
  {
    var d, rest := Drop(list, m), Flatten(list[1..]);
    RangeSplit(list[0].pa, m, list[0].len - m);
    assert Flatten(list) == Range(list[0].pa, m) + (Range(list[0].pa + m, list[0].len - m) + rest);
    if m < list[0].len {
      assert d[1..] == list[1..];
    } else {
      assert Range(list[0].pa + m, 0) == [];
    }
  }

  /** `n` bytes end exactly at an element boundary of the list. */
  predicate Boundary(list: seq<Sge>, n: nat) {
    n == 0 || (!Ended(list) && list[0].len <= n && Boundary(list[1..], n - list[0].len))
  }

  lemma {:induction false} BoundaryIsPrefixTotal(list: seq<Sge>, n: nat)
    ensures Boundary(list, n) <==> exists k :: 0 <= k <= |list| && Total(list[..k]) == n
  {
    if n == 0 {
      assert Total(list[..0]) == n;
    } else if !Ended(list) {
      forall k | 0 < k <= |list|
        ensures Total(list[..k]) == list[0].len + Total(list[1..][..k - 1])
      {
        assert list[..k][1..] == list[1..][..k - 1];
      }
      if list[0].len <= n {
        BoundaryIsPrefixTotal(list[1..], n - list[0].len);
        if Boundary(list, n) {
          var k :| 0 <= k <= |list[1..]| && Total(list[1..][..k]) == n - list[0].len;
          assert Total(list[..k + 1]) == n;
        }
      }
    }
  }

  lemma {:induction false} BoundaryDrop(list: seq<Sge>, m: nat, n: nat)
    requires !Ended(list) && m <= list[0].len && n > 0
    ensures Boundary(list, m + n) == Boundary(Drop(list, m), n)
  {
  }

  lemma {:induction false} HeadBoundary(list: seq<Sge>)
    requires !Ended(list)
    ensures list[0].len <= Total(list)
    ensures Boundary(list, list[0].len)
    ensures forall n :: 0 < n < list[0].len ==> !Boundary(list, n)
  {
  }

  /** The (source, destination) address pair of every byte a list of puts moves, in order. */
  ghost function Transfers(puts: seq<Put>): seq<(nat, nat)> {
    if puts == [] then []
    else seq(puts[0].len, i => (puts[0].src + i, puts[0].dst + i)) + Transfers(puts[1..])
  }

  function PutTotal(puts: seq<Put>): nat {
    if puts == [] then 0 else puts[0].len + PutTotal(puts[1..])
  }

  lemma {:induction false} TransfersLength(puts: seq<Put>)
    ensures |Transfers(puts)| == PutTotal(puts)
  {
    if puts != [] {
      TransfersLength(puts[1..]);
    }
  }

  lemma {:induction false} TransfersAppend(a: seq<Put>, b: seq<Put>)
    ensures Transfers(a + b) == Transfers(a) + Transfers(b)
    ensures PutTotal(a + b) == PutTotal(a) + PutTotal(b)
  {
    if a == [] {
      assert a + b == b;
    } else {
      assert (a + b)[1..] == a[1..] + b;
      TransfersAppend(a[1..], b);
    }
  }

  /** The puts send byte i of `src` to byte i of `dst` for exactly i < n, in order. */
  ghost predicate Copies(puts: seq<Put>, src: seq<nat>, dst: seq<nat>, n: nat) {
    && n <= |src| && n <= |dst|
    && |Transfers(puts)| == n
    && forall i :: 0 <= i < n ==> Transfers(puts)[i] == (src[i], dst[i])
  }

  lemma {:induction false} Associates<T>(a: seq<T>, b: seq<T>, c: seq<T>)
    ensures a + (b + c) == a + b + c
  {
  }
}
