/** The dual walk at the heart of `mudm_rdma_write` and `mudm_rdma_read`: two lists consumed in lock step. */
module RdmaWalk {
  import opened ScatterGather

  const U32: nat := 0x1_0000_0000

  /** The largest transfer for which the 32-bit running total cannot wrap. */
  const WALK_LIMIT: nat := 0xF000_0001

  /** Addition on the 32-bit running total. */
  function Add32(total: nat, len: Length): nat {
    if total + len < U32 then total + len else total + len - U32
  }

  /** The puts a walk produces and the final value of its running total, which also counts a trimmed-off tail. */
  datatype Trace = Trace(puts: seq<Put>, total: nat)

  function Prepend(p: Put, t: Trace): Trace {
    Trace([p] + t.puts, t.total)
  }

  /** The dual walk for `n` bytes from running total `total`; a put that passes `n` is trimmed to end at `n`. */
  function Walk(src: seq<Sge>, dst: seq<Sge>, n: nat, total: nat): Trace
    requires total <= n
    decreases |src| + |dst|
  {
    if Ended(src) || Ended(dst) then Trace([], total)
    else
      var m := Min(src[0].len, dst[0].len);
      var total' := Add32(total, m);
      if total' >= n then Trace([Put(src[0].pa, dst[0].pa, if total' > n then n - total else m)], total')
      else Prepend(Put(src[0].pa, dst[0].pa, m), Walk(Drop(src, m), Drop(dst, m), n, total'))
  }

  /** One step of the walk, below the limit where the total cannot wrap. */
  lemma {:induction false} WalkOnce(src: seq<Sge>, dst: seq<Sge>, n: nat, total: nat)
    returns (m: nat, src': seq<Sge>, dst': seq<Sge>)
    requires !Ended(src) && !Ended(dst) && total < n <= WALK_LIMIT
    ensures m == Min(src[0].len, dst[0].len) && src' == Drop(src, m) && dst' == Drop(dst, m)
    ensures |src'| + |dst'| < |src| + |dst|
    ensures var p := Put(src[0].pa, dst[0].pa, Min(m, n - total));
            Walk(src, dst, n, total) ==
            if total + m >= n then Trace([p], total + m) else Prepend(p, Walk(src', dst', n, total + m))
  {
    m := Min(src[0].len, dst[0].len);
    src', dst' := Drop(src, m), Drop(dst, m);
  }

  /** A put in front of a copy of the remaining bytes is a copy. */
  lemma {:induction false} CopiesStep(src: seq<Sge>, dst: seq<Sge>, m: nat, k: nat, puts: seq<Put>, n: nat)
    requires !Ended(src) && !Ended(dst) && k <= m <= src[0].len && m <= dst[0].len
    requires if k < m then puts == [] && n == 0 else Copies(puts, Flatten(Drop(src, m)), Flatten(Drop(dst, m)), n)
    ensures Copies([Put(src[0].pa, dst[0].pa, k)] + puts, Flatten(src), Flatten(dst), k + n)
  {
    DropFlattens(src, m);
    DropFlattens(dst, m);
    var all := [Put(src[0].pa, dst[0].pa, k)] + puts;
    assert all[1..] == puts;
    var fs, fd := Flatten(src), Flatten(dst);
    forall i | 0 <= i < k + n
      ensures Transfers(all)[i] == (fs[i], fd[i])
    {
      if i < k {
        assert fs[i] == fs[..m][i] && fd[i] == fd[..m][i];
      } else {
        assert fs[i] == fs[m..][i - m] && fd[i] == fd[m..][i - m];
      }
    }
  }

  /** How many bytes a walk for `need` more bytes moves. */
  function Reach(src: seq<Sge>, dst: seq<Sge>, need: nat): nat {
    Min(need, Min(Total(src), Total(dst)))
  }

  lemma {:induction false} ReachStep(src: seq<Sge>, dst: seq<Sge>, m: nat, need: nat)
    requires !Ended(src) && !Ended(dst) && m <= src[0].len && m <= dst[0].len
    ensures m <= Total(src) && m <= Total(dst)
    ensures m <= need ==> Reach(src, dst, need) == m + Reach(Drop(src, m), Drop(dst, m), need - m)
    ensures need <= m ==> Reach(src, dst, need) == need
  {
    DropFlattens(src, m);
    DropFlattens(dst, m);
  }

  lemma {:induction false} LastStepCopies(src: seq<Sge>, dst: seq<Sge>, m: nat, k: nat)
    requires !Ended(src) && !Ended(dst) && k <= m <= src[0].len && m <= dst[0].len
    ensures Copies([Put(src[0].pa, dst[0].pa, k)], Flatten(src), Flatten(dst), k)
  {
    var p := Put(src[0].pa, dst[0].pa, k);
    assert [p] + [] == [p];
    assert Copies([], Flatten(Drop(src, m)), Flatten(Drop(dst, m)), 0);
    CopiesStep(src, dst, m, k, [], 0);
  }

  /** Below the limit the walk copies byte for byte until `n` bytes, or the shorter list, are used up. */
  lemma {:induction false} WalkCopies(src: seq<Sge>, dst: seq<Sge>, n: nat, total: nat)
    requires total < n <= WALK_LIMIT
    ensures Copies(Walk(src, dst, n, total).puts, Flatten(src), Flatten(dst), Reach(src, dst, n - total))
    decreases |src| + |dst|
  {
    if Ended(src) || Ended(dst) {
      assert Transfers([]) == [];
    } else {
      var m, src', dst' := WalkOnce(src, dst, n, total);
      ReachStep(src, dst, m, n - total);
      if total + m < n {
        WalkCopies(src', dst', n, total + m);
        CopiesStep(src, dst, m, m, Walk(src', dst', n, total + m).puts, Reach(src', dst', n - total - m));
      } else {
        LastStepCopies(src, dst, m, n - total);
      }
    }
  }

  lemma {:induction false} DropTotal(list: seq<Sge>, m: nat)
    requires !Ended(list) && m <= list[0].len
    ensures Total(list) == m + Total(Drop(list, m))
  {
    DropFlattens(list, m);
  }

  /** How the walk ends: short of `n`, exactly on it, or past it, decided by the two lists alone. */
  lemma {:induction false} WalkEnds(src: seq<Sge>, dst: seq<Sge>, n: nat, total: nat)
    requires total < n <= WALK_LIMIT
    ensures var end := Walk(src, dst, n, total).total;
            var need := n - total;
            && (end < n <==> Total(src) < need || Total(dst) < need)
            && (end == n <==> need <= Total(src) && need <= Total(dst) && (Boundary(src, need) || Boundary(dst, need)))
    decreases |src| + |dst|
  {
    if !Ended(src) && !Ended(dst) {
      var m, src', dst' := WalkOnce(src, dst, n, total);
      DropTotal(src, m);
      DropTotal(dst, m);
      if total + m < n {
        BoundaryDrop(src, m, n - total - m);
        BoundaryDrop(dst, m, n - total - m);
        WalkEnds(src', dst', n, total + m);
      } else {
        HeadBoundary(src);
        HeadBoundary(dst);
      }
    }
  }

  // ----- When the 32-bit total is safe -----

  /** Two equal lists whose walk reaches `k` more bytes and then takes one longest element. */
  function LongList(k: nat): seq<Sge> {
    if k >= MAX_SGL_LENGTH then [Sge(1, MAX_SGL_LENGTH - 1)] + LongList(k - (MAX_SGL_LENGTH - 1))
    else [Sge(1, k), Sge(1, MAX_SGL_LENGTH - 1)]
  }

  /** An element the two lists share becomes one put, as long as the wrapped total stays below the request. */
  lemma {:induction false} SharedElement(e: Sge, tail: seq<Sge>, n: nat, total: nat)
    requires e.pa != 0 && total <= n && Add32(total, e.len) < n
    ensures var list := [e] + tail;
            Walk(list, list, n, total) == Prepend(Put(e.pa, e.pa, e.len), Walk(tail, tail, n, Add32(total, e.len)))
  {
    var list := [e] + tail;
    assert Drop(list, e.len) == tail;
  }

  lemma {:induction false} PrependTotal(p: Put, t: Trace)
    ensures PutTotal(Prepend(p, t).puts) == p.len + PutTotal(t.puts)
  {
    assert ([p] + t.puts)[1..] == t.puts;
  }

  /** The last element wraps the total back below the request, so nothing stops the walk. */
  lemma {:induction false} LastElementOverruns(n: nat, total: nat)
    requires WALK_LIMIT < n && total < U32
    requires n >= U32 || total == n - 1
    ensures total <= n && PutTotal(Walk([Sge(1, MAX_SGL_LENGTH - 1)], [Sge(1, MAX_SGL_LENGTH - 1)], n, total).puts)
      == MAX_SGL_LENGTH - 1
  {
    var last := Sge(1, MAX_SGL_LENGTH - 1);
    assert [last] == [last] + [];
    SharedElement(last, [], n, total);
    PrependTotal(Put(1, 1, last.len), Trace([], Add32(total, last.len)));
  }

  lemma {:induction false} LongListOverruns(n: nat, total: nat, k: nat)
    requires WALK_LIMIT < n && total < U32
    requires n >= U32 || total + k == n - 1
    ensures total <= n && PutTotal(Walk(LongList(k), LongList(k), n, total).puts) == k + MAX_SGL_LENGTH - 1
    decreases k
  {
    var e := Sge(1, Min(k, MAX_SGL_LENGTH - 1));
    var tail := if k >= MAX_SGL_LENGTH then LongList(k - e.len) else [Sge(1, MAX_SGL_LENGTH - 1)];
    var total' := Add32(total, e.len);
    assert LongList(k) == [e] + tail;
    SharedElement(e, tail, n, total);
    PrependTotal(Put(1, 1, e.len), Walk(tail, tail, n, total'));
    if k >= MAX_SGL_LENGTH {
      LongListOverruns(n, total', k - e.len);
    } else {
      LastElementOverruns(n, total');
    }
  }

  /** The walk keeps within the request for all lists if and only if the request is at most the limit. */
  lemma {:induction false} WalkStaysWithinRequestIff(n: nat)
    requires n > 0
    ensures (forall src, dst :: PutTotal(Walk(src, dst, n, 0).puts) <= n) <==> n <= WALK_LIMIT
  {
    if n <= WALK_LIMIT {
      forall src, dst
        ensures PutTotal(Walk(src, dst, n, 0).puts) <= n
      {
        WalkCopies(src, dst, n, 0);
        TransfersLength(Walk(src, dst, n, 0).puts);
      }
    } else {
      LongListOverruns(n, 0, n - 1);
      assert PutTotal(Walk(LongList(n - 1), LongList(n - 1), n, 0).puts) > n;
    }
  }
}
