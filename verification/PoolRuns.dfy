/** The locked sections of a pool on the heap are the steps of the protocol that touch what the threads share. */
module PoolRuns {
  import Pools
  import opened PoolProtocol

  /** The shared part of the heap: the free list, and the list to be polled with the identifiers in its entries. */
  ghost predicate Shares(pool: Pools.Pool, s: Pool<Pools.Entry>)
    reads pool, s.free, Objs(s.list)
  {
    && Pools.Chain(pool.free, s.free) && Pools.Chain(pool.list, Objs(s.list))
    && forall i :: 0 <= i < |s.list| ==> s.list[i].obj in Objs(s.list) && s.list[i].obj.id == s.list[i].id
  }

  /** No entry of the shared lists is in two places. */
  ghost predicate Single(s: Pool<Pools.Entry>) {
    (forall x :: x in s.free ==> Entries(s, x) <= 1) && (forall x :: x in Objs(s.list) ==> Entries(s, x) <= 1)
  }

  /** It is so over every run of a pool that starts with distinct entries. */
  lemma {:induction false} RunIsSingle(free: seq<Pools.Entry>, threads: nat, steps: seq<Step<Pools.Entry>>,
                                       s: Pool<Pools.Entry>)
    requires Pools.NoDup(free) && Runs(steps, Fresh(free, threads)) && s == After(steps, Fresh(free, threads))
    ensures Single(s)
  {
    forall x | x in s.free || x in Objs(s.list) ensures Entries(s, x) <= 1 {
      NothingLostOrDoubled(free, threads, steps, s, x, 0);
      NoDupIsOnce(free, x);
    }
  }

  lemma {:induction false} NoDupIsOnce(l: seq<Pools.Entry>, x: Pools.Entry)
    requires Pools.NoDup(l)
    ensures Count(l, x) <= 1
  {
    if l != [] {
      NoDupIsOnce(l[1..], x);
      CountPositive(l[1..], x);
    }
  }

  lemma {:induction false} OnceIsNoDup(l: seq<Pools.Entry>)
    requires forall x :: x in l ==> Count(l, x) <= 1
    ensures Pools.NoDup(l)
  {
    if l != [] {
      forall x | x in l[1..] ensures Count(l[1..], x) <= 1 {
        assert x in l;
      }
      OnceIsNoDup(l[1..]);
      assert l[0] in l && Count(l[1..], l[0]) == 0;
      CountPositive(l[1..], l[0]);
      forall i, j | 0 <= i < j < |l| ensures l[i] != l[j] {
        assert l[j] == l[1..][j - 1] && (i > 0 ==> l[i] == l[1..][i - 1]);
      }
    }
  }

  lemma {:induction false} OneThread(ps: seq<Poller<Pools.Entry>>, k: nat, x: Pools.Entry)
    requires k < |ps|
    ensures ObjsOf(ps[k], x) <= AllObjs(ps, x)
  {
    if k > 0 {
      OneThread(ps[1..], k - 1, x);
    }
  }

  lemma {:induction false} SharedCounts(s: Pool<Pools.Entry>, x: Pools.Entry)
    requires Single(s) && (x in s.free || x in Objs(s.list))
    ensures Count(s.free, x) + Count(Objs(s.list), x) + s.callers[x] + AllObjs(s.pollers, x) <= 1
    ensures x in s.free <==> Count(s.free, x) > 0
    ensures x in Objs(s.list) <==> Count(Objs(s.list), x) > 0
  {
    CountObjs(s.list, x);
    CountPositive(s.free, x);
    CountPositive(Objs(s.list), x);
  }

  /** The shared lists share no entry, with each other or with callers. */
  lemma {:induction false} SharedApart(s: Pool<Pools.Entry>)
    requires Single(s)
    ensures Pools.NoDup(s.free) && Pools.NoDup(Objs(s.list)) && Pools.Apart(s.free, Objs(s.list))
    ensures forall x :: x in s.callers ==> x !in s.free && x !in Objs(s.list)
  {
    forall x | x in s.free || x in Objs(s.list)
      ensures Count(s.free, x) <= 1 && Count(Objs(s.list), x) <= 1 && x !in s.callers
        && !(x in s.free && x in Objs(s.list))
    {
      SharedCounts(s, x);
    }
    OnceIsNoDup(s.free);
    OnceIsNoDup(Objs(s.list));
  }

  /** Nor with what a thread holds back or puts back. */
  lemma {:induction false} ThreadApart(s: Pool<Pools.Entry>, k: nat, l: seq<Item<Pools.Entry>>)
    requires Single(s) && k < |s.pollers| && (l == s.pollers[k].held || l == s.pollers[k].kept)
    ensures Pools.Apart(Objs(l), s.free) && Pools.Apart(Objs(l), Objs(s.list))
  {
    forall x | x in Objs(l) ensures x !in s.free && x !in Objs(s.list) {
      CountPositive(Objs(l), x);
      CountObjs(l, x);
      OneThread(s.pollers, k, x);
      if x in s.free || x in Objs(s.list) {
        SharedCounts(s, x);
      }
    }
  }

  /** `allocate_rdma_object` and `alloc_pkt_message`. */
  method LockedAllocate(pool: Pools.Pool, ghost s: Pool<Pools.Entry>) returns (x: Pools.Entry?)
    requires Shares(pool, s) && Single(s)
    modifies pool`free, s.free
    ensures x == null <==> !Enabled(s, Step.Allocate)
    ensures x == null ==> Shares(pool, s)
    ensures x != null ==> x == s.free[0] && x.id == 0 && Shares(pool, Apply(s, Step.Allocate))
  {
    SharedApart(s);
    assert forall i :: 0 <= i < |s.list| ==> s.list[i].obj !in s.free;
    x := pool.Allocate(s.free);
    assert forall i :: 0 <= i < |s.list| ==> Objs(s.list)[i] == s.list[i].obj;
  }

  /** `release_rdma_obj_to_poll` and `release_pkt_to_poll`, of an entry that carries its identifier. */
  method LockedRelease(pool: Pools.Pool, ghost s: Pool<Pools.Entry>, x: Pools.Entry)
    requires Shares(pool, s) && Single(s) && x in s.callers
    modifies pool`list, x`next, x`prev, Objs(s.list)`prev
    ensures Shares(pool, Apply(s, Step.Release(x, x.id)))
  {
    SharedApart(s);
    pool.ReleaseToPoll(x, Objs(s.list));
    ghost var s' := Apply(s, Step.Release(x, x.id));
    assert Objs(s'.list) == [x] + Objs(s.list);
    forall i | 0 <= i < |s'.list| ensures s'.list[i].obj in Objs(s'.list) && s'.list[i].obj.id == s'.list[i].id {
      assert s'.list[i].obj == Objs(s'.list)[i];
      assert i > 0 ==> s'.list[i] == s.list[i - 1];
    }
  }

  /** `free_rdma_obj` and `release_pkt_to_free`. */
  method LockedReturn(pool: Pools.Pool, ghost s: Pool<Pools.Entry>, x: Pools.Entry)
    requires Shares(pool, s) && Single(s) && x in s.callers
    modifies pool`free, x`next
    ensures Shares(pool, Apply(s, Step.Return(x)))
  {
    SharedApart(s);
    pool.Free(x, s.free);
  }

  /** The first locked section of a poll or a flush; the thread has the list to itself from then on. */
  method LockedDetach(pool: Pools.Pool, ghost s: Pool<Pools.Entry>, ghost k: nat, ghost flush: bool)
    returns (head: Pools.Entry?)
    requires Shares(pool, s) && Enabled(s, Step.Detach(k, flush))
    modifies pool`list
    ensures Shares(pool, Apply(s, Step.Detach(k, flush)))
    ensures Pools.Chain(head, Objs(Apply(s, Step.Detach(k, flush)).pollers[k].todo))
  {
    head := pool.Detach(Objs(s.list));
  }

  /** The locked section that frees what a thread holds back. */
  method LockedSpliceFree(pool: Pools.Pool, ghost s: Pool<Pools.Entry>, ghost k: nat, first: Pools.Entry,
                          last: Pools.Entry)
    requires Shares(pool, s) && Single(s) && Enabled(s, Step.Splice(k)) && s.pollers[k].held != []
    requires Pools.Private(first, last, Objs(s.pollers[k].held))
    modifies pool`free, last`next
    ensures Shares(pool, Apply(s, Step.Splice(k)))
  {
    ThreadApart(s, k, s.pollers[k].held);
    SharedApart(s);
    ghost var d := Objs(s.pollers[k].held);
    assert last in d && forall i :: 0 <= i < |s.list| ==> s.list[i].obj != last;
    pool.SpliceFree(first, last, d, s.free);
  }

  /** The locked section that puts back what is not done, ahead of whatever was released since the list was taken. */
  method LockedRepost(pool: Pools.Pool, ghost s: Pool<Pools.Entry>, ghost k: nat, first: Pools.Entry, last: Pools.Entry)
    requires Shares(pool, s) && Single(s) && Enabled(s, Step.Repost(k)) && s.pollers[k].kept != []
    requires Pools.Private(first, last, Objs(s.pollers[k].kept))
    requires forall i :: 0 <= i < |s.pollers[k].kept| ==> s.pollers[k].kept[i].obj.id == s.pollers[k].kept[i].id
    modifies pool`list, last`next
    ensures Shares(pool, Apply(s, Step.Repost(k)))
  {
    ThreadApart(s, k, s.pollers[k].kept);
    SharedApart(s);
    ghost var kept := s.pollers[k].kept;
    assert last in Objs(kept) && last !in s.free;
    pool.Repost(first, last, Objs(kept), Objs(s.list));
    ghost var s' := Apply(s, Step.Repost(k));
    assert Objs(s'.list) == Objs(kept) + Objs(s.list);
    forall i | 0 <= i < |s'.list| ensures s'.list[i].obj in Objs(s'.list) && s'.list[i].obj.id == s'.list[i].id {
      assert s'.list[i].obj == Objs(s'.list)[i];
      assert s'.list[i] == if i < |kept| then kept[i] else s.list[i - |kept|];
    }
  }

  // ----- The sections over runs -----

  /** Everything that has happened to a pool since it was set up with these entries and threads. */
  datatype History = History(free: seq<Pools.Entry>, threads: nat, steps: seq<Step<Pools.Entry>>)

  ghost predicate Happened(h: History) {
    Pools.NoDup(h.free) && Runs(h.steps, Fresh(h.free, h.threads))
  }

  ghost function Now(h: History): Pool<Pools.Entry>
    requires Happened(h)
  {
    After(h.steps, Fresh(h.free, h.threads))
  }

  ghost function Then(h: History, step: Step<Pools.Entry>): History {
    h.(steps := h.steps + [step])
  }

  /** The heap after a history. */
  ghost predicate Reached(pool: Pools.Pool, h: History)
    requires Happened(h)
    reads pool, Now(h).free, Objs(Now(h).list)
  {
    Shares(pool, Now(h))
  }

  lemma {:induction false} RunsSnoc(steps: seq<Step<Pools.Entry>>, s: Pool<Pools.Entry>, step: Step<Pools.Entry>)
    requires Runs(steps, s) && Enabled(After(steps, s), step)
    ensures Runs(steps + [step], s) && After(steps + [step], s) == Apply(After(steps, s), step)
    decreases |steps|
  {
    if steps == [] {
      assert steps + [step] == [step] && [step][1..] == [];
    } else {
      assert (steps + [step])[1..] == steps[1..] + [step];
      RunsSnoc(steps[1..], Apply(s, steps[0]), step);
    }
  }

  lemma {:induction false} Goes(h: History, step: Step<Pools.Entry>)
    requires Happened(h) && Enabled(Now(h), step)
    ensures Happened(Then(h, step)) && Now(Then(h, step)) == Apply(Now(h), step) && Single(Now(h))
  {
    RunsSnoc(h.steps, Fresh(h.free, h.threads), step);
    RunIsSingle(h.free, h.threads, h.steps, Now(h));
  }

  /** A pool as it is set up. */
  lemma {:induction false} SetUp(pool: Pools.Pool, free: seq<Pools.Entry>, threads: nat)
    requires Pools.NoDup(free) && Pools.Chain(pool.free, free) && pool.list == null
    ensures Happened(History(free, threads, [])) && Reached(pool, History(free, threads, []))
  {
  }

  /** What a thread does between its locked sections leaves what the threads share alone. */
  lemma {:induction false} PrivateSteps(pool: Pools.Pool, h: History, step: Step<Pools.Entry>)
    requires Happened(h) && Enabled(Now(h), step) && Reached(pool, h) && (step.Look? || step.Cancel? || step.Report?)
    ensures Happened(Then(h, step)) && Reached(pool, Then(h, step))
  {
    Goes(h, step);
  }

  /** `allocate_rdma_object` and `alloc_pkt_message`, at any time. */
  method Allocate(pool: Pools.Pool, ghost h: History) returns (x: Pools.Entry?)
    requires Happened(h) && Reached(pool, h)
    modifies pool`free, Now(h).free
    ensures x == null <==> !Enabled(Now(h), Step.Allocate)
    ensures x == null ==> Reached(pool, h)
    ensures x != null ==> x == Now(h).free[0] && x.id == 0
    ensures x != null ==> Happened(Then(h, Step.Allocate)) && Reached(pool, Then(h, Step.Allocate))
  {
    RunIsSingle(h.free, h.threads, h.steps, Now(h));
    x := LockedAllocate(pool, Now(h));
    if x != null {
      Goes(h, Step.Allocate);
    }
  }

  /** `release_rdma_obj_to_poll` and `release_pkt_to_poll`. */
  method Release(pool: Pools.Pool, ghost h: History, x: Pools.Entry)
    requires Happened(h) && Reached(pool, h) && x in Now(h).callers
    modifies pool`list, x`next, x`prev, Objs(Now(h).list)`prev
    ensures Happened(Then(h, Step.Release(x, x.id))) && Reached(pool, Then(h, Step.Release(x, x.id)))
  {
    Goes(h, Step.Release(x, x.id));
    LockedRelease(pool, Now(h), x);
  }

  /** `free_rdma_obj` and `release_pkt_to_free`. */
  method Return(pool: Pools.Pool, ghost h: History, x: Pools.Entry)
    requires Happened(h) && Reached(pool, h) && x in Now(h).callers
    modifies pool`free, x`next
    ensures Happened(Then(h, Step.Return(x))) && Reached(pool, Then(h, Step.Return(x)))
  {
    Goes(h, Step.Return(x));
    LockedReturn(pool, Now(h), x);
  }

  /** A thread starts to poll or to flush. */
  method Detach(pool: Pools.Pool, ghost h: History, ghost k: nat, ghost flush: bool) returns (head: Pools.Entry?)
    requires Happened(h) && Reached(pool, h) && Enabled(Now(h), Step.Detach(k, flush))
    modifies pool`list
    ensures Happened(Then(h, Step.Detach(k, flush))) && Reached(pool, Then(h, Step.Detach(k, flush)))
    ensures Pools.Chain(head, Objs(Now(h).list))
  {
    Goes(h, Step.Detach(k, flush));
    head := LockedDetach(pool, Now(h), k, flush);
  }

  /** A thread frees what it holds back. */
  method SpliceFree(pool: Pools.Pool, ghost h: History, ghost k: nat, first: Pools.Entry, last: Pools.Entry)
    requires Happened(h) && Reached(pool, h) && Enabled(Now(h), Step.Splice(k)) && Now(h).pollers[k].held != []
    requires Pools.Private(first, last, Objs(Now(h).pollers[k].held))
    modifies pool`free, last`next
    ensures Happened(Then(h, Step.Splice(k))) && Reached(pool, Then(h, Step.Splice(k)))
  {
    Goes(h, Step.Splice(k));
    LockedSpliceFree(pool, Now(h), k, first, last);
  }

  /** A thread puts back what is not done. */
  method Repost(pool: Pools.Pool, ghost h: History, ghost k: nat, first: Pools.Entry, last: Pools.Entry)
    requires Happened(h) && Reached(pool, h) && Enabled(Now(h), Step.Repost(k)) && Now(h).pollers[k].kept != []
    requires Pools.Private(first, last, Objs(Now(h).pollers[k].kept))
    requires forall i :: 0 <= i < |Now(h).pollers[k].kept| ==>
      Now(h).pollers[k].kept[i].obj.id == Now(h).pollers[k].kept[i].id
    modifies pool`list, last`next
    ensures Happened(Then(h, Step.Repost(k))) && Reached(pool, Then(h, Step.Repost(k)))
  {
    Goes(h, Step.Repost(k));
    LockedRepost(pool, Now(h), k, first, last);
  }

  /** After any history the heap's lists hold each entry at most once, and no entry that a caller or a thread has. */
  lemma {:induction false} HeapKeepsEntries(pool: Pools.Pool, h: History, x: Pools.Entry)
    requires Happened(h) && Reached(pool, h)
    ensures var s := Now(h);
            && Pools.Chain(pool.free, s.free) && Pools.Chain(pool.list, Objs(s.list))
            && Count(s.free, x) + Count(Objs(s.list), x) + s.callers[x] + AllObjs(s.pollers, x) == Count(h.free, x) <= 1
  {
    NothingLostOrDoubled(h.free, h.threads, h.steps, Now(h), x, 0);
    NoDupIsOnce(h.free, x);
    CountObjs(Now(h).list, x);
  }
}
