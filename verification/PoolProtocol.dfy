/** A pool under any interleaving, at its lock boundaries, of allocation, release, polls and flushes by any number
    of threads. */
module PoolProtocol {
  import Pools

  /** An entry on its way through polling, with the request identifier it holds; 0 stands for none. */
  datatype Item<T> = Item(obj: T, id: nat)

  /** One polling or flushing thread: entries still to look at, done ones it has not freed yet, ones to be put back,
      and the identifiers in its report buffer. */
  datatype Poller<T> = Poller(flush: bool, todo: seq<Item<T>>, held: seq<Item<T>>, kept: seq<Item<T>>, refs: seq<nat>)

  /** The free list, the list to be polled, the entries in callers' hands, the threads, and the identifiers
      handed in and reported so far. */
  datatype Pool<T(==)> = Pool(free: seq<T>, list: seq<Item<T>>, callers: multiset<T>, pollers: seq<Poller<T>>,
                              submitted: seq<nat>, reported: seq<nat>)

  datatype Step<T> =
    | Allocate
    | Release(obj: T, id: nat)
    | Return(obj: T)
    | Detach(k: nat, flush: bool)
    | Look(k: nat, done: bool)
    | Cancel(k: nat)
    | Splice(k: nat)
    | Report(k: nat)
    | Repost(k: nat)

  predicate Idle<T>(p: Poller<T>) {
    p.todo == [] && p.held == [] && p.kept == [] && p.refs == []
  }

  predicate Enabled<T(==)>(s: Pool<T>, step: Step<T>) {
    match step
    case Allocate => s.free != []
    case Release(obj, _) => obj in s.callers
    case Return(obj) => obj in s.callers
    case Detach(k, _) => k < |s.pollers| && Idle(s.pollers[k])
    case Look(k, _) => k < |s.pollers| && !s.pollers[k].flush && s.pollers[k].todo != []
      && |s.pollers[k].refs| < Pools.NUM_REFID
    case Cancel(k) => k < |s.pollers| && s.pollers[k].flush && s.pollers[k].todo != []
    case Splice(k) => k < |s.pollers| && (|s.pollers[k].refs| == Pools.NUM_REFID || s.pollers[k].todo == [])
    case Report(k) => k < |s.pollers| && s.pollers[k].held == []
      && (|s.pollers[k].refs| == Pools.NUM_REFID || s.pollers[k].todo == [])
    case Repost(k) => k < |s.pollers| && s.pollers[k].todo == []
  }

  function Objs<T>(items: seq<Item<T>>): seq<T> {
    seq(|items|, i requires 0 <= i < |items| => items[i].obj)
  }

  function Named(id: nat): seq<nat> {
    if id != 0 then [id] else []
  }

  function Apply<T(==)>(s: Pool<T>, step: Step<T>): Pool<T>
    requires Enabled(s, step)
  {
    match step
    case Allocate => s.(free := s.free[1..], callers := s.callers + multiset{s.free[0]})
    case Release(obj, id) =>
      s.(callers := s.callers - multiset{obj}, list := [Item(obj, id)] + s.list, submitted := s.submitted + Named(id))
    case Return(obj) => s.(callers := s.callers - multiset{obj}, free := [obj] + s.free)
    case Detach(k, flush) => s.(list := [], pollers := s.pollers[k := Poller(flush, s.list, [], [], [])])
    case Look(k, done) => s.(pollers := s.pollers[k := LookAt(s.pollers[k], done)])
    case Cancel(k) =>
      var p := s.pollers[k];
      s.(pollers := s.pollers[k := p.(todo := p.todo[1..], held := p.held + [p.todo[0]])],
         reported := s.reported + Named(p.todo[0].id))
    case Splice(k) => s.(free := Objs(s.pollers[k].held) + s.free, pollers := s.pollers[k := s.pollers[k].(held := [])])
    case Report(k) => s.(reported := s.reported + s.pollers[k].refs,
                         pollers := s.pollers[k := s.pollers[k].(refs := [])])
    case Repost(k) => s.(list := s.pollers[k].kept + s.list, pollers := s.pollers[k := s.pollers[k].(kept := [])])
  }

  function LookAt<T>(p: Poller<T>, done: bool): Poller<T>
    requires p.todo != []
  {
    var x := p.todo[0];
    if done then p.(todo := p.todo[1..], held := p.held + [x], refs := p.refs + Named(x.id))
    else p.(todo := p.todo[1..], kept := p.kept + [x])
  }

  predicate Runs<T(==)>(steps: seq<Step<T>>, s: Pool<T>)
    decreases |steps|
  {
    steps == [] || (Enabled(s, steps[0]) && Runs(steps[1..], Apply(s, steps[0])))
  }

  function After<T(==)>(steps: seq<Step<T>>, s: Pool<T>): Pool<T>
    requires Runs(steps, s)
    decreases |steps|
  {
    if steps == [] then s else After(steps[1..], Apply(s, steps[0]))
  }

  /** A fresh pool: everything on the free list, and `threads` idle threads. */
  function Fresh<T(==)>(free: seq<T>, threads: nat): Pool<T> {
    Pool(free, [], multiset{}, seq(threads, _ => Poller(false, [], [], [], [])), [], [])
  }

  // ----- Where entries and identifiers are -----

  /** How often `x` occurs. */
  function Count<T(==)>(s: seq<T>, x: T): nat {
    if s == [] then 0 else (if s[0] == x then 1 else 0) + Count(s[1..], x)
  }

  function CountObj<T(==)>(s: seq<Item<T>>, x: T): nat {
    if s == [] then 0 else (if s[0].obj == x then 1 else 0) + CountObj(s[1..], x)
  }

  function CountId<T>(s: seq<Item<T>>, x: nat): nat {
    if s == [] then 0 else (if s[0].id != 0 && s[0].id == x then 1 else 0) + CountId(s[1..], x)
  }

  function ObjsOf<T(==)>(p: Poller<T>, x: T): nat {
    CountObj(p.todo, x) + CountObj(p.held, x) + CountObj(p.kept, x)
  }

  function IdsOf<T>(p: Poller<T>, x: nat): nat {
    CountId(p.todo, x) + CountId(p.kept, x) + Count(p.refs, x)
  }

  function AllObjs<T(==)>(ps: seq<Poller<T>>, x: T): nat {
    if ps == [] then 0 else ObjsOf(ps[0], x) + AllObjs(ps[1..], x)
  }

  function AllIds<T>(ps: seq<Poller<T>>, x: nat): nat {
    if ps == [] then 0 else IdsOf(ps[0], x) + AllIds(ps[1..], x)
  }

  /** In how many places an entry is. */
  function Entries<T(==)>(s: Pool<T>, x: T): nat {
    Count(s.free, x) + CountObj(s.list, x) + s.callers[x] + AllObjs(s.pollers, x)
  }

  /** In how many places an identifier is: entries to be polled, report buffers, reports. */
  function Requests<T(==)>(s: Pool<T>, x: nat): nat {
    CountId(s.list, x) + AllIds(s.pollers, x) + Count(s.reported, x)
  }

  lemma {:induction false} CountAppend<T>(a: seq<T>, b: seq<T>, x: T)
    ensures Count(a + b, x) == Count(a, x) + Count(b, x)
  {
    if a == [] {
      assert a + b == b;
    } else {
      assert (a + b)[1..] == a[1..] + b;
      CountAppend(a[1..], b, x);
    }
  }

  lemma {:induction false} CountObjAppend<T>(a: seq<Item<T>>, b: seq<Item<T>>, x: T)
    ensures CountObj(a + b, x) == CountObj(a, x) + CountObj(b, x)
  {
    if a == [] {
      assert a + b == b;
    } else {
      assert (a + b)[1..] == a[1..] + b;
      CountObjAppend(a[1..], b, x);
    }
  }

  lemma {:induction false} CountIdAppend<T>(a: seq<Item<T>>, b: seq<Item<T>>, x: nat)
    ensures CountId(a + b, x) == CountId(a, x) + CountId(b, x)
  {
    if a == [] {
      assert a + b == b;
    } else {
      assert (a + b)[1..] == a[1..] + b;
      CountIdAppend(a[1..], b, x);
    }
  }

  lemma {:induction false} CountObjs<T>(items: seq<Item<T>>, x: T)
    ensures Count(Objs(items), x) == CountObj(items, x)
  {
    if items != [] {
      assert Objs(items)[1..] == Objs(items[1..]);
      CountObjs(items[1..], x);
    }
  }

  lemma {:induction false} CountOneObj<T>(x: Item<T>, y: T)
    ensures CountObj([x], y) == Count([x.obj], y) == (if x.obj == y then 1 else 0)
  {
    assert [x][1..] == [] && [x.obj][1..] == [];
  }

  lemma {:induction false} CountOneId<T>(x: Item<T>, y: nat)
    ensures CountId([x], y) == Count(Named(x.id), y) == (if x.id != 0 && x.id == y then 1 else 0)
  {
    assert [x][1..] == [] && [x.id][1..] == [];
  }

  /** Replacing one thread's lists changes the totals by the difference. */
  lemma {:induction false} ReplaceObjs<T>(ps: seq<Poller<T>>, k: nat, p: Poller<T>, x: T)
    requires k < |ps|
    ensures AllObjs(ps[k := p], x) + ObjsOf(ps[k], x) == AllObjs(ps, x) + ObjsOf(p, x)
  {
    if k == 0 {
      assert ps[0 := p][1..] == ps[1..];
    } else {
      assert ps[k := p][1..] == ps[1..][k - 1 := p];
      ReplaceObjs(ps[1..], k - 1, p, x);
    }
  }

  lemma {:induction false} ReplaceIds<T>(ps: seq<Poller<T>>, k: nat, p: Poller<T>, x: nat)
    requires k < |ps|
    ensures AllIds(ps[k := p], x) + IdsOf(ps[k], x) == AllIds(ps, x) + IdsOf(p, x)
  {
    if k == 0 {
      assert ps[0 := p][1..] == ps[1..];
    } else {
      assert ps[k := p][1..] == ps[1..][k - 1 := p];
      ReplaceIds(ps[1..], k - 1, p, x);
    }
  }

  lemma {:induction false} LookKeepsObjs<T>(p: Poller<T>, done: bool, x: T)
    requires p.todo != []
    ensures ObjsOf(LookAt(p, done), x) == ObjsOf(p, x)
  {
    CountOneObj(p.todo[0], x);
    CountObjAppend(p.kept, [p.todo[0]], x);
    CountObjAppend(p.held, [p.todo[0]], x);
  }

  lemma {:induction false} LookKeepsIds<T>(p: Poller<T>, done: bool, x: nat)
    requires p.todo != []
    ensures IdsOf(LookAt(p, done), x) == IdsOf(p, x)
  {
    CountOneId(p.todo[0], x);
    CountIdAppend(p.kept, [p.todo[0]], x);
    CountAppend(p.refs, Named(p.todo[0].id), x);
  }

  lemma {:induction false} CancelKeepsIds<T>(p: Poller<T>, reported: seq<nat>, x: nat)
    requires p.todo != []
    ensures IdsOf(p.(todo := p.todo[1..], held := p.held + [p.todo[0]]), x) + Count(reported + Named(p.todo[0].id), x)
         == IdsOf(p, x) + Count(reported, x)
  {
    CountOneId(p.todo[0], x);
    CountAppend(reported, Named(p.todo[0].id), x);
  }

  /** No step moves an entry to two places or to none. */
  lemma {:induction false} StepKeepsEntries<T>(s: Pool<T>, step: Step<T>, x: T)
    requires Enabled(s, step)
    ensures Entries(Apply(s, step), x) == Entries(s, x)
  {
    var s' := Apply(s, step);
    match step {
      case Allocate =>
      case Release(obj, id) =>
        CountObjAppend([Item(obj, id)], s.list, x);
        CountOneObj(Item(obj, id), x);
      case Return(obj) =>
        CountAppend([obj], s.free, x);
        CountOneObj(Item(obj, 0), x);
      case Detach(k, flush) => ReplaceObjs(s.pollers, k, s'.pollers[k], x);
      case Look(k, done) =>
        LookKeepsObjs(s.pollers[k], done, x);
        ReplaceObjs(s.pollers, k, s'.pollers[k], x);
      case Cancel(k) =>
        CountOneObj(s.pollers[k].todo[0], x);
        CountObjAppend(s.pollers[k].held, [s.pollers[k].todo[0]], x);
        ReplaceObjs(s.pollers, k, s'.pollers[k], x);
      case Splice(k) =>
        CountAppend(Objs(s.pollers[k].held), s.free, x);
        CountObjs(s.pollers[k].held, x);
        ReplaceObjs(s.pollers, k, s'.pollers[k], x);
      case Report(k) => ReplaceObjs(s.pollers, k, s'.pollers[k], x);
      case Repost(k) =>
        CountObjAppend(s.pollers[k].kept, s.list, x);
        ReplaceObjs(s.pollers, k, s'.pollers[k], x);
    }
  }

  /** Nor an identifier. */
  lemma {:induction false} StepKeepsRequests<T>(s: Pool<T>, step: Step<T>, x: nat)
    requires Enabled(s, step) && Requests(s, x) == Count(s.submitted, x)
    ensures Requests(Apply(s, step), x) == Count(Apply(s, step).submitted, x)
  {
    var s' := Apply(s, step);
    match step {
      case Allocate =>
      case Release(obj, id) =>
        CountIdAppend([Item(obj, id)], s.list, x);
        CountOneId(Item(obj, id), x);
        CountAppend(s.submitted, Named(id), x);
      case Return(obj) =>
      case Detach(k, flush) => ReplaceIds(s.pollers, k, s'.pollers[k], x);
      case Look(k, done) =>
        LookKeepsIds(s.pollers[k], done, x);
        ReplaceIds(s.pollers, k, s'.pollers[k], x);
      case Cancel(k) =>
        CancelKeepsIds(s.pollers[k], s.reported, x);
        ReplaceIds(s.pollers, k, s'.pollers[k], x);
      case Splice(k) => ReplaceIds(s.pollers, k, s'.pollers[k], x);
      case Report(k) =>
        CountAppend(s.reported, s.pollers[k].refs, x);
        ReplaceIds(s.pollers, k, s'.pollers[k], x);
      case Repost(k) =>
        CountIdAppend(s.pollers[k].kept, s.list, x);
        ReplaceIds(s.pollers, k, s'.pollers[k], x);
    }
  }

  lemma {:induction false} RunKeepsEntries<T>(steps: seq<Step<T>>, s: Pool<T>, x: T)
    requires Runs(steps, s)
    ensures Entries(After(steps, s), x) == Entries(s, x)
    decreases |steps|
  {
    if steps != [] {
      StepKeepsEntries(s, steps[0], x);
      RunKeepsEntries(steps[1..], Apply(s, steps[0]), x);
    }
  }

  lemma {:induction false} RunKeepsRequests<T>(steps: seq<Step<T>>, s: Pool<T>, x: nat)
    requires Runs(steps, s) && Requests(s, x) == Count(s.submitted, x)
    ensures Requests(After(steps, s), x) == Count(After(steps, s).submitted, x)
    decreases |steps|
  {
    if steps != [] {
      StepKeepsRequests(s, steps[0], x);
      RunKeepsRequests(steps[1..], Apply(s, steps[0]), x);
    }
  }

  lemma {:induction false} IdleHoldsNoEntry<T>(ps: seq<Poller<T>>, x: T)
    requires forall k :: 0 <= k < |ps| ==> Idle(ps[k])
    ensures AllObjs(ps, x) == 0
  {
    if ps != [] {
      IdleHoldsNoEntry(ps[1..], x);
    }
  }

  lemma {:induction false} IdleHoldsNoRequest<T>(ps: seq<Poller<T>>, x: nat)
    requires forall k :: 0 <= k < |ps| ==> Idle(ps[k])
    ensures AllIds(ps, x) == 0
  {
    if ps != [] {
      IdleHoldsNoRequest(ps[1..], x);
    }
  }

  /** Over every run, every entry of the pool is in exactly one place, and every identifier is in as many places as
      it was handed in: in an entry to be polled, in a report buffer, or reported. */
  lemma {:induction false} NothingLostOrDoubled<T>(free: seq<T>, threads: nat, steps: seq<Step<T>>, s: Pool<T>, x: T,
                                                   id: nat)
    requires Runs(steps, Fresh(free, threads)) && s == After(steps, Fresh(free, threads))
    ensures Entries(s, x) == Count(free, x)
    ensures Requests(s, id) == Count(s.submitted, id)
  {
    IdleHoldsNoEntry(Fresh(free, threads).pollers, x);
    IdleHoldsNoRequest(Fresh(free, threads).pollers, id);
    RunKeepsEntries(steps, Fresh(free, threads), x);
    RunKeepsRequests(steps, Fresh(free, threads), id);
  }

  /** When no entry is left to be polled and all threads are idle, every identifier was reported exactly as often
      as it was handed in, and every entry is free or in a caller's hands. */
  lemma {:induction false} ReportedExactlyOnce<T>(free: seq<T>, threads: nat, steps: seq<Step<T>>, s: Pool<T>, x: T,
                                                  id: nat)
    requires Runs(steps, Fresh(free, threads)) && s == After(steps, Fresh(free, threads))
    requires s.list == [] && forall k :: 0 <= k < |s.pollers| ==> Idle(s.pollers[k])
    ensures Count(s.reported, id) == Count(s.submitted, id)
    ensures Count(s.free, x) + s.callers[x] == Count(free, x)
  {
    NothingLostOrDoubled(free, threads, steps, s, x, id);
    IdleHoldsNoEntry(s.pollers, x);
    IdleHoldsNoRequest(s.pollers, id);
  }

  // ----- When an entry is free before its identifier is reported -----

  function IdsIn<T>(items: seq<Item<T>>): seq<nat> {
    if items == [] then [] else Named(items[0].id) + IdsIn(items[1..])
  }

  /** A poll holds back exactly the entries whose identifiers wait in its report buffer, until it frees them;
      a flush has reported every identifier of the entries it holds back, and has no buffer. */
  predicate RefsFit<T>(p: Poller<T>, reported: seq<nat>) {
    if p.flush then p.refs == [] && forall i :: 0 <= i < |p.held| && p.held[i].id != 0 ==> p.held[i].id in reported
    else p.refs == IdsIn(p.held) || (p.held == [] && (|p.refs| == Pools.NUM_REFID || p.todo == []))
  }

  predicate AllRefsFit<T(==)>(s: Pool<T>) {
    forall k :: 0 <= k < |s.pollers| ==> RefsFit(s.pollers[k], s.reported)
  }

  lemma {:induction false} IdsInSnoc<T>(items: seq<Item<T>>, x: Item<T>)
    ensures IdsIn(items + [x]) == IdsIn(items) + Named(x.id)
  {
    if items == [] {
      assert items + [x] == [x] && [x][1..] == [];
    } else {
      assert (items + [x])[1..] == items[1..] + [x];
      IdsInSnoc(items[1..], x);
    }
  }

  lemma {:induction false} StepKeepsRefs<T>(s: Pool<T>, step: Step<T>)
    requires Enabled(s, step) && AllRefsFit(s)
    ensures AllRefsFit(Apply(s, step))
  {
    var s' := Apply(s, step);
    if step.Look? {
      IdsInSnoc(s.pollers[step.k].held, s.pollers[step.k].todo[0]);
    }
    forall k | 0 <= k < |s'.pollers| ensures RefsFit(s'.pollers[k], s'.reported) {
      assert RefsFit(s.pollers[k], s.reported);
    }
  }

  lemma {:induction false} RunKeepsRefs<T>(steps: seq<Step<T>>, s: Pool<T>)
    requires Runs(steps, s) && AllRefsFit(s)
    ensures AllRefsFit(After(steps, s))
    decreases |steps|
  {
    if steps != [] {
      StepKeepsRefs(s, steps[0]);
      RunKeepsRefs(steps[1..], Apply(s, steps[0]));
    }
  }

  lemma {:induction false} IdIn<T>(items: seq<Item<T>>, i: nat)
    requires i < |items| && items[i].id != 0
    ensures items[i].id in IdsIn(items)
  {
    if i > 0 {
      IdIn(items[1..], i - 1);
    }
  }

  lemma {:induction false} CountPositive<T>(s: seq<T>, x: T)
    ensures Count(s, x) > 0 <==> x in s
  {
    if s != [] {
      CountPositive(s[1..], x);
    }
  }

  lemma {:induction false} OneOfAll<T>(ps: seq<Poller<T>>, k: nat, x: nat)
    requires k < |ps|
    ensures IdsOf(ps[k], x) <= AllIds(ps, x)
  {
    if k > 0 {
      OneOfAll(ps[1..], k - 1, x);
    }
  }

  /** Over every run, an entry with an identifier is freed while that identifier waits in the freeing thread's
      report buffer if and only if the thread polls; a flushing thread has reported it. */
  lemma {:induction false} FreedWhileWaitingIff<T>(free: seq<T>, threads: nat, steps: seq<Step<T>>, s: Pool<T>, k: nat,
                                                   i: nat)
    requires Runs(steps, Fresh(free, threads)) && s == After(steps, Fresh(free, threads)) && Enabled(s, Splice(k))
    requires i < |s.pollers[k].held| && s.pollers[k].held[i].id != 0
    ensures s.pollers[k].held[i].id in s.pollers[k].refs <==> !s.pollers[k].flush
    ensures s.pollers[k].flush ==> s.pollers[k].held[i].id in s.reported
  {
    RunKeepsRefs(steps, Fresh(free, threads));
    assert RefsFit(s.pollers[k], s.reported);
    IdIn(s.pollers[k].held, i);
  }

  /** So an identifier that was handed in once is reported by the time its entry is free if and only if the entry
      was flushed. */
  lemma {:induction false} FreedBeforeReportedIff<T>(free: seq<T>, threads: nat, steps: seq<Step<T>>, s: Pool<T>,
                                                     k: nat, i: nat)
    requires Runs(steps, Fresh(free, threads)) && s == After(steps, Fresh(free, threads)) && Enabled(s, Splice(k))
    requires i < |s.pollers[k].held| && s.pollers[k].held[i].id != 0 && Count(s.submitted, s.pollers[k].held[i].id) == 1
    ensures s.pollers[k].held[i].obj in Apply(s, Splice(k)).free
    ensures s.pollers[k].held[i].id in Apply(s, Splice(k)).reported <==> s.pollers[k].flush
  {
    var id := s.pollers[k].held[i].id;
    FreedWhileWaitingIff(free, threads, steps, s, k, i);
    NothingLostOrDoubled(free, threads, steps, s, s.pollers[k].held[i].obj, id);
    CountPositive(s.pollers[k].refs, id);
    CountPositive(s.reported, id);
    OneOfAll(s.pollers, k, id);
    assert Objs(s.pollers[k].held)[i] == s.pollers[k].held[i].obj;
  }

  /** Five steps of a pool with one entry and one thread reach such a state: free, and not reported. */
  lemma {:induction false} FreedBeforeReported<T>(x: T, id: nat)
    requires id != 0
    ensures var steps := [Allocate, Release(x, id), Detach(0, false), Look(0, true), Splice(0)];
            Runs(steps, Fresh([x], 1)) && After(steps, Fresh([x], 1)).free == [x]
              && After(steps, Fresh([x], 1)).reported == []
  {
    var s1 := Apply(Fresh([x], 1), Allocate);
    var s2 := Apply(s1, Release(x, id));
    var s3 := Apply(s2, Detach(0, false));
    var s4 := Apply(s3, Look(0, true));
    var s5 := Apply(s4, Splice(0));
    assert s3.pollers[0].todo == [Item(x, id)] && s4.pollers[0].held == [Item(x, id)] && s5.free == [x];
    var none: seq<Step<T>> := [];
    assert Runs(none, s5) && After(none, s5) == s5;
    Prefixed(Splice(0), none, s4);
    Prefixed(Look(0, true), [Splice(0)], s3);
    Prefixed(Detach(0, false), [Look(0, true), Splice(0)], s2);
    Prefixed(Release(x, id), [Detach(0, false), Look(0, true), Splice(0)], s1);
    Prefixed(Allocate, [Release(x, id), Detach(0, false), Look(0, true), Splice(0)], Fresh([x], 1));
  }

  lemma {:induction false} Prefixed<T>(step: Step<T>, steps: seq<Step<T>>, s: Pool<T>)
    requires Enabled(s, step) && Runs(steps, Apply(s, step))
    ensures Runs([step] + steps, s) && After([step] + steps, s) == After(steps, Apply(s, step))
  {
    assert ([step] + steps)[1..] == steps;
  }
}
