/** The connection blocks of one node, on heap lists: free, and per IO link pending, active and aborted. */
module Connections {

  datatype ConnState = Free | Pending | Active | Aborted | Disconnecting

  /** A block's note of which link's list it uses; a block that never had one notes none. */
  datatype Link = NoLink | Link(i: nat)

  class Connection {
    var next: Connection?
    var prev: Connection?
    var state: ConnState
    var pend: Link
    var active: Link
    var abort: Link
  }

  function After(s: seq<Connection>, i: nat): Connection? {
    if i + 1 < |s| then s[i + 1] else null
  }

  function Ahead(s: seq<Connection>, i: nat): Connection?
    requires i <= |s|
  {
    if i > 0 then s[i - 1] else null
  }

  function First(s: seq<Connection>): Connection? {
    if s == [] then null else s[0]
  }

  /** Following `next` from `head` visits exactly these blocks. */
  ghost predicate Chain(head: Connection?, s: seq<Connection>)
    reads s
  {
    head == First(s) && forall i {:trigger s[i].next} :: 0 <= i < |s| ==> s[i].next == After(s, i)
  }

  /** The same, with `prev` leading back. */
  ghost predicate DoubleChain(head: Connection?, s: seq<Connection>)
    reads s
  {
    Chain(head, s) && forall i {:trigger s[i].prev} :: 0 <= i < |s| ==> s[i].prev == Ahead(s, i)
  }

  predicate NoDup<T(==)>(s: seq<T>) {
    forall i, j :: 0 <= i < j < |s| ==> s[i] != s[j]
  }

  predicate Apart(a: seq<Connection>, b: seq<Connection>) {
    forall x :: x in a ==> x !in b
  }

  function Without(s: seq<Connection>, k: nat): seq<Connection>
    requires k < |s|
  {
    s[..k] + s[k + 1..]
  }

  function HeadOr(head: Connection?, x: Connection): Connection {
    if head == null then x else head
  }

  /** Block `k` has been bridged: its neighbours skip it. */
  ghost predicate Bridged(s: seq<Connection>, k: nat)
    requires k < |s|
    reads s
  {
    forall i :: 0 <= i < |s| && i != k ==>
      && s[i].next == (if i + 1 == k then After(s, k) else After(s, i))
      && s[i].prev == (if i == k + 1 then Ahead(s, k) else Ahead(s, i))
  }

  lemma {:induction false} BridgedIsChain(s: seq<Connection>, k: nat)
    requires k < |s| && Bridged(s, k)
    ensures DoubleChain(First(Without(s, k)), Without(s, k))
  {
    var t := Without(s, k);
    forall i | 0 <= i < |t| ensures t[i].next == After(t, i) && t[i].prev == Ahead(t, i) {
      var m := if i < k then i else i + 1;
      assert t[i] == s[m] && m != k;
    }
  }

  /** The part common to activating and freeing: the neighbours of a block are linked to each other. */
  method Unlink(x: Connection, ghost head: Connection?, ghost s: seq<Connection>, ghost k: nat)
    requires k < |s| && s[k] == x && DoubleChain(head, s) && NoDup(s)
    modifies HeadOr(x.next, x)`prev, HeadOr(x.prev, x)`next
    ensures DoubleChain(if k == 0 then x.next else head, Without(s, k))
    ensures x.next == old(x.next) && x.prev == old(x.prev)
  {
    assert x.next == After(s, k) && x.prev == Ahead(s, k);
    if x.next != null {
      x.next.prev := x.prev;
    }
    if x.prev != null {
      x.prev.next := x.next;
    }
    assert Bridged(s, k);
    BridgedIsChain(s, k);
  }

  /** Puts a block at the head of a double list. */
  method Push(x: Connection, head: Connection?, ghost s: seq<Connection>)
    requires DoubleChain(head, s) && NoDup(s) && x !in s
    modifies x`next, x`prev, HeadOr(head, x)`prev
    ensures DoubleChain(x, [x] + s)
  {
    if head != null {
      head.prev := x;
    }
    x.next := head;
    x.prev := null;
  }

  lemma {:induction false} NeighboursIn(head: Connection?, s: seq<Connection>, k: nat)
    requires k < |s| && DoubleChain(head, s)
    ensures HeadOr(s[k].next, s[k]) in s && HeadOr(s[k].prev, s[k]) in s
  {
  }

  lemma {:induction false} WithoutIn(s: seq<Connection>, k: nat)
    requires k < |s| && NoDup(s)
    ensures s[k] !in Without(s, k) && NoDup(Without(s, k))
    ensures forall y :: y in Without(s, k) ==> y in s
  {
  }

  predicate Zeroed(x: Connection)
    reads x
  {
    x.state == Free && x.prev == null && x.pend == x.active == x.abort == NoLink
  }

  /** How `connection_free` ends: well, or with a reference through a list pointer that the block never had. */
  datatype Outcome = Done | Fault

  class Context {
    var free: Connection?
    var pend: seq<Connection?>
    var active: seq<Connection?>
    var abort: seq<Connection?>

    /** `conn_list_init`: all blocks of the region, in order, on the free list, and every other list empty. The
        region comes zeroed, so no block has a list pointer. */
    method ConnListInit(blocks: seq<Connection>, links: nat)
      requires blocks != [] && NoDup(blocks)
      modifies this, blocks
      ensures Chain(free, blocks) && pend == active == abort == seq(links, _ => null)
      ensures forall i :: 0 <= i < |blocks| ==> Zeroed(blocks[i])
    {
      pend := seq(links, _ => null);
      active, abort := pend, pend;
      free := blocks[0];
      var i := 0;
      while i < |blocks|
        modifies blocks
        invariant i <= |blocks|
        invariant forall j :: 0 <= j < i ==> blocks[j].next == After(blocks, j) && Zeroed(blocks[j])
      {
        blocks[i].pend, blocks[i].active, blocks[i].abort := NoLink, NoLink, NoLink;
        blocks[i].state := Free;
        blocks[i].next := if i + 1 < |blocks| then blocks[i + 1] else null;
        blocks[i].prev := null;
        i := i + 1;
      }
    }

    /** Pops the free list; the block is on no list then. */
    method GetFree(ghost f: seq<Connection>) returns (x: Connection?)
      requires Chain(free, f) && NoDup(f)
      modifies this`free, (if f == [] then {} else {f[0]})`next, (if f == [] then {} else {f[0]})`prev
      ensures x == First(f) && Chain(free, if f == [] then [] else f[1..])
      ensures x != null ==> x.next == null && x.prev == null
    {
      x := free;
      if x != null {
        free := x.next;
        x.next, x.prev := null, null;
      }
    }

    method PutOnPending(x: Connection, i: nat, ghost p: seq<Connection>)
      requires i < |pend| && DoubleChain(pend[i], p) && NoDup(p) && x !in p
      modifies this`pend, x, HeadOr(pend[i], x)`prev
      ensures pend == old(pend)[i := x] && DoubleChain(pend[i], [x] + p)
      ensures x.state == Pending && x.pend == Link(i) && x.active == old(x.active) && x.abort == old(x.abort)
    {
      x.pend := Link(i);
      x.state := Pending;
      Push(x, pend[i], p);
      pend := pend[i := x];
    }

    method TakeOffPending(x: Connection, ghost p: seq<Connection>, ghost k: nat, ghost head: Connection?,
                          ghost a: seq<Connection>)
      requires x.pend.Link? && x.pend.i < |pend| && k < |p| && p[k] == x && DoubleChain(pend[x.pend.i], p) && NoDup(p)
      requires DoubleChain(head, a) && Apart(p, a)
      modifies this`pend, HeadOr(x.next, x)`prev, HeadOr(x.prev, x)`next
      ensures pend == old(pend)[x.pend.i := First(Without(p, k))] && DoubleChain(pend[x.pend.i], Without(p, k))
      ensures DoubleChain(head, a)
    {
      NeighboursIn(pend[x.pend.i], p, k);
      assert x in p && HeadOr(x.next, x) !in a && HeadOr(x.prev, x) !in a;
      Unlink(x, pend[x.pend.i], p, k);
      if pend[x.pend.i] == x {
        pend := pend[x.pend.i := x.next];
      }
    }

    method PutOnActive(x: Connection, ghost a: seq<Connection>, ghost head: Connection?, ghost rest: seq<Connection>)
      requires x.active.Link? && x.active.i < |active| && DoubleChain(active[x.active.i], a) && NoDup(a) && x !in a
      requires DoubleChain(head, rest) && Apart(rest, a) && x !in rest
      modifies this`active, x`next, x`prev, x`state, HeadOr(active[x.active.i], x)`prev
      ensures x.state == Active
      ensures active == old(active)[x.active.i := x] && DoubleChain(x, [x] + a) && DoubleChain(head, rest)
    {
      assert HeadOr(active[x.active.i], x) !in rest;
      Push(x, active[x.active.i], a);
      x.state := Active;
      active := active[x.active.i := x];
    }

    /** Moves a block from wherever it is on its pending list to the head of its active list. */
    method Activate(x: Connection, ghost p: seq<Connection>, ghost k: nat, ghost a: seq<Connection>)
      requires x.pend.Link? && x.pend.i < |pend| && x.active.Link? && x.active.i < |active|
      requires k < |p| && p[k] == x && DoubleChain(pend[x.pend.i], p) && NoDup(p)
      requires DoubleChain(active[x.active.i], a) && NoDup(a) && Apart(p, a)
      modifies this`pend, this`active, x`next, x`prev, x`state, HeadOr(x.next, x)`prev, HeadOr(x.prev, x)`next,
               HeadOr(active[x.active.i], x)`prev
      ensures x.state == Active
      ensures pend == old(pend)[x.pend.i := First(Without(p, k))] && DoubleChain(pend[x.pend.i], Without(p, k))
      ensures active == old(active)[x.active.i := x] && DoubleChain(x, [x] + a)
    {
      ghost var rest := Without(p, k);
      WithoutIn(p, k);
      TakeOffPending(x, p, k, active[x.active.i], a);
      assert x !in a && Apart(rest, a);
      PutOnActive(x, a, pend[x.pend.i], rest);
    }

    /** The links a block notes exist. */
    predicate LinksExist(x: Connection)
      reads this, x
    {
      && (x.active.Link? ==> x.active.i < |active|) && (x.pend.Link? ==> x.pend.i < |pend|)
      && (x.abort.Link? ==> x.abort.i < |abort|)
    }

    predicate HeadsActive(x: Connection)
      requires LinksExist(x)
      reads this, x
    {
      x.active.Link? && active[x.active.i] == x
    }

    predicate HeadsPending(x: Connection)
      requires LinksExist(x)
      reads this, x
    {
      x.pend.Link? && pend[x.pend.i] == x
    }

    predicate HeadsAbort(x: Connection)
      requires LinksExist(x)
      reads this, x
    {
      x.abort.Link? && abort[x.abort.i] == x
    }

    /** What freeing does to the heads, for a block that nothing precedes: the active list is looked at first, then
        the pending list, then the abort list; a block at the head of the abort list changes the head of its pending
        list. */
    method FixHeads(x: Connection) returns (r: Outcome)
      requires LinksExist(x)
      modifies this`pend, this`active
      ensures r == Fault <==>
        old(x.active.NoLink? || (!HeadsActive(x) && (x.pend.NoLink? || (!HeadsPending(x) && x.abort.NoLink?))))
      ensures active == if old(HeadsActive(x)) then old(active)[x.active.i := x.next] else old(active)
      ensures pend == if r == Done && old(!HeadsActive(x) && (HeadsPending(x) || HeadsAbort(x)))
        then old(pend)[x.pend.i := x.next]
                      else old(pend)
    {
      if x.active.NoLink? {
        return Fault;
      }
      if active[x.active.i] == x {
        active := active[x.active.i := x.next];
        return Done;
      }
      if x.pend.NoLink? {
        return Fault;
      }
      if pend[x.pend.i] == x {
        pend := pend[x.pend.i := x.next];
        return Done;
      }
      if x.abort.NoLink? {
        return Fault;
      }
      if abort[x.abort.i] == x {
        pend := pend[x.pend.i := x.next];
      }
      r := Done;
    }

    /** The end of freeing: the block goes in front of the free list. */
    method PushFree(x: Connection, ghost f: seq<Connection>, ghost rest: seq<Connection>)
      requires Chain(free, f) && x !in f && DoubleChain(First(rest), rest) && x !in rest
      modifies this`free, x`next, x`prev
      ensures free == x && Chain(free, [x] + f) && DoubleChain(First(rest), rest)
    {
      x.prev := null;
      x.next := free;
      free := x;
    }

    /** The block is marked free and leaves the list it is on. */
    method Leave(x: Connection, ghost head: Connection?, ghost s: seq<Connection>, ghost k: nat,
                 ghost f: seq<Connection>)
      requires DoubleChain(head, s) && NoDup(s) && k < |s| && s[k] == x && Chain(free, f) && Apart(s, f)
      modifies x`state, HeadOr(x.next, x)`prev, HeadOr(x.prev, x)`next
      ensures x.state == Free && DoubleChain(First(Without(s, k)), Without(s, k)) && Chain(free, f)
      ensures x.next == old(x.next) == After(s, k) && x.prev == old(x.prev) == Ahead(s, k)
    {
      NeighboursIn(head, s, k);
      ghost var n, p := HeadOr(x.next, x), HeadOr(x.prev, x);
      assert n !in f && p !in f && x in s && x !in f;
      x.state := Free;
      Unlink(x, head, s, k);
    }

    /** The block leaves its list, and the heads are put right. */
    method Detach(x: Connection, ghost head: Connection?, ghost s: seq<Connection>, ghost k: nat,
                  ghost f: seq<Connection>)
      returns (r: Outcome)
      requires LinksExist(x) && DoubleChain(head, s) && NoDup(s) && k < |s| && s[k] == x && Chain(free, f)
        && Apart(s, f)
      modifies this`pend, this`active, x`state, HeadOr(x.next, x)`prev, HeadOr(x.prev, x)`next
      ensures x.state == Free && DoubleChain(First(Without(s, k)), Without(s, k)) && Chain(free, f)
      ensures r == Fault <==>
        k == 0 &&
          old(x.active.NoLink? || (!HeadsActive(x) && (x.pend.NoLink? || (!HeadsPending(x) && x.abort.NoLink?))))
      ensures active == if k == 0 && old(HeadsActive(x)) then old(active)[x.active.i := After(s, 0)] else old(active)
      ensures pend == if r == Done && k == 0 && old(!HeadsActive(x) && (HeadsPending(x) || HeadsAbort(x)))
                      then old(pend)[x.pend.i := After(s, 0)] else old(pend)
    {
      Leave(x, head, s, k, f);
      r := Done;
      if x.prev == null {
        r := FixHeads(x);
      }
    }

    /** `connection_free` for a block on a double list, or by itself: it leaves the list, wherever it is, and goes
        on the free list. Only a block that nothing precedes can change a head, or miss a list that it never had. */
    method ConnectionFree(x: Connection, ghost head: Connection?, ghost s: seq<Connection>, ghost k: nat,
                          ghost f: seq<Connection>)
      returns (r: Outcome)
      requires LinksExist(x) && DoubleChain(head, s) && NoDup(s) && k < |s| && s[k] == x && Chain(free, f)
        && Apart(s, f)
      modifies this`free, this`pend, this`active, x`next, x`prev, x`state, HeadOr(x.next, x)`prev,
        HeadOr(x.prev, x)`next
      ensures x.state == Free && DoubleChain(First(Without(s, k)), Without(s, k))
      ensures r == Fault <==>
        k == 0 &&
          old(x.active.NoLink? || (!HeadsActive(x) && (x.pend.NoLink? || (!HeadsPending(x) && x.abort.NoLink?))))
      ensures active == if k == 0 && old(HeadsActive(x)) then old(active)[x.active.i := After(s, 0)] else old(active)
      ensures pend == if r == Done && k == 0 && old(!HeadsActive(x) && (HeadsPending(x) || HeadsAbort(x)))
                      then old(pend)[x.pend.i := After(s, 0)] else old(pend)
      ensures if r == Done then Chain(free, [x] + f) else free == old(free) && Chain(free, f)
    {
      WithoutIn(s, k);
      assert x in s && x !in f;
      r := Detach(x, head, s, k, f);
      if r == Done {
        PushFree(x, f, Without(s, k));
      }
    }

    /** `disable_active_connection_list`: every connection of the list is disconnecting and no longer knows its list. */
    method DisableActive(i: nat, ghost a: seq<Connection>)
      requires i < |active| && DoubleChain(active[i], a) && NoDup(a)
      modifies a`state, a`active
      ensures DoubleChain(active[i], a)
      ensures Marked(a, |a|, Disconnecting, true)
    {
      var last, count := MarkAll(active[i], a, Disconnecting, true);
    }

    /** `disable_pending_connection_list`: the pending list is aborted and moved in front of the abort list. The
        abort list's old head does not learn what precedes it now, so the result is a double list only if one of the
        two was empty. */
    method DisablePending(i: nat, ghost p: seq<Connection>, ghost b: seq<Connection>) returns (num: nat)
      requires i < |pend| && i < |abort| && DoubleChain(pend[i], p) && Chain(abort[i], b)
      requires NoDup(p) && NoDup(b) && Apart(p, b)
      modifies this`pend, this`abort, p`state, p`active, p`next
      ensures num == |p| && pend == old(pend)[i := null] && |abort| == |old(abort)| && Chain(abort[i], p + b)
      ensures abort == old(abort)[i := abort[i]] && forall j :: 0 <= j < |p| ==> p[j].active == old(p[j].active)
      ensures Marked(p, |p|, Aborted, false)
      ensures old(DoubleChain(abort[i], b)) ==> (DoubleChain(abort[i], p + b) <==> p == [] || b == [])
    {
      var last: Connection?;
      assert Apart(b, p);
      ghost var double := DoubleChain(abort[i], b);
      last, num := MarkAll(pend[i], p, Aborted, false);
      assert Chain(abort[i], b) && (double ==> DoubleChain(abort[i], b));
      MoveToAbort(i, last, p, b);
    }

    method MoveToAbort(i: nat, last: Connection?, ghost p: seq<Connection>, ghost b: seq<Connection>)
      requires i < |pend| && i < |abort| && DoubleChain(pend[i], p) && Chain(abort[i], b)
        && Marked(p, |p|, Aborted, false)
      requires last == Ahead(p, |p|) && NoDup(p) && Apart(p, b)
      modifies this`pend, this`abort, p`next
      ensures pend == old(pend)[i := null] && |abort| == |old(abort)| && Chain(abort[i], p + b)
      ensures abort == old(abort)[i := abort[i]]
      ensures Marked(p, |p|, Aborted, false)
      ensures old(DoubleChain(abort[i], b)) ==> (DoubleChain(abort[i], p + b) <==> p == [] || b == [])
    {
      if last != null {
        Join(pend[i], last, p, abort[i], b, Aborted, false);
        abort := abort[i := pend[i]];
        pend := pend[i := null];
      } else {
        assert p + b == b;
      }
    }

    /** `flush_iolink_connection_list`: every connection of the active list is freed, and the whole list goes in
        front of the free list; each is told of the disconnection on the way, which is not part of this method. */
    method FlushActive(i: nat, ghost a: seq<Connection>, ghost f: seq<Connection>)
      requires i < |active| && DoubleChain(active[i], a) && NoDup(a) && Chain(free, f) && Apart(a, f)
      modifies this`active, this`free, a`state, a`active, a`next
      ensures active == old(active)[i := null] && Chain(free, a + f) && Marked(a, |a|, Free, true)
    {
      var first := active[i];
      assert Apart(f, a);
      var last, count := MarkAll(first, a, Free, true);
      if last == null {
        assert a + f == f;
        return;
      }
      Join(first, last, a, free, f, Free, true);
      free := first;
      active := active[i := null];
    }
  }

  /** The loops over a whole list: every block gets a state and, where asked, forgets its active list. */
  method MarkAll(head: Connection?, ghost s: seq<Connection>, state: ConnState, forget: bool)
    returns (last: Connection?, count: nat)
    requires DoubleChain(head, s) && NoDup(s)
    modifies s`state, s`active
    ensures DoubleChain(head, s) && count == |s| && last == Ahead(s, |s|) && Marked(s, |s|, state, forget)
    ensures !forget ==> forall i :: 0 <= i < |s| ==> s[i].active == old(s[i].active)
  {
    var x := head;
    last, count := null, 0;
    while x != null
      invariant count <= |s| && x == (if count < |s| then s[count] else null) && last == Ahead(s, count)
      invariant DoubleChain(head, s) && Marked(s, count, state, forget)
      invariant !forget ==> forall i :: 0 <= i < |s| ==> s[i].active == old(s[i].active)
      modifies s`state, s`active
      decreases |s| - count
    {
      MarkOne(x, head, s, count, state, forget);
      last := x;
      count := count + 1;
      x := x.next;
    }
  }

  /** The first `k` blocks have this state and, where asked, no active list. */
  ghost predicate Marked(s: seq<Connection>, k: nat, state: ConnState, forget: bool)
    reads s
  {
    forall i :: 0 <= i < k && i < |s| ==> s[i].state == state && (forget ==> s[i].active == NoLink)
  }

  method MarkOne(x: Connection, ghost head: Connection?, ghost s: seq<Connection>, ghost k: nat, state: ConnState,
                 forget: bool)
    requires DoubleChain(head, s) && NoDup(s) && k < |s| && s[k] == x && Marked(s, k, state, forget)
    modifies x`state, x`active
    ensures DoubleChain(head, s) && Marked(s, k + 1, state, forget)
    ensures !forget ==> x.active == old(x.active)
  {
    x.state := state;
    if forget {
      x.active := NoLink;
    }
  }

  /** Links a whole list in front of another one. */
  method Join(first: Connection?, last: Connection, ghost a: seq<Connection>, rest: Connection?,
              ghost b: seq<Connection>, ghost state: ConnState, ghost forget: bool)
    requires Marked(a, |a|, state, forget)
    requires DoubleChain(first, a) && NoDup(a) && a != [] && last == a[|a| - 1] && Chain(rest, b) && Apart(a, b)
    modifies last`next
    ensures Chain(first, a + b) && Chain(rest, b)
    ensures old(DoubleChain(rest, b)) ==> (DoubleChain(first, a + b) <==> b == [])
    ensures Marked(a, |a|, state, forget)
  {
    assert last in a && last !in b;
    ghost var double := DoubleChain(rest, b);
    last.next := rest;
    assert double ==> DoubleChain(rest, b);
    Joined(a, b);
  }

  /** Two lists whose last and first blocks are linked by `next` only. */
  lemma {:induction false} Joined(a: seq<Connection>, b: seq<Connection>)
    requires a != [] && NoDup(a) && Apart(a, b)
    requires a[|a| - 1].next == First(b) && (forall i :: 0 <= i < |a| - 1 ==> a[i].next == After(a, i))
    requires Chain(First(b), b) && forall i :: 0 <= i < |a| ==> a[i].prev == Ahead(a, i)
    ensures Chain(First(a), a + b)
    ensures DoubleChain(First(b), b) ==> (DoubleChain(First(a), a + b) <==> b == [])
  {
    var all := a + b;
    forall j | 0 <= j < |all| ensures all[j].next == After(all, j) {
      assert j >= |a| ==> all[j] == b[j - |a|];
    }
    if b != [] {
      assert all[|a|] == b[0] && Ahead(all, |a|) == a[|a| - 1];
      assert DoubleChain(First(b), b) ==> b[0].prev == null;
      assert DoubleChain(First(a), all) ==> all[|a|].prev == a[|a| - 1];
    } else {
      assert all == a;
    }
  }

  // ----- What freeing a block means for the lists -----

  /** The head that `connection_free` leaves is that of the list without the block. */
  lemma {:induction false} HeadWithout(s: seq<Connection>, k: nat, head: Connection?)
    requires k < |s| && head == s[0]
    ensures First(Without(s, k)) == if k == 0 then After(s, 0) else head
  {
  }
}
