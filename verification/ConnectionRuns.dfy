/** The calls on connection blocks, on the heap and over any run: every list is the one of the protocol, and no two
    share a block. */
module ConnectionRuns {
  import opened Connections
  import opened ConnectionProtocol

  ghost function NoteOf(x: Connection): Note
    reads x
  {
    Note(x.state, x.pend, x.active, x.abort)
  }

  ghost function HeadOf(c: Context, w: Where): Connection?
    reads c
  {
    match w
    case FreeList => c.free
    case Floating => null
    case PendList(i) => if i < |c.pend| then c.pend[i] else null
    case ActiveList(i) => if i < |c.active| then c.active[i] else null
    case AbortList(i) => if i < |c.abort| then c.abort[i] else null
  }

  /** One list on the heap. Pending and active lists lead both ways; free and abort lists are only ever followed by
      `next`. */
  ghost predicate ListOk(c: Context, w: Where, l: seq<Connection>)
    reads c, l
  {
    if w == Floating then forall k :: 0 <= k < |l| ==> l[k].next == null && l[k].prev == null
    else if w.PendList? || w.ActiveList? then DoubleChain(HeadOf(c, w), l)
    else Chain(HeadOf(c, w), l)
  }

  ghost predicate Sized(c: Context, links: nat)
    reads c
  {
    |c.pend| == |c.active| == |c.abort| == links
  }

  ghost predicate NotesOk(note: map<Connection, Note>)
    reads note.Keys
  {
    forall x :: x in note.Keys ==> NoteOf(x) == note[x]
  }

  ghost predicate ListsOk(c: Context, s: Layout<Connection>)
    requires Placed(s)
    reads c, s.at.Keys
  {
    forall w :: w in s.lists ==> (forall x :: x in s.lists[w] ==> x in s.at.Keys) && ListOk(c, w, s.lists[w])
  }

  /** The heap is laid out like this. */
  ghost predicate Holds(c: Context, s: Layout<Connection>)
    reads c, s.at.Keys
  {
    Placed(s) && Sized(c, s.links) && NotesOk(s.note) && ListsOk(c, s)
  }

  lemma {:induction false} ListedHere(s: Layout<Connection>, w: Where, x: Connection)
    requires Placed(s) && w in s.lists
    ensures x in s.lists[w] <==> x in s.at && s.at[x] == w
  {
    assert Listed(s, w);
  }

  lemma {:induction false} AllListed(s: Layout<Connection>)
    requires Placed(s)
    ensures forall w :: w in s.lists ==> forall x :: x in s.lists[w] ==> x in s.at.Keys
  {
    forall w | w in s.lists ensures forall x :: x in s.lists[w] ==> x in s.at.Keys {
      assert Listed(s, w);
    }
  }

  // ----- What a call on two lists leaves alone -----

  /** The lists that a call does not work on; all their blocks are among `rest`. */
  ghost predicate Others(c: Context, lists: map<Where, seq<Connection>>, rest: set<Connection>)
    reads c, rest
  {
    forall w :: w in lists ==> (forall x :: x in lists[w] ==> x in rest) && ListOk(c, w, lists[w])
  }

  function Blocks(l: seq<Connection>): set<Connection> {
    set x | x in l
  }

  /** The blocks that are on neither of two lists. */
  function Rest(s: Layout<Connection>, a: Where, b: Where): set<Connection>
    requires a in s.lists && b in s.lists
  {
    s.at.Keys - Blocks(s.lists[a]) - Blocks(s.lists[b])
  }

  lemma {:induction false} OthersOf(c: Context, s: Layout<Connection>, a: Where, b: Where)
    requires Holds(c, s) && a in s.lists && b in s.lists
    ensures Others(c, s.lists - {a, b}, Rest(s, a, b))
  {
    AllListed(s);
    forall w, x | w in s.lists - {a, b} && x in s.lists[w] ensures x in Rest(s, a, b) {
      ListedHere(s, w, x);
      ListedHere(s, a, x);
      ListedHere(s, b, x);
    }
  }

  /** The heap after one block has moved to the front of another list. */
  lemma {:induction false} ShiftHolds(c: Context, s: Layout<Connection>, x: Connection, to: Where,
                                      rest: set<Connection>)
    requires Placed(s) && x in s.at && to in s.lists && to != s.at[x] && s.at[x] in s.lists
    requires NoteFits(s.links, to, Arrived(s.note[x], to)) && Sized(c, s.links)
    requires Others(c, s.lists - {s.at[x], to}, rest)
    requires ListOk(c, s.at[x], Remove(s.lists[s.at[x]], x)) && ListOk(c, to, [x] + s.lists[to])
    requires NotesOk(s.note[x := Arrived(s.note[x], to)])
    ensures Holds(c, Shift(s, x, to))
  {
    var s' := Shift(s, x, to);
    ShiftKeeps(s, x, to);
    AllListed(s');
    forall w | w in s'.lists ensures ListOk(c, w, s'.lists[w]) {
      assert w != to && w != s.at[x] ==> w in s.lists - {s.at[x], to};
    }
  }

  /** The heap after a whole list has moved in front of another one. */
  lemma {:induction false} PourHolds(c: Context, s: Layout<Connection>, from: Where, to: Where, state: ConnState,
                                     forget: bool, rest: set<Connection>)
    requires Placed(s) && from in s.lists && to in s.lists && from != to && Sized(c, s.links)
    requires Placed(Pour(s, from, to, state, forget))
    requires Others(c, s.lists - {from, to}, rest)
    requires ListOk(c, from, []) && ListOk(c, to, s.lists[from] + s.lists[to])
    requires NotesOk(Renote(s, from, state, forget))
    ensures Holds(c, Pour(s, from, to, state, forget))
  {
    var s' := Pour(s, from, to, state, forget);
    AllListed(s');
    forall w | w in s'.lists ensures ListOk(c, w, s'.lists[w]) {
      assert w != to && w != from ==> w in s.lists - {from, to};
    }
  }

  /** Where a block is on its list. */
  lemma {:induction false} Position(s: Layout<Connection>, x: Connection) returns (k: nat)
    requires Placed(s) && x in s.at
    ensures s.at[x] in s.lists && k < |s.lists[s.at[x]]| && s.lists[s.at[x]][k] == x && NoDup(s.lists[s.at[x]])
    ensures Remove(s.lists[s.at[x]], x) == Without(s.lists[s.at[x]], k)
    ensures Leads(s, x) <==> s.at[x] == Floating || k == 0
  {
    assert Listed(s, s.at[x]);
    k :| 0 <= k < |s.lists[s.at[x]]| && s.lists[s.at[x]][k] == x;
    RemoveOnce(s.lists[s.at[x]], x, k);
  }

  lemma {:induction false} ListsApart(s: Layout<Connection>, a: Where, b: Where)
    requires Placed(s) && a in s.lists && b in s.lists && a != b
    ensures NoDup(s.lists[a]) && NoDup(s.lists[b]) && Apart(s.lists[a], s.lists[b])
  {
    assert Listed(s, a) && Listed(s, b);
  }

  // ----- The calls -----

  method Start(c: Context, blocks: seq<Connection>, links: nat)
    requires blocks != [] && NoDup(blocks)
    modifies c, blocks
    ensures Holds(c, Fresh(blocks, links))
  {
    c.ConnListInit(blocks, links);
    ghost var s := Fresh(blocks, links);
    FreshIsPlaced(blocks, links);
    AllListed(s);
    forall w | w in s.lists ensures ListOk(c, w, s.lists[w]) {
      PlacesExist(links, w);
    }
  }

  /** The call, and what it leaves alone. */
  method GetFreeBlock(c: Context, ghost f: seq<Connection>, ghost taken: seq<Connection>,
                      ghost others: map<Where, seq<Connection>>, ghost rest: set<Connection>,
                      ghost note: map<Connection, Note>, ghost links: nat)
    returns (x: Connection?)
    requires ListOk(c, FreeList, f) && NoDup(f) && ListOk(c, Floating, taken) && Apart(taken, f)
    requires FreeList !in others && Blocks(f) !! rest && Others(c, others, rest) && NotesOk(note) && Sized(c, links)
    modifies c`free, Blocks(f)`next, Blocks(f)`prev
    ensures x == First(f) && ListOk(c, FreeList, if f == [] then [] else f[1..])
    ensures ListOk(c, Floating, if x == null then taken else [x] + taken)
    ensures Others(c, others, rest) && NotesOk(note) && Sized(c, links)
  {
    x := c.GetFree(f);
    forall w | w in others ensures ListOk(c, w, others[w]) {
      assert old(ListOk(c, w, others[w])) && forall k :: 0 <= k < |others[w]| ==> others[w][k] in rest;
    }
  }

  lemma {:induction false} Ready(c: Context, s: Layout<Connection>, a: Where, b: Where)
    requires Holds(c, s) && a in s.lists && b in s.lists && a != b
    ensures NoDup(s.lists[a]) && NoDup(s.lists[b]) && Apart(s.lists[a], s.lists[b]) && Apart(s.lists[b], s.lists[a])
    ensures Blocks(s.lists[a]) <= s.at.Keys && Blocks(s.lists[b]) <= s.at.Keys
    ensures ListOk(c, a, s.lists[a]) && ListOk(c, b, s.lists[b])
    ensures Others(c, s.lists - {a, b}, Rest(s, a, b))
  {
    ListsApart(s, a, b);
    AllListed(s);
    OthersOf(c, s, a, b);
  }

  lemma {:induction false} NoneTaken(c: Context, s: Layout<Connection>)
    requires Placed(s) && s.lists[FreeList] == [] && Sized(c, s.links) && NotesOk(s.note)
    requires Others(c, s.lists - {FreeList, Floating}, Rest(s, FreeList, Floating))
    requires ListOk(c, FreeList, []) && ListOk(c, Floating, s.lists[Floating])
    ensures Holds(c, s)
  {
    AllListed(s);
    forall w | w in s.lists ensures ListOk(c, w, s.lists[w]) {
      assert w != FreeList && w != Floating ==> w in s.lists - {FreeList, Floating};
    }
  }

  lemma {:induction false} OneTaken(c: Context, s: Layout<Connection>, x: Connection)
    requires Placed(s) && s.lists[FreeList] != [] && x == s.lists[FreeList][0] && Sized(c, s.links) && NotesOk(s.note)
    requires Others(c, s.lists - {FreeList, Floating}, Rest(s, FreeList, Floating))
    requires ListOk(c, FreeList, s.lists[FreeList][1..]) && ListOk(c, Floating, [x] + s.lists[Floating])
    ensures Holds(c, Do(s, Move.GetFree))
  {
    FirstRemoved(s);
    ShiftHolds(c, s, x, Floating, Rest(s, FreeList, Floating));
  }

  lemma {:induction false} FirstRemoved(s: Layout<Connection>)
    requires Placed(s) && s.lists[FreeList] != []
    ensures var x := s.lists[FreeList][0];
            && x in s.at && s.at[x] == FreeList && Floating in s.lists && FreeList in s.lists
            && Remove(s.lists[FreeList], x) == s.lists[FreeList][1..]
            && NoteFits(s.links, Floating, s.note[x]) && s.note[x := Arrived(s.note[x], Floating)] == s.note
            && Do(s, Move.GetFree) == Shift(s, x, Floating)
  {
    assert Listed(s, FreeList);
  }

  method GetFree(c: Context, ghost s: Layout<Connection>) returns (x: Connection?)
    requires Holds(c, s)
    modifies c`free, s.at.Keys`next, s.at.Keys`prev
    ensures x == First(s.lists[FreeList]) && Holds(c, Do(s, Move.GetFree))
  {
    ghost var f := s.lists[FreeList];
    Ready(c, s, FreeList, Floating);
    x := GetFreeBlock(c, f, s.lists[Floating], s.lists - {FreeList, Floating}, Rest(s, FreeList, Floating), s.note,
                      s.links);
    if x == null {
      NoneTaken(c, s);
    } else {
      OneTaken(c, s, x);
    }
  }

  method SetLinks(c: Context, ghost s: Layout<Connection>, x: Connection, i: nat)
    requires Holds(c, s) && Possible(s, Move.SetLinks(x, i))
    modifies x`active, x`abort
    ensures Holds(c, Do(s, Move.SetLinks(x, i))) && x.active == x.abort == Link(i)
  {
    SetLinksKeeps(s, x, i);
    SetLinksOf(c, x, i, s.lists, s.at.Keys, s.note, s.links);
  }

  method SetLinksOf(c: Context, x: Connection, i: nat, ghost lists: map<Where, seq<Connection>>,
                    ghost all: set<Connection>, ghost note: map<Connection, Note>, ghost links: nat)
    requires Others(c, lists, all) && NotesOk(note) && x in note && Sized(c, links)
    modifies x`active, x`abort
    ensures Others(c, lists, all) && NotesOk(note[x := note[x].(active := Link(i), abort := Link(i))])
      && Sized(c, links)
  {
    x.active, x.abort := Link(i), Link(i);
    forall w | w in lists ensures ListOk(c, w, lists[w]) {
      assert old(ListOk(c, w, lists[w]));
    }
  }

  method PutPending(c: Context, x: Connection, i: nat, ghost p: seq<Connection>, ghost taken: seq<Connection>,
                    ghost k: nat, ghost others: map<Where, seq<Connection>>, ghost rest: set<Connection>,
                    ghost note: map<Connection, Note>, ghost links: nat)
    requires ListOk(c, PendList(i), p) && NoDup(p) && x !in p && x in note && i < links && Sized(c, links)
    requires k < |taken| && taken[k] == x && NoDup(taken) && ListOk(c, Floating, taken) && Apart(taken, p)
    requires PendList(i) !in others && Blocks(p) !! rest && x !in rest && Others(c, others, rest) && NotesOk(note)
    modifies c`pend, x, Blocks(p)`prev
    ensures ListOk(c, PendList(i), [x] + p) && ListOk(c, Floating, Without(taken, k))
    ensures Others(c, others, rest) && NotesOk(note[x := Arrived(note[x], PendList(i))]) && Sized(c, links)
  {
    WithoutIn(taken, k);
    ghost var left := Without(taken, k);
    assert ListOk(c, Floating, left) by {
      forall j | 0 <= j < |left| ensures left[j].next == null && left[j].prev == null {
        assert left[j] == taken[if j < k then j else j + 1];
      }
    }
    c.PutOnPending(x, i, p);
    forall j | 0 <= j < |left| ensures left[j].next == null && left[j].prev == null {
      assert left[j] in left && left[j] !in p;
    }
    forall w | w in others ensures ListOk(c, w, others[w]) {
      assert old(ListOk(c, w, others[w])) && forall k :: 0 <= k < |others[w]| ==> others[w][k] in rest;
    }
  }

  method PutOnPending(c: Context, ghost s: Layout<Connection>, x: Connection, i: nat)
    requires Holds(c, s) && Possible(s, Move.PutOnPending(x, i))
    modifies c`pend, s.at.Keys
    ensures Holds(c, Do(s, Move.PutOnPending(x, i)))
  {
    ghost var n := Known(c, s, x);
    ghost var from, to := s.at[x], PendList(i);
    Ready(c, s, from, to);
    ghost var k := Position(s, x);
    PutPending(c, x, i, s.lists[to], s.lists[from], k, s.lists - {from, to}, Rest(s, from, to), s.note, s.links);
    ShiftHolds(c, s, x, to, Rest(s, from, to));
  }

  method ActivateBlock(c: Context, x: Connection, i: nat, j: nat, ghost p: seq<Connection>, ghost k: nat,
                       ghost a: seq<Connection>, ghost others: map<Where, seq<Connection>>, ghost rest: set<Connection>,
                       ghost note: map<Connection, Note>, ghost links: nat)
    requires k < |p| && p[k] == x && NoDup(p) && NoDup(a) && Apart(p, a) && i < links && j < links && Sized(c, links)
    requires ListOk(c, PendList(i), p) && ListOk(c, ActiveList(j), a)
    requires NotesOk(note) && x in note && note[x].pend == Link(i) && note[x].active == Link(j)
    requires PendList(i) !in others && ActiveList(j) !in others && Blocks(p) !! rest && Blocks(a) !! rest
      && Others(c, others, rest)
    modifies c`pend, c`active, Blocks(p), Blocks(a)`prev
    ensures ListOk(c, PendList(i), Without(p, k)) && ListOk(c, ActiveList(j), [x] + a)
    ensures Others(c, others, rest) && NotesOk(note[x := Arrived(note[x], ActiveList(j))]) && Sized(c, links)
  {
    assert NoteOf(x) == note[x] && x in p;
    NeighboursIn(c.pend[i], p, k);
    c.Activate(x, p, k, a);
    forall w | w in others ensures ListOk(c, w, others[w]) {
      assert old(ListOk(c, w, others[w])) && forall k :: 0 <= k < |others[w]| ==> others[w][k] in rest;
    }
  }

  /** Activating a block, wherever it is on its pending list. */
  method Activate(c: Context, ghost s: Layout<Connection>, x: Connection) returns (r: Outcome)
    requires Holds(c, s) && Possible(s, Move.Activate(x))
    modifies c`pend, c`active, s.at.Keys
    ensures r == Fault <==> Faults(s, Move.Activate(x))
    ensures r == Done ==> Holds(c, Do(s, Move.Activate(x)))
  {
    ghost var n := Known(c, s, x);
    if x.active.NoLink? || x.pend.NoLink? {
      return Fault;
    }
    ghost var from, to := s.at[x], ActiveList(x.active.i);
    Ready(c, s, from, to);
    ghost var k := Position(s, x);
    ActivateBlock(c, x, x.pend.i, x.active.i, s.lists[from], k, s.lists[to], s.lists - {from, to}, Rest(s, from, to),
                  s.note, s.links);
    ShiftHolds(c, s, x, to, Rest(s, from, to));
    r := Done;
  }

  lemma {:induction false} Known(c: Context, s: Layout<Connection>, x: Connection) returns (n: Note)
    requires Holds(c, s) && x in s.at
    ensures x in s.note && n == s.note[x] == NoteOf(x) && NoteFits(s.links, s.at[x], n)
  {
    n := s.note[x];
  }

  /** No list but the free one, and the one it is on, starts with the block. */
  ghost predicate HeadsNoOther(c: Context, links: nat, w: Where, x: Connection)
    reads c
  {
    forall v :: Exists(links, v) && v != w && v != FreeList ==> HeadOf(c, v) != x
  }

  lemma {:induction false} HeadsNone(c: Context, s: Layout<Connection>, x: Connection)
    requires Holds(c, s) && x in s.at
    ensures HeadsNoOther(c, s.links, s.at[x], x)
  {
    forall v | Exists(s.links, v) && v != s.at[x] && v != FreeList ensures HeadOf(c, v) != x {
      assert ListOk(c, v, s.lists[v]);
      ListedHere(s, v, x);
    }
  }

  /** The double list that a block is part of when it is freed: a block in its taker's hands is one by itself. */
  ghost function OwnList(w: Where, l: seq<Connection>, x: Connection): seq<Connection> {
    if w == Floating then [x] else l
  }

  ghost function OwnPlace(w: Where, k: nat): nat {
    if w == Floating then 0 else k
  }

  ghost function OwnHead(c: Context, w: Where, x: Connection): Connection?
    reads c
  {
    if w == Floating then x else HeadOf(c, w)
  }

  /** The list pointers that freeing looks at, for a block that nothing precedes. */
  lemma {:induction false} OwnHeads(c: Context, x: Connection, w: Where, l: seq<Connection>, k: nat, links: nat)
    requires k < |l| && l[k] == x && NoDup(l) && Sized(c, links) && Exists(links, w)
    requires (w == Floating || w.PendList? || w.ActiveList?) && ListOk(c, w, l)
    requires NoteFits(links, w, NoteOf(x)) && HeadsNoOther(c, links, w, x)
    ensures x in l && c.LinksExist(x) && !c.HeadsAbort(x)
    ensures c.HeadsActive(x) <==> w.ActiveList? && x.active.Link? && k == 0
    ensures c.HeadsActive(x) ==> x.active == Link(w.i)
    ensures c.HeadsPending(x) <==> w.PendList? && k == 0
    ensures w.PendList? ==> x.pend == Link(w.i)
    ensures w.ActiveList? && x.active.Link? ==> x.active == Link(w.i)
  {
    assert x.pend.Link? && w != PendList(x.pend.i) ==> HeadOf(c, PendList(x.pend.i)) != x;
    assert x.active.Link? && w != ActiveList(x.active.i) ==> HeadOf(c, ActiveList(x.active.i)) != x;
    assert x.abort.Link? ==> HeadOf(c, AbortList(x.abort.i)) != x;
  }

  lemma {:induction false} OwnChain(c: Context, x: Connection, w: Where, l: seq<Connection>, k: nat)
    requires k < |l| && l[k] == x && NoDup(l) && (w == Floating || w.PendList? || w.ActiveList?) && ListOk(c, w, l)
    ensures var own := OwnList(w, l, x);
            && DoubleChain(OwnHead(c, w, x), own) && NoDup(own) && OwnPlace(w, k) < |own| && own[OwnPlace(w, k)] == x
            && (forall y :: y in own ==> y in l) && HeadOr(x.next, x) in own && HeadOr(x.prev, x) in own
    ensures w != Floating ==> First(Without(l, k)) == if k == 0 then Connections.After(l, 0) else HeadOf(c, w)
  {
    if w != Floating {
      NeighboursIn(HeadOf(c, w), l, k);
      HeadWithout(l, k, HeadOf(c, w));
    }
  }

  /** Freeing a block that is on no list, or anywhere on a pending or an active one. */
  method FreeBlock(c: Context, ghost s: Layout<Connection>, x: Connection) returns (r: Outcome)
    requires Holds(c, s) && Possible(s, Move.FreeBlock(x))
    modifies c`free, c`pend, c`active, s.at.Keys
    ensures r == Fault <==> Faults(s, Move.FreeBlock(x))
    ensures r == Done ==> Holds(c, Do(s, Move.FreeBlock(x)))
  {
    ghost var w := s.at[x];
    ghost var n := Known(c, s, x);
    Ready(c, s, w, FreeList);
    HeadsNone(c, s, x);
    ghost var k := Position(s, x);
    ghost var l, f, others, rest := s.lists[w], s.lists[FreeList], s.lists - {w, FreeList}, Rest(s, w, FreeList);
    r := FreeOn(c, x, w, l, k, f, others, rest, s.note, s.links);
    if r == Done {
      ShiftHolds(c, s, x, FreeList, rest);
    }
  }

  /** The call, on the block's own list. */
  method FreeBare(c: Context, x: Connection, ghost w: Where, ghost l: seq<Connection>, ghost k: nat,
                  ghost f: seq<Connection>, ghost links: nat)
    returns (r: Outcome)
    requires k < |l| && l[k] == x && NoDup(l) && Sized(c, links) && Exists(links, w) && ListOk(c, w, l)
    requires w == Floating || w.PendList? || w.ActiveList?
    requires Chain(c.free, f) && Apart(l, f) && NoteFits(links, w, NoteOf(x)) && HeadsNoOther(c, links, w, x)
    modifies c`free, c`pend, c`active, Blocks(OwnList(w, l, x))`next, Blocks(OwnList(w, l, x))`prev, x`state
    ensures r == Fault <==>
      (w == Floating || k == 0)
      && (x.active.NoLink? || (w == Floating && (x.pend.NoLink? || x.abort.NoLink?)))
    ensures x.state == Free && Sized(c, links)
    ensures r == Done ==> (w != Floating ==> ListOk(c, w, Without(l, k))) && Chain(c.free, [x] + f)
    ensures forall v :: Exists(links, v) && v != w && v != FreeList ==> HeadOf(c, v) == old(HeadOf(c, v))
  {
    OwnHeads(c, x, w, l, k, links);
    OwnChain(c, x, w, l, k);
    r := c.ConnectionFree(x, OwnHead(c, w, x), OwnList(w, l, x), OwnPlace(w, k), f);
  }

  method FreeOwn(c: Context, x: Connection, ghost w: Where, ghost l: seq<Connection>, ghost k: nat,
                 ghost f: seq<Connection>, ghost others: map<Where, seq<Connection>>, ghost rest: set<Connection>,
                 ghost note: map<Connection, Note>, ghost links: nat)
    returns (r: Outcome)
    requires k < |l| && l[k] == x && NoDup(l) && Sized(c, links) && Exists(links, w) && ListOk(c, w, l)
    requires w == Floating || w.PendList? || w.ActiveList?
    requires ListOk(c, FreeList, f) && Apart(l, f) && NotesOk(note) && x in note && NoteFits(links, w, note[x])
    requires HeadsNoOther(c, links, w, x)
    requires FreeList !in others && (w != Floating ==> w !in others) && Others(c, others, rest)
    requires (forall v :: v in others ==> Exists(links, v)) && Blocks(OwnList(w, l, x)) !! rest
    modifies c`free, c`pend, c`active, Blocks(OwnList(w, l, x))
    ensures r == Fault <==>
      (w == Floating || k == 0)
      && (note[x].active.NoLink? || (w == Floating && (note[x].pend.NoLink? || note[x].abort.NoLink?)))
    ensures r == Done ==> (w != Floating ==> ListOk(c, w, Without(l, k))) && ListOk(c, FreeList, [x] + f)
    ensures r == Done ==> Others(c, others, rest) && NotesOk(note[x := Arrived(note[x], FreeList)]) && Sized(c, links)
  {
    assert NoteOf(x) == note[x] && x in OwnList(w, l, x);
    r := FreeBare(c, x, w, l, k, f, links);
    forall v | v in others ensures ListOk(c, v, others[v]) {
      assert old(ListOk(c, v, others[v])) && HeadOf(c, v) == old(HeadOf(c, v));
      assert forall k :: 0 <= k < |others[v]| ==> others[v][k] in rest;
    }
  }

  /** The other blocks in their takers' hands. */
  lemma {:induction false} AlsoTaken(c: Context, l: seq<Connection>, k: nat, others: map<Where, seq<Connection>>,
                                     rest: set<Connection>)
    requires k < |l| && NoDup(l) && ListOk(c, Floating, l) && Others(c, others, rest)
    ensures Others(c, others[Floating := Without(l, k)], rest + Blocks(Without(l, k)))
  {
    forall j | 0 <= j < |Without(l, k)| ensures Without(l, k)[j].next == null && Without(l, k)[j].prev == null {
      assert Without(l, k)[j] == l[if j < k then j else j + 1];
    }
  }

  method FreeOn(c: Context, x: Connection, ghost w: Where, ghost l: seq<Connection>, ghost k: nat,
                ghost f: seq<Connection>, ghost others: map<Where, seq<Connection>>, ghost rest: set<Connection>,
                ghost note: map<Connection, Note>, ghost links: nat)
    returns (r: Outcome)
    requires k < |l| && l[k] == x && NoDup(l) && Apart(l, f) && Sized(c, links) && Exists(links, w)
    requires w == Floating || w.PendList? || w.ActiveList?
    requires ListOk(c, w, l) && ListOk(c, FreeList, f) && NotesOk(note) && x in note && NoteFits(links, w, note[x])
    requires HeadsNoOther(c, links, w, x)
    requires FreeList !in others && w !in others && Blocks(l) !! rest && Others(c, others, rest)
    requires forall v :: v in others ==> Exists(links, v)
    modifies c`free, c`pend, c`active, Blocks(l)
    ensures r == Fault <==>
      (w == Floating || k == 0)
      && (note[x].active.NoLink? || (w == Floating && (note[x].pend.NoLink? || note[x].abort.NoLink?)))
    ensures r == Done ==> ListOk(c, w, Without(l, k)) && ListOk(c, FreeList, [x] + f)
    ensures r == Done ==> Others(c, others, rest) && NotesOk(note[x := Arrived(note[x], FreeList)]) && Sized(c, links)
  {
    ghost var others', rest' := others, rest;
    WithoutIn(l, k);
    assert x in l;
    if w == Floating {
      AlsoTaken(c, l, k, others, rest);
      others', rest' := others[Floating := Without(l, k)], rest + Blocks(Without(l, k));
    }
    r := FreeOwn(c, x, w, l, k, f, others', rest', note, links);
    if r == Done {
      Fewer(c, others', rest', w, others, rest);
    }
  }

  lemma {:induction false} Fewer(c: Context, more: map<Where, seq<Connection>>, all: set<Connection>, w: Where,
                                 others: map<Where, seq<Connection>>, rest: set<Connection>)
    requires Others(c, more, all) && w !in others && (more == others || (w in more && more - {w} == others))
    requires forall v, x :: v in others && x in others[v] ==> x in rest
    ensures Others(c, others, rest) && (w in more ==> ListOk(c, w, more[w]))
  {
    forall v | v in others ensures ListOk(c, v, others[v]) {
      assert v in more && more[v] == others[v];
    }
  }

  // ----- Whole lists -----

  method FlushList(c: Context, i: nat, ghost a: seq<Connection>, ghost f: seq<Connection>,
                   ghost others: map<Where, seq<Connection>>, ghost rest: set<Connection>, ghost links: nat)
    requires NoDup(a) && Apart(a, f) && i < links && Sized(c, links) && ListOk(c, ActiveList(i), a)
      && ListOk(c, FreeList, f)
    requires FreeList !in others && ActiveList(i) !in others && Blocks(a) !! rest && Others(c, others, rest)
    modifies c`free, c`active, Blocks(a)`state, Blocks(a)`active, Blocks(a)`next
    ensures ListOk(c, ActiveList(i), []) && ListOk(c, FreeList, a + f) && Others(c, others, rest) && Sized(c, links)
    ensures Marked(a, |a|, Free, true)
  {
    c.FlushActive(i, a, f);
    forall w | w in others ensures ListOk(c, w, others[w]) {
      assert old(ListOk(c, w, others[w])) && forall k :: 0 <= k < |others[w]| ==> others[w][k] in rest;
    }
  }

  /** The notes of the blocks of one list have changed, and no others. */
  lemma {:induction false} Renoted(s: Layout<Connection>, w: Where, state: ConnState, forget: bool)
    requires Placed(s) && w in s.lists && Marked(s.lists[w], |s.lists[w]|, state, forget)
    requires forall x :: x in s.at && s.at[x] != w ==> NoteOf(x) == s.note[x]
    requires forall x :: x in s.at && s.at[x] == w ==> x.pend == s.note[x].pend && x.abort == s.note[x].abort
    requires !forget ==> forall x :: x in s.at && s.at[x] == w ==> x.active == s.note[x].active
    ensures NotesOk(Renote(s, w, state, forget))
  {
    forall x | x in s.at && s.at[x] == w ensures x.state == state && (forget ==> x.active == NoLink) {
      ListedHere(s, w, x);
      var k :| 0 <= k < |s.lists[w]| && s.lists[w][k] == x;
    }
  }

  method Flush(c: Context, ghost s: Layout<Connection>, i: nat)
    requires Holds(c, s) && i < s.links
    modifies c`free, c`active, s.at.Keys
    ensures Holds(c, Do(s, Move.Flush(i)))
  {
    ghost var w := ActiveList(i);
    Ready(c, s, w, FreeList);
    Bystanders(s, w);
    FlushList(c, i, s.lists[w], s.lists[FreeList], s.lists - {w, FreeList}, Rest(s, w, FreeList), s.links);
    Renoted(s, w, Free, true);
    ResetKeeps(s, Move.Flush(i));
    PourHolds(c, s, w, FreeList, Free, true, Rest(s, w, FreeList));
  }

  lemma {:induction false} Bystanders(s: Layout<Connection>, w: Where)
    requires Placed(s) && w in s.lists
    ensures forall x :: x in s.at ==> (x in Blocks(s.lists[w]) <==> s.at[x] == w)
  {
    forall x | x in s.at ensures x in Blocks(s.lists[w]) <==> s.at[x] == w {
      ListedHere(s, w, x);
    }
  }

  method DisableList(c: Context, i: nat, ghost a: seq<Connection>, ghost others: map<Where, seq<Connection>>,
                     ghost rest: set<Connection>, ghost links: nat)
    requires NoDup(a) && i < links && Sized(c, links) && ListOk(c, ActiveList(i), a) && Blocks(a) !! rest
      && Others(c, others, rest)
    modifies Blocks(a)`state, Blocks(a)`active
    ensures ListOk(c, ActiveList(i), a) && Others(c, others, rest) && Sized(c, links)
      && Marked(a, |a|, Disconnecting, true)
  {
    c.DisableActive(i, a);
    forall w | w in others ensures ListOk(c, w, others[w]) {
      assert old(ListOk(c, w, others[w])) && forall k :: 0 <= k < |others[w]| ==> others[w][k] in rest;
    }
  }

  method DisableActive(c: Context, ghost s: Layout<Connection>, i: nat)
    requires Holds(c, s) && i < s.links
    modifies s.at.Keys
    ensures Holds(c, Do(s, Move.DisableActive(i)))
  {
    ghost var w := ActiveList(i);
    Ready(c, s, w, FreeList);
    OthersOf(c, s, w, w);
    Bystanders(s, w);
    DisableList(c, i, s.lists[w], s.lists - {w, w}, Rest(s, w, w), s.links);
    Renoted(s, w, Disconnecting, true);
    RenoteKeeps(s, i);
    MarkedHolds(c, s, i, Rest(s, w, w));
  }

  lemma {:induction false} MarkedHolds(c: Context, s: Layout<Connection>, i: nat, rest: set<Connection>)
    requires Placed(s) && i < s.links && Sized(c, s.links) && ListOk(c, ActiveList(i), s.lists[ActiveList(i)])
    requires Others(c, s.lists - {ActiveList(i), ActiveList(i)}, rest)
    requires NotesOk(Renote(s, ActiveList(i), Disconnecting, true)) && Placed(Do(s, Move.DisableActive(i)))
    ensures Holds(c, Do(s, Move.DisableActive(i)))
  {
    var s' := Do(s, Move.DisableActive(i));
    AllListed(s');
    forall w | w in s'.lists ensures ListOk(c, w, s'.lists[w]) {
      assert w != ActiveList(i) ==> w in s.lists - {ActiveList(i), ActiveList(i)};
    }
  }

  method AbortPending(c: Context, i: nat, ghost p: seq<Connection>, ghost b: seq<Connection>,
                      ghost others: map<Where, seq<Connection>>, ghost rest: set<Connection>, ghost links: nat)
    requires NoDup(p) && NoDup(b) && Apart(p, b) && i < links && Sized(c, links)
    requires ListOk(c, PendList(i), p) && ListOk(c, AbortList(i), b)
    requires PendList(i) !in others && AbortList(i) !in others && Blocks(p) !! rest && Others(c, others, rest)
    modifies c`pend, c`abort, Blocks(p)`state, Blocks(p)`active, Blocks(p)`next
    ensures ListOk(c, PendList(i), []) && ListOk(c, AbortList(i), p + b) && Others(c, others, rest) && Sized(c, links)
    ensures Marked(p, |p|, Aborted, false) && forall x :: x in p ==> x.active == old(x.active)
  {
    var num := c.DisablePending(i, p, b);
    forall w | w in others ensures ListOk(c, w, others[w]) {
      assert old(ListOk(c, w, others[w])) && forall k :: 0 <= k < |others[w]| ==> others[w][k] in rest;
    }
  }

  method DisablePending(c: Context, ghost s: Layout<Connection>, i: nat)
    requires Holds(c, s) && i < s.links
    modifies c`pend, c`abort, s.at.Keys
    ensures Holds(c, Do(s, Move.DisablePending(i)))
  {
    ghost var w, to := PendList(i), AbortList(i);
    Ready(c, s, w, to);
    Bystanders(s, w);
    AbortPending(c, i, s.lists[w], s.lists[to], s.lists - {w, to}, Rest(s, w, to), s.links);
    Renoted(s, w, Aborted, false);
    ResetKeeps(s, Move.DisablePending(i));
    PourHolds(c, s, w, to, Aborted, false, Rest(s, w, to));
  }

  // ----- Runs on the heap -----

  /** One call. */
  method Call(c: Context, ghost s: Layout<Connection>, m: Move<Connection>) returns (r: Outcome)
    requires Holds(c, s) && Possible(s, m)
    modifies c, s.at.Keys
    ensures r == Fault <==> Faults(s, m)
    ensures r == Done ==> Holds(c, Do(s, m))
  {
    r := Done;
    match m {
      case GetFree => var x := GetFree(c, s);
      case SetLinks(x, i) => SetLinks(c, s, x, i);
      case PutOnPending(x, i) => PutOnPending(c, s, x, i);
      case Activate(x) => r := Activate(c, s, x);
      case FreeBlock(x) => r := FreeBlock(c, s, x);
      case Flush(i) => Flush(c, s, i);
      case DisableActive(i) => DisableActive(c, s, i);
      case DisablePending(i) => DisablePending(c, s, i);
    }
  }

  /** Callers keep to what they may do, for as long as nothing faults. */
  ghost predicate Allowed(ms: seq<Move<Connection>>, s: Layout<Connection>)
    decreases |ms|
  {
    ms == [] || (Placed(s) && Possible(s, ms[0]) && (!Faults(s, ms[0]) ==> Allowed(ms[1..], Do(s, ms[0]))))
  }

  /** A sequence of calls, up to the first fault. */
  method Play(c: Context, ghost s: Layout<Connection>, ms: seq<Move<Connection>>) returns (r: Outcome)
    requires Holds(c, s) && Allowed(ms, s)
    modifies c, s.at.Keys
    ensures r == Done <==> Runs(ms, s)
    ensures r == Done ==> Holds(c, ConnectionProtocol.After(ms, s))
    decreases |ms|
  {
    if ms == [] {
      return Done;
    }
    r := Call(c, s, ms[0]);
    if r == Done {
      MoveKeeps(s, ms[0]);
      r := Play(c, Do(s, ms[0]), ms[1..]);
    }
  }

  /** What the heap says: a block's links are those of its neighbours on the one list it is on, and a list's head is its
      first block. */
  ghost predicate Linked(c: Context, s: Layout<Connection>)
    reads c, s.at.Keys
  {
    forall w, k :: w in s.lists && 0 <= k < |s.lists[w]| ==>
      var x := s.lists[w][k];
      && x in s.at.Keys && s.at[x] == w && NoteFits(s.links, w, NoteOf(x))
      && (w.PendList? || w.ActiveList? ==> x.next == Connections.After(s.lists[w], k) && x.prev == Ahead(s.lists[w], k))
      && (w == FreeList || w.AbortList? ==> x.next == Connections.After(s.lists[w], k))
      && (if w == Floating then x.next == null && x.prev == null else HeadOf(c, w) == s.lists[w][0])
  }

  lemma {:induction false} HoldsIsLinked(c: Context, s: Layout<Connection>)
    requires Holds(c, s)
    ensures Linked(c, s)
  {
    forall w | w in s.lists ensures Listed(s, w) && ListOk(c, w, s.lists[w]) {
    }
  }

  /** From initialisation on: the calls go well exactly when the run meets no fault, and then the heap is laid out
      as the run says: no block is on two lists, every block is marked for the list it is on, and its links are those
      of its neighbours there. */
  method PlayFromStart(c: Context, blocks: seq<Connection>, links: nat, ms: seq<Move<Connection>>) returns (r: Outcome)
    requires blocks != [] && NoDup(blocks) && Allowed(ms, Fresh(blocks, links))
    modifies c, blocks
    ensures r == Done <==> Runs(ms, Fresh(blocks, links))
    ensures r == Done ==> var s := ConnectionProtocol.After(ms, Fresh(blocks, links)); Holds(c, s) && Linked(c, s)
  {
    Start(c, blocks, links);
    r := Play(c, Fresh(blocks, links), ms);
    if r == Done {
      HoldsIsLinked(c, ConnectionProtocol.After(ms, Fresh(blocks, links)));
    }
  }
}
