/** The connection blocks of one node over any run of calls: on which list each block is, what its state and its
    notes of list pointers say, and which calls go through a list pointer that a block never had. */
module ConnectionProtocol {
  import opened Connections

  /** The places a block can be: one of the node's lists, or in the hands of whoever took it. */
  datatype Where = FreeList | Floating | PendList(i: nat) | ActiveList(i: nat) | AbortList(i: nat)

  /** What a block records about itself. */
  datatype Note = Note(state: ConnState, pend: Link, active: Link, abort: Link)

  /** All lists of a node with `links` links, the place of every block, and its note. */
  datatype Layout<T(==)> = Layout(links: nat, lists: map<Where, seq<T>>, at: map<T, Where>, note: map<T, Note>)

  datatype Move<T> =
    | GetFree
    | SetLinks(x: T, i: nat)
    | PutOnPending(x: T, i: nat)
    | Activate(x: T)
    | FreeBlock(x: T)
    | Flush(i: nat)
    | DisableActive(i: nat)
    | DisablePending(i: nat)

  predicate Exists(links: nat, w: Where) {
    match w
    case PendList(i) => i < links
    case ActiveList(i) => i < links
    case AbortList(i) => i < links
    case _ => true
  }

  /** What callers keep to: links exist, and a block is passed on only from where it is. */
  predicate Possible<T(==)>(s: Layout<T>, m: Move<T>) {
    match m
    case GetFree => true
    case SetLinks(x, i) => x in s.at && s.at[x] == Floating && i < s.links
    case PutOnPending(x, i) => x in s.at && s.at[x] == Floating && i < s.links
    case Activate(x) => x in s.at && s.at[x].PendList?
    case FreeBlock(x) => x in s.at && (s.at[x] == Floating || s.at[x].PendList? || s.at[x].ActiveList?)
    case Flush(i) => i < s.links
    case DisableActive(i) => i < s.links
    case DisablePending(i) => i < s.links
  }

  /** No other block precedes this one. */
  predicate Leads<T(==)>(s: Layout<T>, x: T)
    requires x in s.at
  {
    s.at[x] == Floating || (s.at[x] in s.lists && s.lists[s.at[x]] != [] && s.lists[s.at[x]][0] == x)
  }

  /** The call goes through a list pointer that the block does not have. */
  predicate Faults<T(==)>(s: Layout<T>, m: Move<T>)
    requires m.Activate? || m.FreeBlock? ==> m.x in s.at && m.x in s.note
  {
    match m
    case Activate(x) => s.note[x].active.NoLink?
    case FreeBlock(x) =>
      Leads(s, x) && (s.note[x].active.NoLink?
        || (s.at[x] == Floating && (s.note[x].pend.NoLink? || s.note[x].abort.NoLink?)))
    case _ => false
  }

  // ----- What every call does -----

  function Remove<T(==)>(l: seq<T>, x: T): seq<T> {
    if l == [] then [] else if l[0] == x then l[1..] else [l[0]] + Remove(l[1..], x)
  }

  /** How a block is marked on arrival. */
  function Arrived(n: Note, to: Where): Note {
    match to
    case FreeList => n.(state := Free)
    case Floating => n
    case PendList(i) => n.(state := Pending, pend := Link(i))
    case ActiveList(_) => n.(state := Active)
    case AbortList(_) => n.(state := Aborted)
  }

  /** One block moves to the front of another list. */
  function Shift<T(==)>(s: Layout<T>, x: T, to: Where): Layout<T>
    requires x in s.at && x in s.note && s.at[x] in s.lists && to in s.lists
  {
    s.(lists := s.lists[s.at[x] := Remove(s.lists[s.at[x]], x)][to := [x] + s.lists[to]],
       at := s.at[x := to],
       note := s.note[x := Arrived(s.note[x], to)])
  }

  /** The notes of all blocks of one list change. */
  function Renote<T(==)>(s: Layout<T>, w: Where, state: ConnState, forget: bool): map<T, Note>
    requires s.at.Keys == s.note.Keys
  {
    map y | y in s.note ::
      if s.at[y] == w then s.note[y].(state := state, active := if forget then NoLink else s.note[y].active)
        else s.note[y]
  }

  /** A whole list moves in front of another one. */
  function Pour<T(==)>(s: Layout<T>, from: Where, to: Where, state: ConnState, forget: bool): Layout<T>
    requires s.at.Keys == s.note.Keys && from in s.lists && to in s.lists
  {
    s.(lists := s.lists[to := s.lists[from] + s.lists[to]][from := []],
       at := map y | y in s.at :: if s.at[y] == from then to else s.at[y],
       note := Renote(s, from, state, forget))
  }

  function Do<T(==)>(s: Layout<T>, m: Move<T>): Layout<T>
    requires Placed(s) && Possible(s, m) && !Faults(s, m)
  {
    match m
    case GetFree => if s.lists[FreeList] == [] then s else Shift(s, s.lists[FreeList][0], Floating)
    case SetLinks(x, i) => s.(note := s.note[x := s.note[x].(active := Link(i), abort := Link(i))])
    case PutOnPending(x, i) => Shift(s, x, PendList(i))
    case Activate(x) => Shift(s, x, ActiveList(s.note[x].active.i))
    case FreeBlock(x) => Shift(s, x, FreeList)
    case Flush(i) => Pour(s, ActiveList(i), FreeList, Free, true)
    case DisableActive(i) => s.(note := Renote(s, ActiveList(i), Disconnecting, true))
    case DisablePending(i) => Pour(s, PendList(i), AbortList(i), Aborted, false)
  }

  // ----- What every call keeps -----

  /** A list holds no block twice, and only blocks whose place it is. */
  predicate Listed<T(==)>(s: Layout<T>, w: Where)
    requires w in s.lists
  {
    NoDup(s.lists[w]) && forall k :: 0 <= k < |s.lists[w]| ==> s.lists[w][k] in s.at && s.at[s.lists[w][k]] == w
  }

  predicate LinkExists(links: nat, l: Link) {
    l.Link? ==> l.i < links
  }

  /** The state of a block says where it is; a pending block knows its list, and so does an active one until its
      link is reset. */
  predicate NoteFits(links: nat, w: Where, n: Note) {
    && LinkExists(links, n.pend) && LinkExists(links, n.active) && LinkExists(links, n.abort)
    && match w
       case FreeList => n.state == Free
       case Floating => n.state == Free
       case PendList(i) => n.state == Pending && n.pend == Link(i)
       case ActiveList(i) => (n.state == Active && n.active == Link(i))
         || (n.state == Disconnecting && n.active == NoLink)
       case AbortList(_) => n.state == Aborted
  }

  /** Every block is on exactly one list, once, and its note fits that place. */
  ghost predicate Placed<T>(s: Layout<T>) {
    && s.at.Keys == s.note.Keys
    && (forall w :: w in s.lists <==> Exists(s.links, w))
    && (forall w :: w in s.lists ==> Listed(s, w))
    && (forall x :: x in s.at ==> s.at[x] in s.lists && x in s.lists[s.at[x]])
    && (forall x :: x in s.note ==> NoteFits(s.links, s.at[x], s.note[x]))
  }

  lemma {:induction false} RemoveOnce<T>(l: seq<T>, x: T, k: nat)
    requires NoDup(l) && k < |l| && l[k] == x
    ensures Remove(l, x) == l[..k] + l[k + 1..]
  {
    if k > 0 {
      RemoveOnce(l[1..], x, k - 1);
      assert l[..k] == [l[0]] + l[1..][..k - 1] && l[k + 1..] == l[1..][k..];
    }
  }

  /** What is left without a block, in any order of looking. */
  lemma {:induction false} OthersStay<T>(l: seq<T>, k: nat, y: T)
    requires k < |l| && y in l && y != l[k]
    ensures y in l[..k] + l[k + 1..]
  {
    var j :| 0 <= j < |l| && l[j] == y;
    assert (l[..k] + l[k + 1..])[if j < k then j else j - 1] == y;
  }

  lemma {:induction false} RemoveKeepsRest<T>(l: seq<T>, x: T)
    requires NoDup(l) && x in l
    ensures NoDup(Remove(l, x)) && forall y :: y in Remove(l, x) <==> y in l && y != x
  {
    var k :| 0 <= k < |l| && l[k] == x;
    RemoveOnce(l, x, k);
    forall y | y in l && y != x ensures y in Remove(l, x) {
      OthersStay(l, k, y);
    }
  }

  lemma {:induction false} RemovedFrom<T>(l: seq<T>, x: T, k: nat)
    requires NoDup(l) && x in l && k < |Remove(l, x)|
    ensures Remove(l, x)[k] != x && exists j :: 0 <= j < |l| && l[j] == Remove(l, x)[k]
  {
    var i :| 0 <= i < |l| && l[i] == x;
    RemoveOnce(l, x, i);
    assert l[if k < i then k else k + 1] == Remove(l, x)[k];
  }

  lemma {:induction false} LeftBehind<T>(s: Layout<T>, x: T, to: Where)
    requires Placed(s) && x in s.at && s.at[x] in s.lists && to in s.lists && to != s.at[x]
    ensures Listed(Shift(s, x, to), s.at[x])
    ensures forall y :: y in s.lists[s.at[x]] && y != x ==> y in Shift(s, x, to).lists[s.at[x]]
  {
    var w := s.at[x];
    var left := Remove(s.lists[w], x);
    assert Listed(s, w);
    RemoveKeepsRest(s.lists[w], x);
    assert Shift(s, x, to).lists[w] == left;
    forall k | 0 <= k < |left| ensures left[k] in s.at && left[k] != x && s.at[left[k]] == w {
      RemovedFrom(s.lists[w], x, k);
    }
  }

  lemma {:induction false} Joined<T>(s: Layout<T>, x: T, to: Where)
    requires Placed(s) && x in s.at && s.at[x] in s.lists && to in s.lists && to != s.at[x]
    ensures Listed(Shift(s, x, to), to)
    ensures Shift(s, x, to).lists[to] == [x] + s.lists[to]
  {
    assert Listed(s, to);
    assert x !in s.lists[to];
  }

  lemma {:induction false} ShiftKeepsLists<T>(s: Layout<T>, x: T, to: Where, w: Where)
    requires Placed(s) && x in s.at && to in s.lists && to != s.at[x] && w in s.lists
    ensures Listed(Shift(s, x, to), w)
    ensures forall y :: y in s.lists[w] && y != x ==> y in Shift(s, x, to).lists[w]
  {
    if w == s.at[x] {
      LeftBehind(s, x, to);
    } else if w == to {
      Joined(s, x, to);
    } else {
      assert Listed(s, w);
      assert Shift(s, x, to).lists[w] == s.lists[w];
    }
  }

  lemma {:induction false} ShiftKeeps<T>(s: Layout<T>, x: T, to: Where)
    requires Placed(s) && x in s.at && to in s.lists && to != s.at[x]
    requires NoteFits(s.links, to, Arrived(s.note[x], to))
    ensures Placed(Shift(s, x, to))
  {
    var s' := Shift(s, x, to);
    forall w | w in s'.lists ensures Listed(s', w) {
      ShiftKeepsLists(s, x, to, w);
    }
    forall y | y in s'.at ensures s'.at[y] in s'.lists && y in s'.lists[s'.at[y]] {
      if y != x {
        ShiftKeepsLists(s, x, to, s.at[y]);
      }
    }
  }

  lemma {:induction false} PourKeepsLists<T>(s: Layout<T>, from: Where, to: Where, state: ConnState, forget: bool,
                                             w: Where)
    requires Placed(s) && from in s.lists && to in s.lists && from != to && w in s.lists
    ensures Listed(Pour(s, from, to, state, forget), w)
  {
    assert Listed(s, w) && Listed(s, from);
    if w == to {
      PouredOnce(s, from, to);
    }
  }

  lemma {:induction false} PourKeepsBlocks<T>(s: Layout<T>, from: Where, to: Where, state: ConnState, forget: bool,
                                              y: T)
    requires Placed(s) && from in s.lists && to in s.lists && from != to && y in s.at
    ensures var s' := Pour(s, from, to, state, forget);
            y in s'.at && s'.at[y] in s'.lists && y in s'.lists[s'.at[y]]
  {
    assert y in s.lists[s.at[y]];
  }

  lemma {:induction false} PourKeeps<T>(s: Layout<T>, from: Where, to: Where, state: ConnState, forget: bool)
    requires Placed(s) && from in s.lists && to in s.lists && from != to
    requires forall y :: y in s.note && s.at[y] == from ==>
      NoteFits(s.links, to, s.note[y].(state := state, active := if forget then NoLink else s.note[y].active))
    ensures Placed(Pour(s, from, to, state, forget))
  {
    var s' := Pour(s, from, to, state, forget);
    forall w | w in s'.lists ensures Listed(s', w) {
      PourKeepsLists(s, from, to, state, forget, w);
    }
    forall y | y in s'.at ensures s'.at[y] in s'.lists && y in s'.lists[s'.at[y]] {
      PourKeepsBlocks(s, from, to, state, forget, y);
    }
  }

  lemma {:induction false} PouredOnce<T>(s: Layout<T>, from: Where, to: Where)
    requires Placed(s) && from in s.lists && to in s.lists && from != to
    ensures NoDup(s.lists[from] + s.lists[to])
  {
    var a, b := s.lists[from], s.lists[to];
    assert Listed(s, from) && Listed(s, to);
    forall i, j | 0 <= i < j < |a + b| ensures (a + b)[i] != (a + b)[j] {
      if i < |a| <= j {
        assert s.at[a[i]] == from && s.at[b[j - |a|]] == to;
      }
    }
  }

  lemma {:induction false} RenoteKeeps<T>(s: Layout<T>, i: nat)
    requires Placed(s) && i < s.links
    ensures Placed(s.(note := Renote(s, ActiveList(i), Disconnecting, true)))
  {
    var s' := s.(note := Renote(s, ActiveList(i), Disconnecting, true));
    forall w | w in s'.lists ensures Listed(s', w) {
      assert Listed(s, w);
    }
  }

  lemma {:induction false} SetLinksKeeps<T>(s: Layout<T>, x: T, i: nat)
    requires Placed(s) && Possible(s, SetLinks(x, i))
    ensures Placed(Do(s, SetLinks(x, i)))
  {
    var s' := Do(s, SetLinks(x, i));
    forall w | w in s'.lists ensures Listed(s', w) {
      assert Listed(s, w);
    }
  }

  lemma {:induction false} TakenKeeps<T>(s: Layout<T>)
    requires Placed(s) && s.lists[FreeList] != []
    ensures s.lists[FreeList][0] in s.at && s.at[s.lists[FreeList][0]] == FreeList
    ensures Placed(Shift(s, s.lists[FreeList][0], Floating))
  {
    assert Listed(s, FreeList);
    ShiftKeeps(s, s.lists[FreeList][0], Floating);
  }

  lemma {:induction false} PassedKeeps<T>(s: Layout<T>, m: Move<T>)
    requires Placed(s) && Possible(s, m) && !Faults(s, m) && (m.PutOnPending? || m.Activate? || m.FreeBlock?)
    ensures Placed(Do(s, m))
  {
    var to := if m.PutOnPending? then PendList(m.i) else if m.Activate? then ActiveList(s.note[m.x].active.i)
      else FreeList;
    assert NoteFits(s.links, s.at[m.x], s.note[m.x]);
    ShiftKeeps(s, m.x, to);
  }

  lemma {:induction false} ResetKeeps<T>(s: Layout<T>, m: Move<T>)
    requires Placed(s) && Possible(s, m) && (m.Flush? || m.DisableActive? || m.DisablePending?)
    ensures Placed(Do(s, m)) && Do(s, m).at.Keys == s.at.Keys
  {
    match m {
      case Flush(i) => PourKeeps(s, ActiveList(i), FreeList, Free, true);
      case DisableActive(i) => RenoteKeeps(s, i);
      case DisablePending(i) => PourKeeps(s, PendList(i), AbortList(i), Aborted, false);
    }
  }

  lemma {:induction false} MoveKeeps<T>(s: Layout<T>, m: Move<T>)
    requires Placed(s) && Possible(s, m) && !Faults(s, m)
    ensures Placed(Do(s, m)) && Do(s, m).at.Keys == s.at.Keys && Do(s, m).links == s.links
  {
    match m {
      case GetFree =>
        if s.lists[FreeList] != [] {
          TakenKeeps(s);
        }
      case SetLinks(x, i) => SetLinksKeeps(s, x, i);
      case PutOnPending(_, _) => PassedKeeps(s, m);
      case Activate(_) => PassedKeeps(s, m);
      case FreeBlock(_) => PassedKeeps(s, m);
      case Flush(_) => ResetKeeps(s, m);
      case DisableActive(_) => ResetKeeps(s, m);
      case DisablePending(_) => ResetKeeps(s, m);
    }
  }

  // ----- Runs -----

  /** The places of a node with `links` links. */
  function Places(links: nat): set<Where> {
    if links == 0 then {FreeList, Floating}
    else Places(links - 1) + {PendList(links - 1), ActiveList(links - 1), AbortList(links - 1)}
  }

  lemma {:induction false} PlacesExist(links: nat, w: Where)
    ensures w in Places(links) <==> Exists(links, w)
  {
    if links == 0 {
      match w {
        case FreeList =>
        case Floating =>
        case _ =>
      }
    } else {
      PlacesExist(links - 1, w);
    }
  }

  /** As `conn_list_init` leaves it: every block is free, and the zeroed memory holds no list pointers. */
  function Fresh<T(==)>(blocks: seq<T>, links: nat): Layout<T> {
    Layout(links, map w | w in Places(links) :: if w == FreeList then blocks else [],
           map x | x in blocks :: FreeList, map x | x in blocks :: Note(Free, NoLink, NoLink, NoLink))
  }

  lemma {:induction false} FreshIsPlaced<T>(blocks: seq<T>, links: nat)
    requires NoDup(blocks)
    ensures Placed(Fresh(blocks, links))
  {
    var s := Fresh(blocks, links);
    forall w ensures w in s.lists <==> Exists(links, w) {
      PlacesExist(links, w);
    }
    forall w | w in s.lists ensures Listed(s, w) {
    }
  }

  /** Every call of the run is one its caller may make, and none of them faults. That the blocks are placed makes
      the calls meaningful; by `MoveKeeps` it is never what stops a run. */
  ghost predicate Runs<T>(ms: seq<Move<T>>, s: Layout<T>)
    decreases |ms|
  {
    ms == [] || (Placed(s) && Possible(s, ms[0]) && !Faults(s, ms[0]) && Runs(ms[1..], Do(s, ms[0])))
  }

  ghost function After<T>(ms: seq<Move<T>>, s: Layout<T>): Layout<T>
    requires Runs(ms, s)
    decreases |ms|
  {
    if ms == [] then s else After(ms[1..], Do(s, ms[0]))
  }

  lemma {:induction false} RunKeeps<T>(ms: seq<Move<T>>, s: Layout<T>)
    requires Placed(s) && Runs(ms, s)
    ensures Placed(After(ms, s)) && After(ms, s).at.Keys == s.at.Keys && After(ms, s).links == s.links
    decreases |ms|
  {
    if ms != [] {
      MoveKeeps(s, ms[0]);
      RunKeeps(ms[1..], Do(s, ms[0]));
    }
  }

  /** Over every run without a fault, every block of the node, and nothing else, is on exactly one list, exactly
      once, and its note says which. */
  lemma {:induction false} EveryBlockOnce<T>(blocks: seq<T>, links: nat, ms: seq<Move<T>>, s: Layout<T>, x: T, w: Where,
                                             k: nat)
    requires NoDup(blocks) && Runs(ms, Fresh(blocks, links)) && s == After(ms, Fresh(blocks, links))
    ensures s.at.Keys == s.note.Keys == set y | y in blocks
    ensures x in blocks ==> s.at[x] in s.lists && x in s.lists[s.at[x]] && NoteFits(links, s.at[x], s.note[x])
    ensures w in s.lists && k < |s.lists[w]| && s.lists[w][k] == x ==>
      x in s.at && s.at[x] == w && forall j :: 0 <= j < |s.lists[w]| && s.lists[w][j] == x ==> j == k
  {
    FreshIsPlaced(blocks, links);
    RunKeeps(ms, Fresh(blocks, links));
    if w in s.lists {
      assert Listed(s, w);
    }
  }

  // ----- When a run meets a fault -----

  /** A caller sets the link pointers of a block it has taken before it passes the block on, as both callers in the
      node do. */
  predicate Careful<T(==)>(s: Layout<T>, m: Move<T>)
    requires Placed(s) && Possible(s, m)
  {
    m.PutOnPending? || (m.FreeBlock? && s.at[m.x] == Floating) ==> s.note[m.x].active.Link? && s.note[m.x].abort.Link?
  }

  ghost predicate CarefulRun<T>(ms: seq<Move<T>>, s: Layout<T>)
    decreases |ms|
  {
    ms == [] || (Placed(s) && Possible(s, ms[0]) && Careful(s, ms[0])
                 && (!Faults(s, ms[0]) ==> CarefulRun(ms[1..], Do(s, ms[0]))))
  }

  predicate WasPended<T(==)>(ms: seq<Move<T>>, x: T) {
    exists k :: 0 <= k < |ms| && ms[k].PutOnPending? && ms[k].x == x
  }

  /** A block that was never pending is freed, or the first block of an active list whose link has been reset. */
  predicate Bad<T(==)>(before: seq<Move<T>>, s: Layout<T>, m: Move<T>)
    requires Placed(s) && Possible(s, m)
  {
    m.FreeBlock? && ((s.at[m.x] == Floating && !WasPended(before, m.x))
                     || (s.at[m.x].ActiveList? && s.lists[s.at[m.x]][0] == m.x && s.note[m.x].state == Disconnecting))
  }

  /** Every pending block knows an active list. */
  predicate PendingLinked<T(==)>(s: Layout<T>) {
    forall x :: x in s.at && x in s.note && s.at[x].PendList? ==> s.note[x].active.Link?
  }

  lemma {:induction false} ShiftKeepsNotes<T>(s: Layout<T>, x: T, to: Where, y: T)
    requires x in s.at && x in s.note && s.at[x] in s.lists && to in s.lists && y in s.note && y in s.at
    ensures y in Shift(s, x, to).note && y in Shift(s, x, to).at
    ensures Shift(s, x, to).note[y].pend == if to.PendList? && x == y then Link(to.i) else s.note[y].pend
    ensures Shift(s, x, to).note[y].active == s.note[y].active
  {
  }

  lemma {:induction false} RenoteKeepsNotes<T>(s: Layout<T>, w: Where, state: ConnState, forget: bool, y: T)
    requires s.at.Keys == s.note.Keys && y in s.note
    ensures y in Renote(s, w, state, forget) && Renote(s, w, state, forget)[y].pend == s.note[y].pend
    ensures Renote(s, w, state, forget)[y].active in {NoLink, s.note[y].active}
  {
  }

  /** The link that a caller has given the block, when it was `before`. */
  function GivenBy<T(==)>(m: Move<T>, x: T, before: Link): Link {
    if m.SetLinks? && m.x == x then Link(m.i) else before
  }

  /** The link whose pending list it has been put on. */
  function PendedBy<T(==)>(m: Move<T>, x: T, before: Link): Link {
    if m.PutOnPending? && m.x == x then Link(m.i) else before
  }

  function LinkPended<T(==)>(ms: seq<Move<T>>, x: T, before: Link): Link {
    if ms == [] then before else LinkPended(ms[1..], x, PendedBy(ms[0], x, before))
  }

  /** The link it has been given last. */
  function LinkGiven<T(==)>(ms: seq<Move<T>>, x: T, before: Link): Link {
    if ms == [] then before else LinkGiven(ms[1..], x, GivenBy(ms[0], x, before))
  }

  lemma {:induction false} MoveKeepsNotes<T>(s: Layout<T>, m: Move<T>, x: T)
    requires Placed(s) && Possible(s, m) && !Faults(s, m) && x in s.note
    ensures x in Do(s, m).note && x in Do(s, m).at
    ensures Do(s, m).note[x].pend == PendedBy(m, x, s.note[x].pend)
    ensures Do(s, m).note[x].active in {NoLink, GivenBy(m, x, s.note[x].active)}
  {
    match m {
      case GetFree =>
        if s.lists[FreeList] != [] {
          TakenKeeps(s);
          ShiftKeepsNotes(s, s.lists[FreeList][0], Floating, x);
        }
      case SetLinks(_, _) =>
      case PutOnPending(y, i) => ShiftKeepsNotes(s, y, PendList(i), x);
      case Activate(y) => ShiftKeepsNotes(s, y, ActiveList(s.note[y].active.i), x);
      case FreeBlock(y) => ShiftKeepsNotes(s, y, FreeList, x);
      case Flush(i) => RenoteKeepsNotes(s, ActiveList(i), Free, true, x);
      case DisableActive(i) => RenoteKeepsNotes(s, ActiveList(i), Disconnecting, true, x);
      case DisablePending(i) => RenoteKeepsNotes(s, PendList(i), Aborted, false, x);
    }
  }

  lemma {:induction false} MoveKeepsLinked<T>(s: Layout<T>, m: Move<T>, x: T)
    requires Placed(s) && Possible(s, m) && !Faults(s, m) && x in s.note && PendingLinked(s) && Careful(s, m)
    ensures x in Do(s, m).note && x in Do(s, m).at
    ensures Do(s, m).at[x].PendList? ==> Do(s, m).note[x].active.Link?
  {
    match m {
      case GetFree =>
        if s.lists[FreeList] != [] {
          TakenKeeps(s);
        }
      case SetLinks(_, _) =>
      case PutOnPending(_, _) =>
      case Activate(_) =>
      case FreeBlock(_) =>
      case Flush(_) =>
      case DisableActive(_) =>
      case DisablePending(_) =>
    }
  }

  lemma {:induction false} WasPendedStep<T>(ms: seq<Move<T>>, x: T)
    requires ms != []
    ensures WasPended(ms, x) <==> (ms[0].PutOnPending? && ms[0].x == x) || WasPended(ms[1..], x)
  {
    if WasPended(ms[1..], x) {
      var k :| 0 <= k < |ms[1..]| && ms[1..][k].PutOnPending? && ms[1..][k].x == x;
      assert ms[k + 1] == ms[1..][k];
    }
    if WasPended(ms, x) {
      var k :| 0 <= k < |ms| && ms[k].PutOnPending? && ms[k].x == x;
      assert k > 0 ==> ms[k] == ms[1..][k - 1];
    }
  }

  lemma {:induction false} RunKeepsPended<T>(ms: seq<Move<T>>, s: Layout<T>, x: T)
    requires Placed(s) && Runs(ms, s) && x in s.note
    ensures x in After(ms, s).note
    ensures After(ms, s).note[x].pend.Link? <==> s.note[x].pend.Link? || WasPended(ms, x)
    decreases |ms|
  {
    if ms != [] {
      MoveKeeps(s, ms[0]);
      MoveKeepsNotes(s, ms[0], x);
      RunKeepsPended(ms[1..], Do(s, ms[0]), x);
      WasPendedStep(ms, x);
    }
  }

  lemma {:induction false} RunKeepsLinked<T>(ms: seq<Move<T>>, s: Layout<T>)
    requires Placed(s) && Runs(ms, s) && CarefulRun(ms, s) && PendingLinked(s)
    ensures PendingLinked(After(ms, s))
    decreases |ms|
  {
    if ms != [] {
      var s' := Do(s, ms[0]);
      MoveKeeps(s, ms[0]);
      forall x | x in s'.at && x in s'.note && s'.at[x].PendList? ensures s'.note[x].active.Link? {
        MoveKeepsLinked(s, ms[0], x);
      }
      RunKeepsLinked(ms[1..], s');
    }
  }

  lemma {:induction false} FaultsHere<T>(s: Layout<T>, m: Move<T>)
    requires Placed(s) && Possible(s, m) && Careful(s, m) && PendingLinked(s)
    ensures Faults(s, m) <==>
      m.FreeBlock? && ((s.at[m.x] == Floating && s.note[m.x].pend.NoLink?)
                       || (s.at[m.x].ActiveList? && s.lists[s.at[m.x]][0] == m.x && s.note[m.x].state == Disconnecting))
  {
    if m.FreeBlock? || m.Activate? {
      assert NoteFits(s.links, s.at[m.x], s.note[m.x]);
      assert s.lists[s.at[m.x]] != [];
    }
  }

  /** After any run without a fault, the next call of a careful caller faults if and only if it frees a block that
      was never pending, or the first block of an active list whose link has been reset. */
  lemma {:induction false} FaultsIff<T>(blocks: seq<T>, links: nat, ms: seq<Move<T>>, s: Layout<T>, m: Move<T>)
    requires NoDup(blocks) && Runs(ms, Fresh(blocks, links)) && s == After(ms, Fresh(blocks, links))
    requires CarefulRun(ms, Fresh(blocks, links)) && Placed(s) && Possible(s, m) && Careful(s, m)
    ensures Faults(s, m) <==> Bad(ms, s, m)
  {
    var s0 := Fresh(blocks, links);
    FreshIsPlaced(blocks, links);
    RunKeepsLinked(ms, s0);
    RunKeeps(ms, s0);
    FaultsHere(s, m);
    if m.FreeBlock? {
      assert m.x in s0.note && s0.note[m.x].pend.NoLink?;
      RunKeepsPended(ms, s0, m.x);
    }
  }

  lemma {:induction false} RunsSnoc<T>(ms: seq<Move<T>>, s: Layout<T>, m: Move<T>)
    requires Runs(ms, s)
    ensures Runs(ms + [m], s) <==> Placed(After(ms, s)) && Possible(After(ms, s), m) && !Faults(After(ms, s), m)
    ensures Runs(ms + [m], s) ==> After(ms + [m], s) == Do(After(ms, s), m)
    decreases |ms|
  {
    if ms == [] {
      assert ms + [m] == [m] && [m][1..] == [];
    } else {
      assert (ms + [m])[1..] == ms[1..] + [m];
      RunsSnoc(ms[1..], Do(s, ms[0]), m);
    }
  }

  lemma {:induction false} CarefulSnoc<T>(ms: seq<Move<T>>, s: Layout<T>, m: Move<T>)
    requires Runs(ms, s) && CarefulRun(ms, s)
    requires Placed(After(ms, s)) && Possible(After(ms, s), m) && Careful(After(ms, s), m) && !Faults(After(ms, s), m)
    ensures CarefulRun(ms + [m], s)
    decreases |ms|
  {
    if ms == [] {
      assert ms + [m] == [m] && [m][1..] == [];
    } else {
      assert (ms + [m])[1..] == ms[1..] + [m];
      CarefulSnoc(ms[1..], Do(s, ms[0]), m);
    }
  }

  /** The calls before the `k`-th went well, and the `k`-th is a bad one. */
  ghost predicate GoesBadAt<T>(ms: seq<Move<T>>, s: Layout<T>, k: nat) {
    && k < |ms| && Runs(ms[..k], s) && Placed(After(ms[..k], s)) && Possible(After(ms[..k], s), ms[k])
    && Bad(ms[..k], After(ms[..k], s), ms[k])
  }

  lemma {:induction false} BadIsFault<T>(blocks: seq<T>, links: nat, ms: seq<Move<T>>, k: nat)
    requires NoDup(blocks) && k < |ms| && Runs(ms[..k], Fresh(blocks, links))
      && CarefulRun(ms[..k], Fresh(blocks, links))
    requires var s := After(ms[..k], Fresh(blocks, links)); Placed(s) && Possible(s, ms[k]) && Careful(s, ms[k])
    ensures GoesBadAt(ms, Fresh(blocks, links), k) <==> Faults(After(ms[..k], Fresh(blocks, links)), ms[k])
  {
    FaultsIff(blocks, links, ms[..k], After(ms[..k], Fresh(blocks, links)), ms[k]);
  }

  /** The `k`-th call, when those before it went well: the run goes on unless it faults. */
  lemma {:induction false} NextCall<T>(ms: seq<Move<T>>, s0: Layout<T>, k: nat)
    requires k < |ms| && Runs(ms[..k], s0) && CarefulRun(ms[..k], s0) && CarefulRun(ms[k..], After(ms[..k], s0))
    ensures var s := After(ms[..k], s0);
            Placed(s) && Possible(s, ms[k]) && Careful(s, ms[k]) && (Runs(ms[..k + 1], s0) <==> !Faults(s, ms[k]))
    ensures Runs(ms[..k + 1], s0) ==> CarefulRun(ms[..k + 1], s0) && CarefulRun(ms[k + 1..], After(ms[..k + 1], s0))
  {
    var s, m := After(ms[..k], s0), ms[k];
    assert ms[k..][0] == m && ms[k..][1..] == ms[k + 1..] && ms[..k + 1] == ms[..k] + [m];
    RunsSnoc(ms[..k], s0, m);
    if !Faults(s, m) {
      CarefulSnoc(ms[..k], s0, m);
    }
  }

  lemma {:induction false} GoesOn<T>(blocks: seq<T>, links: nat, ms: seq<Move<T>>, k: nat)
    requires NoDup(blocks) && k <= |ms| && Runs(ms[..k], Fresh(blocks, links))
      && CarefulRun(ms[..k], Fresh(blocks, links))
    requires CarefulRun(ms[k..], After(ms[..k], Fresh(blocks, links)))
    ensures Runs(ms, Fresh(blocks, links)) <==> NoneBadFrom(ms, Fresh(blocks, links), k)
    decreases |ms| - k
  {
    if k == |ms| {
      assert ms[..k] == ms;
    } else {
      NextCall(ms, Fresh(blocks, links), k);
      BadIsFault(blocks, links, ms, k);
      if GoesBadAt(ms, Fresh(blocks, links), k) {
        FaultStops(ms, Fresh(blocks, links), k);
      } else {
        GoesOn(blocks, links, ms, k + 1);
      }
    }
  }

  ghost predicate NoneBadFrom<T>(ms: seq<Move<T>>, s: Layout<T>, k: nat) {
    forall j :: k <= j < |ms| ==> !GoesBadAt(ms, s, j)
  }

  lemma {:induction false} FaultStops<T>(ms: seq<Move<T>>, s: Layout<T>, k: nat)
    requires k < |ms| && !Runs(ms[..k + 1], s)
    ensures !Runs(ms, s)
    decreases |ms|
  {
    if k == 0 {
      assert ms[..1] == [ms[0]] && [ms[0]][1..] == [];
    } else if Runs(ms, s) {
      assert ms[..k + 1][1..] == ms[1..][..k];
      FaultStops(ms[1..], Do(s, ms[0]), k - 1);
    }
  }

  /** A run of careful callers meets no fault if and only if none of its calls is a bad one. */
  lemma {:induction false} NoFaultIff<T>(blocks: seq<T>, links: nat, ms: seq<Move<T>>)
    requires NoDup(blocks) && CarefulRun(ms, Fresh(blocks, links))
    ensures Runs(ms, Fresh(blocks, links)) <==> NoneBadFrom(ms, Fresh(blocks, links), 0)
  {
    assert ms[..0] == [] && ms[0..] == ms;
    GoesOn(blocks, links, ms, 0);
  }

  lemma {:induction false} RunKeepsGiven<T>(ms: seq<Move<T>>, s: Layout<T>, x: T, given: Link)
    requires Placed(s) && Runs(ms, s) && x in s.note && s.note[x].active in {NoLink, given}
    ensures x in After(ms, s).note && After(ms, s).note[x].active in {NoLink, LinkGiven(ms, x, given)}
    ensures After(ms, s).note[x].pend == LinkPended(ms, x, s.note[x].pend)
    decreases |ms|
  {
    if ms != [] {
      MoveKeeps(s, ms[0]);
      MoveKeepsNotes(s, ms[0], x);
      RunKeepsGiven(ms[1..], Do(s, ms[0]), x, GivenBy(ms[0], x, given));
    }
  }

  /** Over any run, a pending block is on the pending list it was put on last; and a block that has been activated is on
      the active list of the link it was given last, until that link is reset. */
  lemma {:induction false} ListIsOfItsLink<T>(blocks: seq<T>, links: nat, ms: seq<Move<T>>, s: Layout<T>, x: T)
    requires NoDup(blocks) && Runs(ms, Fresh(blocks, links)) && s == After(ms, Fresh(blocks, links))
    requires x in blocks
    ensures x in s.at && x in s.note
    ensures s.at[x].PendList? ==> LinkPended(ms, x, NoLink) == Link(s.at[x].i)
    ensures s.at[x].ActiveList? && s.note[x].state != Disconnecting ==> LinkGiven(ms, x, NoLink) == Link(s.at[x].i)
  {
    var s0 := Fresh(blocks, links);
    FreshIsPlaced(blocks, links);
    RunKeepsGiven(ms, s0, x, NoLink);
    RunKeeps(ms, s0);
    assert NoteFits(s.links, s.at[x], s.note[x]);
  }

  /** The first block of a node, once taken. */
  lemma {:induction false} FirstTaken<T>(x: T, links: nat)
    ensures Placed(Fresh([x], links)) && x in Fresh([x], links).at
    ensures var s := Do(Fresh([x], links), GetFree);
            Placed(s) && s.links == links && x in s.at && s.at[x] == Floating && x in s.note
              && s.note[x] == Note(Free, NoLink, NoLink, NoLink)
  {
    FreshIsPlaced([x], links);
    PlacesExist(links, FreeList);
    TakenKeeps(Fresh([x], links));
    assert Fresh([x], links).lists[FreeList] == [x];
  }

  lemma {:induction false} TwoCalls<T>(a: Move<T>, b: Move<T>, s: Layout<T>)
    requires Placed(s) && Possible(s, a) && !Faults(s, a)
    requires var s' := Do(s, a); Placed(s') && Possible(s', b) && !Faults(s', b)
    ensures Runs([a, b], s) && After([a, b], s) == Do(Do(s, a), b)
  {
    assert [a, b][1..] == [b] && [b][1..] == [];
    assert After([b], Do(s, a)) == After([], Do(Do(s, a), b));
  }

  /** Giving up on the very first connection goes through a list pointer that was never set. */
  lemma {:induction false} FirstConnectionFaults<T>(x: T, links: nat)
    requires links > 0
    ensures Runs([GetFree, SetLinks(x, 0)], Fresh([x], links))
    ensures var s := After([GetFree, SetLinks(x, 0)], Fresh([x], links));
            Placed(s) && Possible(s, FreeBlock(x)) && Careful(s, FreeBlock(x)) && Faults(s, FreeBlock(x))
  {
    FirstTaken(x, links);
    var s := Do(Fresh([x], links), GetFree);
    SetLinksKeeps(s, x, 0);
    TwoCalls(GetFree, SetLinks(x, 0), Fresh([x], links));
  }
}
