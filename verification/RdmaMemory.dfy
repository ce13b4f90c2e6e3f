/** The memories of the nodes under the remote-request protocol: what a successful callback says about the bytes
    themselves. */
module RdmaMemory {
  import opened ScatterGather
  import opened RdmaWalk
  import opened RdmaTransfer
  import opened RdmaPlan
  import opened RdmaPieces
  import opened RdmaProtocol
  import opened RdmaSafety
  import RdmaProgress

  /** A byte of memory somewhere in the machine. */
  datatype Place = Place(node: nat, pa: nat)

  type Memory = Place -> int

  /** The nodes whose memories a request's two lists name. */
  datatype Ends = Ends(src: nat, dst: nat)

  /** Where byte `j` of a transfer comes from, and where it goes. */
  ghost function Source(q: Request, e: Ends, j: nat): Place
    requires j < Sent(q)
  {
    TransfersLength(SentPuts(q));
    Place(e.src, Transfers(SentPuts(q))[j].0)
  }

  ghost function Target(q: Request, e: Ends, j: nat): Place
    requires j < Sent(q)
  {
    TransfersLength(SentPuts(q));
    Place(e.dst, Transfers(SentPuts(q))[j].1)
  }

  ghost function Sources(q: Request, e: Ends): (r: seq<Place>)
    ensures |r| == Sent(q) && forall j :: 0 <= j < Sent(q) ==> r[j] == Source(q, e, j)
  {
    seq(Sent(q), j requires 0 <= j < Sent(q) => Source(q, e, j))
  }

  ghost function Targets(q: Request, e: Ends): (r: seq<Place>)
    ensures |r| == Sent(q) && forall j :: 0 <= j < Sent(q) ==> r[j] == Target(q, e, j)
  {
    seq(Sent(q), j requires 0 <= j < Sent(q) => Target(q, e, j))
  }

  ghost function With(m: Memory, p: Place, value: int): Memory {
    x => if x == p then value else m(x)
  }

  /** `len` bytes are stored, byte `j` in `to[j]`, each as its source was in `m`. */
  ghost function Placed(m: Memory, from: seq<Place>, to: seq<Place>, lo: nat, len: nat): Memory
    requires |from| == |to|
  {
    if len == 0 then m
    else
      var j := lo + len - 1;
      var before := Placed(m, from, to, lo, len - 1);
      if j < |to| then With(before, to[j], m(from[j])) else before
  }

  /** A packet with `len` bytes of a transfer from byte `lo` on lands: all are read from the source before any is
      stored. */
  ghost function Store(m: Memory, q: Request, e: Ends, lo: nat, len: nat): Memory {
    Placed(m, Sources(q, e), Targets(q, e), lo, len)
  }

  /** Only a delivery of data changes memory. */
  ghost function MemoryStep(s: State, step: Step, m: Memory, ends: nat -> Ends): Memory
    requires Enabled(s, step)
  {
    if step.Deliver? && s.pieces[step.i].cargo.Data? && s.pieces[step.i].txn < |s.txns| then
      var p := s.pieces[step.i];
      Store(m, s.txns[p.txn].req, ends(p.txn), p.cargo.lo, p.cargo.len)
    else m
  }

  ghost function MemoryAfter(steps: seq<Step>, s: State, m: Memory, ends: nat -> Ends): Memory
    requires Runs(steps, s)
    decreases |steps|
  {
    if steps == [] then m
    else MemoryAfter(steps[1..], Apply(s, steps[0]), MemoryStep(s, steps[0], m, ends), ends)
  }

  // ----- One packet -----

  lemma {:induction false} PlacedElsewhere(m: Memory, from: seq<Place>, to: seq<Place>, lo: nat, len: nat, p: Place)
    requires |from| == |to| && forall j :: lo <= j < lo + len && j < |to| ==> to[j] != p
    ensures Placed(m, from, to, lo, len)(p) == m(p)
  {
    if len > 0 {
      PlacedElsewhere(m, from, to, lo, len - 1, p);
    }
  }

  lemma {:induction false} PlacedHere(m: Memory, from: seq<Place>, to: seq<Place>, lo: nat, len: nat, j: nat)
    requires |from| == |to| && lo <= j < lo + len && j < |to|
    requires forall i, k :: 0 <= i < k < |to| ==> to[i] != to[k]
    ensures Placed(m, from, to, lo, len)(to[j]) == m(from[j])
  {
    if j < lo + len - 1 {
      PlacedHere(m, from, to, lo, len - 1, j);
    }
  }

  lemma {:induction false} StoreElsewhere(m: Memory, q: Request, e: Ends, lo: nat, len: nat, p: Place)
    requires forall j :: lo <= j < lo + len && j < Sent(q) ==> Target(q, e, j) != p
    ensures Store(m, q, e, lo, len)(p) == m(p)
  {
    PlacedElsewhere(m, Sources(q, e), Targets(q, e), lo, len, p);
  }

  /** The bytes of a transfer all go to different places. */
  ghost predicate Injective(q: Request, e: Ends) {
    forall i, j :: 0 <= i < j < Sent(q) ==> Target(q, e, i) != Target(q, e, j)
  }

  lemma {:induction false} StoreHere(m: Memory, q: Request, e: Ends, lo: nat, len: nat, j: nat)
    requires Injective(q, e) && lo <= j < lo + len && j < Sent(q)
    ensures Store(m, q, e, lo, len)(Target(q, e, j)) == m(Source(q, e, j))
  {
    PlacedHere(m, Sources(q, e), Targets(q, e), lo, len, j);
  }

  // ----- A whole run -----

  /** Nothing that transfer `u` stores is read or stored by transfer `t`. */
  ghost predicate Apart(q: Request, e: Ends, r: Request, f: Ends) {
    forall i, j :: 0 <= i < Sent(r) && 0 <= j < Sent(q) ==>
      Target(r, f, i) != Target(q, e, j) && Target(r, f, i) != Source(q, e, j)
  }

  /** The destination of transfer `t` overlaps neither itself nor its source, and no other transfer stores in either. */
  ghost predicate Undisturbed(txns: seq<Txn>, t: nat, ends: nat -> Ends)
    requires t < |txns|
  {
    var q, e := txns[t].req, ends(t);
    && Injective(q, e)
    && (forall i, j :: 0 <= i < Sent(q) && 0 <= j < Sent(q) ==> Target(q, e, i) != Source(q, e, j))
    && (forall u :: 0 <= u < |txns| && u != t ==> Apart(q, e, txns[u].req, ends(u)))
  }

  /** The source of a transfer is as it was at the start, and so are the bytes of its packets that have landed. */
  ghost predicate MemoryOk(ps: seq<Piece>, m: Memory, start: Memory, t: nat, q: Request, e: Ends) {
    && (forall j :: 0 <= j < Sent(q) ==> m(Source(q, e, j)) == start(Source(q, e, j)))
    && (forall k, j :: 0 <= k < |ps| && 0 <= j < Sent(q) && ps[k].stage.Landed? && Holds(ps[k], t, j) ==>
          m(Target(q, e, j)) == start(Source(q, e, j)))
  }

  lemma {:induction false} OtherLands(m: Memory, q: Request, e: Ends, r: Request, f: Ends, lo: nat, len: nat, j: nat)
    requires Apart(q, e, r, f) && j < Sent(q)
    ensures Store(m, r, f, lo, len)(Source(q, e, j)) == m(Source(q, e, j))
    ensures Store(m, r, f, lo, len)(Target(q, e, j)) == m(Target(q, e, j))
  {
    StoreElsewhere(m, r, f, lo, len, Source(q, e, j));
    StoreElsewhere(m, r, f, lo, len, Target(q, e, j));
  }

  /** One's own packet lands. */
  lemma {:induction false} OwnLands(m: Memory, q: Request, e: Ends, lo: nat, len: nat, j: nat)
    requires Injective(q, e) && j < Sent(q)
    requires forall i, k :: 0 <= i < Sent(q) && 0 <= k < Sent(q) ==> Target(q, e, i) != Source(q, e, k)
    ensures Store(m, q, e, lo, len)(Source(q, e, j)) == m(Source(q, e, j))
    ensures Store(m, q, e, lo, len)(Target(q, e, j))
         == if lo <= j < lo + len then m(Source(q, e, j)) else m(Target(q, e, j))
  {
    StoreElsewhere(m, q, e, lo, len, Source(q, e, j));
    if lo <= j < lo + len {
      StoreHere(m, q, e, lo, len, j);
    } else {
      StoreElsewhere(m, q, e, lo, len, Target(q, e, j));
    }
  }

  lemma {:induction false} DeliveryKeeps(s: State, i: nat, m: Memory, start: Memory, t: nat, q: Request,
                                         ends: nat -> Ends)
    requires Inv(s) && Enabled(s, Deliver(i)) && MemoryOk(s.pieces, m, start, t, q, ends(t))
    requires Injective(q, ends(t))
    requires forall i, k :: 0 <= i < Sent(q) && 0 <= k < Sent(q) ==> Target(q, ends(t), i) != Source(q, ends(t), k)
    requires t < |s.txns| ==> s.txns[t].req == q
    requires forall u :: 0 <= u < |s.txns| && u != t ==> Apart(q, ends(t), s.txns[u].req, ends(u))
    ensures MemoryOk(Apply(s, Deliver(i)).pieces, MemoryStep(s, Deliver(i), m, ends), start, t, q, ends(t))
  {
    var p := s.pieces[i];
    var ps, m' := Apply(s, Deliver(i)).pieces, MemoryStep(s, Deliver(i), m, ends);
    assert AimedWell(s.txns, p);
    if p.cargo.Data? {
      forall j | 0 <= j < Sent(q)
        ensures m'(Source(q, ends(t), j)) == m(Source(q, ends(t), j))
        ensures m'(Target(q, ends(t), j)) == if Holds(p, t, j) then m(Source(q, ends(t), j))
          else m(Target(q, ends(t), j))
      {
        if p.txn == t {
          OwnLands(m, q, ends(t), p.cargo.lo, p.cargo.len, j);
        } else {
          OtherLands(m, q, ends(t), s.txns[p.txn].req, ends(p.txn), p.cargo.lo, p.cargo.len, j);
        }
      }
    }
    forall k, j | 0 <= k < |ps| && 0 <= j < Sent(q) && ps[k].stage.Landed? && Holds(ps[k], t, j)
      ensures m'(Target(q, ends(t), j)) == start(Source(q, ends(t), j))
    {
      assert k != i ==> ps[k] == s.pieces[k] && Holds(s.pieces[k], t, j);
    }
  }

  /** Pieces that are new, split or moved have not landed. */
  lemma {:induction false} OnlyDeliveriesLand(s: State, step: Step, k: nat)
    requires Enabled(s, step) && !step.Deliver? && k < |Apply(s, step).pieces| && Apply(s, step).pieces[k].stage.Landed?
    ensures k < |s.pieces| && s.pieces[k] == Apply(s, step).pieces[k]
  {
    match step {
      case Answer(t, o, id) =>
        var x := s.txns[t];
        CutShape(SentPuts(x.req), t, o, 0, 0, Built);
        CutShape(SentPuts(x.req), t, x.origin, 0, 0, InFlight);
      case SendBundle(i) => assert Restaged(s.pieces[k], Apply(s, step).pieces[k]);
      case Replay(i) => assert Restaged(s.pieces[k], Apply(s, step).pieces[k]);
      case _ =>
    }
  }

  lemma {:induction false} StepKeepsMemory(s: State, step: Step, m: Memory, start: Memory, t: nat, q: Request,
                                           ends: nat -> Ends)
    requires Inv(s) && Enabled(s, step) && MemoryOk(s.pieces, m, start, t, q, ends(t))
    requires Injective(q, ends(t))
    requires forall i, k :: 0 <= i < Sent(q) && 0 <= k < Sent(q) ==> Target(q, ends(t), i) != Source(q, ends(t), k)
    requires t < |s.txns| ==> s.txns[t].req == q
    requires forall u :: 0 <= u < |s.txns| && u != t ==> Apart(q, ends(t), s.txns[u].req, ends(u))
    ensures MemoryOk(Apply(s, step).pieces, MemoryStep(s, step, m, ends), start, t, q, ends(t))
  {
    if step.Deliver? {
      DeliveryKeeps(s, step.i, m, start, t, q, ends);
    } else {
      var ps := Apply(s, step).pieces;
      forall k, j | 0 <= k < |ps| && 0 <= j < Sent(q) && ps[k].stage.Landed? && Holds(ps[k], t, j)
        ensures m(Target(q, ends(t), j)) == start(Source(q, ends(t), j))
      {
        OnlyDeliveriesLand(s, step, k);
      }
    }
  }

  lemma {:induction false} StepKeepsRequests(s: State, step: Step)
    requires Enabled(s, step)
    ensures |s.txns| <= |Apply(s, step).txns|
    ensures forall u :: 0 <= u < |s.txns| ==> Apply(s, step).txns[u].req == s.txns[u].req
  {
  }

  lemma {:induction false} RunKeepsRequests(steps: seq<Step>, s: State)
    requires Runs(steps, s)
    ensures |s.txns| <= |After(steps, s).txns|
    ensures forall u :: 0 <= u < |s.txns| ==> After(steps, s).txns[u].req == s.txns[u].req
    decreases |steps|
  {
    if steps != [] {
      StepKeepsRequests(s, steps[0]);
      RunKeepsRequests(steps[1..], Apply(s, steps[0]));
    }
  }

  lemma {:induction false} RunKeepsMemory(steps: seq<Step>, s: State, m: Memory, start: Memory, t: nat,
                                          ends: nat -> Ends)
    requires Runs(steps, s) && Inv(s) && t < |After(steps, s).txns| && Undisturbed(After(steps, s).txns, t, ends)
    requires MemoryOk(s.pieces, m, start, t, After(steps, s).txns[t].req, ends(t))
    ensures MemoryOk(After(steps, s).pieces, MemoryAfter(steps, s, m, ends), start, t, After(steps, s).txns[t].req,
                     ends(t))
    decreases |steps|
  {
    if steps != [] {
      var last := After(steps, s);
      RunKeepsRequests(steps, s);
      forall u | 0 <= u < |s.txns| && u != t ensures Apart(last.txns[t].req, ends(t), s.txns[u].req, ends(u)) {
        assert Apart(last.txns[t].req, ends(t), last.txns[u].req, ends(u));
      }
      StepKeepsMemory(s, steps[0], m, start, t, last.txns[t].req, ends);
      StepKeeps(s, steps[0]);
      RunKeepsMemory(steps[1..], Apply(s, steps[0]), MemoryStep(s, steps[0], m, ends), start, t, ends);
    }
  }

  /** Over every run, whatever the order and split of deliveries: once a requester has been told success, byte `i`
      of the destination list holds what byte `i` of the source list held when the request was made, or at any time
      before, provided that no other transfer stores in either and the two do not overlap. `since` is the run from
      that time on. */
  lemma {:induction false} SuccessMeansBytes(before: seq<Step>, since: seq<Step>, s0: State, s: State, start: Memory,
                                             ends: nat -> Ends, c: Callback, i: nat)
    requires Runs(before, INIT) && s0 == After(before, INIT) && Runs(since, s0) && s == After(since, s0)
    requires c in s.log && c.status == 0 && |s0.txns| <= c.txn < |s.txns|
    requires Undisturbed(s.txns, c.txn, ends) && i < s.txns[c.txn].req.n
    ensures var q := s.txns[c.txn].req;
            && i < |Flatten(q.src)| && i < |Flatten(q.dst)|
            && MemoryAfter(since, s0, start, ends)(Place(ends(c.txn).dst, Flatten(q.dst)[i]))
               == start(Place(ends(c.txn).src, Flatten(q.src)[i]))
  {
    var t, q := c.txn, s.txns[c.txn].req;
    RdmaProgress.RunsAppend(before, since, INIT);
    CallbackIsTrue(before + since, s, c);
    Reachable(before);
    NothingLandedYet(s0, start, t, q, ends(t));
    RunKeepsMemory(since, s0, start, start, t, ends);
    ByteInPlace(s, MemoryAfter(since, s0, start, ends), start, t, q, ends(t), i);
  }

  lemma {:induction false} NothingLandedYet(s: State, m: Memory, t: nat, q: Request, e: Ends)
    requires Inv(s) && t >= |s.txns|
    ensures MemoryOk(s.pieces, m, m, t, q, e)
  {
    forall k | 0 <= k < |s.pieces| ensures s.pieces[k].txn != t {
      assert AimedWell(s.txns, s.pieces[k]);
    }
  }

  lemma {:induction false} ByteInPlace(s: State, m: Memory, start: Memory, t: nat, q: Request, e: Ends, i: nat)
    requires MemoryOk(s.pieces, m, start, t, q, e) && Arrived(s, t, i) && i < q.n
    requires Copies(SentPuts(q), Flatten(q.src), Flatten(q.dst), q.n)
    ensures i < |Flatten(q.src)| && i < |Flatten(q.dst)|
    ensures m(Place(e.dst, Flatten(q.dst)[i])) == start(Place(e.src, Flatten(q.src)[i]))
  {
    TransfersLength(SentPuts(q));
    assert Transfers(SentPuts(q))[i] == (Flatten(q.src)[i], Flatten(q.dst)[i]);
    var k :| 0 <= k < |s.pieces| && s.pieces[k].stage.Landed? && Holds(s.pieces[k], t, i);
    assert m(Target(q, e, i)) == start(Source(q, e, i));
  }
}
