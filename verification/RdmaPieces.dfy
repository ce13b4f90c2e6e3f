/** The bytes of remote requests on their way: pieces of puts in bundles, in messages, in flight or landed. */
module RdmaPieces {
  import opened ScatterGather
  import RdmaTransfer

  /** An RDMA object, named by its node and the physical address of its byte counter. */
  datatype Ref = Ref(node: nat, pa: nat)

  /** Where a piece is: in the packet being built, in a MUDM_DPUT message, injected, or in its destination memory. */
  datatype Stage = Built | InMessage | InFlight | Landed

  /** What a piece carries: `len` bytes of its transfer from byte `lo` on, or 8 bytes for an error word. */
  datatype Cargo = Data(lo: nat, len: nat) | Status(value: int)

  datatype Piece = Piece(txn: nat, target: Ref, cargo: Cargo, bundle: nat, stage: Stage)

  function Size(c: Cargo): nat {
    match c
    case Data(_, len) => len
    case Status(_) => 8
  }

  /** The piece will still change the counter it is aimed at. */
  predicate Undelivered(p: Piece) {
    !p.stage.Landed? && Size(p.cargo) > 0
  }

  function Load(p: Piece, o: Ref): nat {
    if p.stage.Landed? || p.target != o then 0 else Size(p.cargo)
  }

  /** The undelivered bytes aimed at a counter. */
  function Pending(ps: seq<Piece>, o: Ref): nat {
    if ps == [] then 0 else Load(ps[0], o) + Pending(ps[1..], o)
  }

  lemma {:induction false} PendingAppend(a: seq<Piece>, b: seq<Piece>, o: Ref)
    ensures Pending(a + b, o) == Pending(a, o) + Pending(b, o)
  {
    if a == [] {
      assert a + b == b;
    } else {
      assert (a + b)[1..] == a[1..] + b;
      PendingAppend(a[1..], b, o);
    }
  }

  lemma {:induction false} PendingUpdate(ps: seq<Piece>, i: nat, p: Piece, o: Ref)
    requires i < |ps|
    ensures Pending(ps[i := p], o) == Pending(ps, o) - Load(ps[i], o) + Load(p, o)
  {
    if i == 0 {
      assert ps[0 := p][1..] == ps[1..];
    } else {
      assert ps[i := p][1..] == ps[1..][i - 1 := p];
      PendingUpdate(ps[1..], i - 1, p, o);
    }
  }

  lemma {:induction false} PendingSame(ps: seq<Piece>, qs: seq<Piece>, o: Ref)
    requires |ps| == |qs| && forall i :: 0 <= i < |ps| ==> Load(ps[i], o) == Load(qs[i], o)
    ensures Pending(ps, o) == Pending(qs, o)
  {
    if ps != [] {
      PendingSame(ps[1..], qs[1..], o);
    }
  }

  /** Nothing is pending exactly when no undelivered piece is aimed there. */
  lemma {:induction false} PendingZeroIff(ps: seq<Piece>, o: Ref)
    ensures Pending(ps, o) == 0 <==> forall i :: 0 <= i < |ps| && Undelivered(ps[i]) ==> ps[i].target != o
  {
    if ps != [] {
      PendingZeroIff(ps[1..], o);
      if Pending(ps, o) == 0 {
        forall i | 0 <= i < |ps| && Undelivered(ps[i])
          ensures ps[i].target != o
        {
          assert i > 0 ==> ps[i] == ps[1..][i - 1];
        }
      }
    }
  }

  lemma {:induction false} PendingAtLeast(ps: seq<Piece>, i: nat, o: Ref)
    requires i < |ps|
    ensures Load(ps[i], o) <= Pending(ps, o)
  {
    if i > 0 {
      PendingAtLeast(ps[1..], i - 1, o);
    }
  }

  // ----- Cutting puts into pieces -----

  /** One piece for every put; put `k` travels in bundle `k / 8`, and bytes are numbered through the whole transfer. */
  function Cut(puts: seq<Put>, txn: nat, target: Ref, lo: nat, k: nat, stage: Stage): seq<Piece> {
    if puts == [] then []
    else [Piece(txn, target, Data(lo, puts[0].len), k / RdmaTransfer.BUNDLE, stage)] +
         Cut(puts[1..], txn, target, lo + puts[0].len, k + 1, stage)
  }

  predicate IsCut(p: Piece, txn: nat, target: Ref, stage: Stage) {
    p.txn == txn && p.target == target && p.stage == stage && p.cargo.Data?
  }

  /** Byte `i` of the transfer is part of the piece. */
  predicate Holds(p: Piece, txn: nat, i: nat) {
    p.txn == txn && p.cargo.Data? && p.cargo.lo <= i < p.cargo.lo + p.cargo.len
  }

  ghost predicate Covered(ps: seq<Piece>, txn: nat, i: nat) {
    exists k :: 0 <= k < |ps| && Holds(ps[k], txn, i)
  }

  lemma {:induction false} CutShape(puts: seq<Put>, txn: nat, target: Ref, lo: nat, k: nat, stage: Stage)
    ensures var ps := Cut(puts, txn, target, lo, k, stage);
            && |ps| == |puts|
            && forall j :: 0 <= j < |ps| ==>
               IsCut(ps[j], txn, target, stage) && ps[j].bundle == (k + j) / RdmaTransfer.BUNDLE
  {
    if puts != [] {
      CutShape(puts[1..], txn, target, lo + puts[0].len, k + 1, stage);
    }
  }

  lemma {:induction false} CutPending(puts: seq<Put>, txn: nat, target: Ref, lo: nat, k: nat, stage: Stage, o: Ref)
    requires !stage.Landed?
    ensures Pending(Cut(puts, txn, target, lo, k, stage), o) == if o == target then PutTotal(puts) else 0
  {
    if puts != [] {
      CutPending(puts[1..], txn, target, lo + puts[0].len, k + 1, stage, o);
      assert Cut(puts, txn, target, lo, k, stage)[1..] == Cut(puts[1..], txn, target, lo + puts[0].len, k + 1, stage);
    }
  }

  lemma {:induction false} CutCovers(puts: seq<Put>, txn: nat, target: Ref, lo: nat, k: nat, stage: Stage, i: nat)
    requires lo <= i < lo + PutTotal(puts)
    ensures Covered(Cut(puts, txn, target, lo, k, stage), txn, i)
  {
    var ps := Cut(puts, txn, target, lo, k, stage);
    if i < lo + puts[0].len {
      assert Holds(ps[0], txn, i);
    } else {
      var rest := Cut(puts[1..], txn, target, lo + puts[0].len, k + 1, stage);
      CutCovers(puts[1..], txn, target, lo + puts[0].len, k + 1, stage, i);
      var j :| 0 <= j < |rest| && Holds(rest[j], txn, i);
      assert Holds(ps[j + 1], txn, i);
    }
  }

  lemma {:induction false} CoveredAppend(a: seq<Piece>, b: seq<Piece>, txn: nat, i: nat)
    requires Covered(a, txn, i) || Covered(b, txn, i)
    ensures Covered(a + b, txn, i)
  {
    if Covered(a, txn, i) {
      var k :| 0 <= k < |a| && Holds(a[k], txn, i);
      assert Holds((a + b)[k], txn, i);
    } else {
      var k :| 0 <= k < |b| && Holds(b[k], txn, i);
      assert Holds((a + b)[|a| + k], txn, i);
    }
  }

  // ----- Moving and splitting pieces -----

  /** The piece keeps its size, target and cargo and is still on its way. */
  predicate Restaged(p: Piece, q: Piece) {
    q == p || (!p.stage.Landed? && !q.stage.Landed? && q == p.(stage := q.stage))
  }

  /** All pieces of one bundle move from one stage to the next together. */
  function MoveBundle(ps: seq<Piece>, txn: nat, bundle: nat, from: Stage, to: Stage): (qs: seq<Piece>)
    requires !from.Landed? && !to.Landed?
    ensures |qs| == |ps| && forall i :: 0 <= i < |ps| ==> Restaged(ps[i], qs[i])
  {
    seq(|ps|, i requires 0 <= i < |ps| =>
      if ps[i].txn == txn && ps[i].bundle == bundle && ps[i].stage == from then ps[i].(stage := to) else ps[i])
  }

  /** The network carries a piece as several packets. */
  function SplitAt(ps: seq<Piece>, i: nat, k: nat): seq<Piece>
    requires i < |ps| && ps[i].cargo.Data? && k <= ps[i].cargo.len
  {
    var c := ps[i].cargo;
    ps[i := ps[i].(cargo := Data(c.lo, k))] + [ps[i].(cargo := Data(c.lo + k, c.len - k))]
  }

  lemma {:induction false} SplitPending(ps: seq<Piece>, i: nat, k: nat, o: Ref)
    requires i < |ps| && ps[i].cargo.Data? && k <= ps[i].cargo.len
    ensures Pending(SplitAt(ps, i, k), o) == Pending(ps, o)
  {
    var c := ps[i].cargo;
    var last := ps[i].(cargo := Data(c.lo + k, c.len - k));
    PendingUpdate(ps, i, ps[i].(cargo := Data(c.lo, k)), o);
    PendingAppend(ps[i := ps[i].(cargo := Data(c.lo, k))], [last], o);
    assert Pending([last], o) == Load(last, o) + Pending([], o);
  }

  lemma {:induction false} SplitCovers(ps: seq<Piece>, i: nat, k: nat, txn: nat, b: nat)
    requires i < |ps| && ps[i].cargo.Data? && k <= ps[i].cargo.len && Covered(ps, txn, b)
    ensures Covered(SplitAt(ps, i, k), txn, b)
  {
    var j :| 0 <= j < |ps| && Holds(ps[j], txn, b);
    var qs := SplitAt(ps, i, k);
    assert j != i ==> Holds(qs[j], txn, b);
    assert j == i ==> Holds(qs[i], txn, b) || Holds(qs[|ps|], txn, b);
  }
}
