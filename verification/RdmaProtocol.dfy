/** The remote-request protocol as a step system: requests, RDMA objects, pieces on the network, status callbacks. */
module RdmaProtocol {
  import opened ScatterGather
  import opened RdmaTransfer
  import opened RdmaPlan
  import opened RdmaPieces

  datatype Peer = NoPeer | Peer(ref: Ref)

  /** An RDMA object in use. `remote` is the originator's object, known only to the responder of a read;
      `polled` objects are on the counter list, any other one is watched by the routine that allocated it. */
  datatype Obj = Obj(counter: int, error: int, id: nat, remote: Peer, polled: bool, txn: nat)

  /** Asked: the request is on its way. Moving: the responder of a read holds an object. Reported: the responder is
      done. */
  datatype Phase = Asked | Moving(obj: Ref) | Reported

  datatype Txn = Txn(req: Request, origin: Ref, phase: Phase, closed: bool)

  /** A status callback for a request, at the originator or at the responder of a read. */
  datatype Callback = Callback(txn: nat, atOrigin: bool, id: nat, status: int)

  datatype State = State(txns: seq<Txn>, objs: map<Ref, Obj>, pieces: seq<Piece>, log: seq<Callback>)

  const INIT := State([], map[], [], [])

  /** Bytes of an error word, and of the put that writes it. */
  const WORD: nat := 8

  datatype Step =
    | Originate(q: Request, o: Ref)
    | Answer(t: nat, o: Ref, id: nat)
    | SendBundle(i: nat)
    | Replay(i: nat)
    | Split(i: nat, k: nat)
    | Deliver(i: nat)
    | Poll(o: Ref)
    | SpinOut(o: Ref)

  predicate Enabled(s: State, step: Step) {
    match step
    case Originate(q, o) => Sensible(q) && o !in s.objs
    case Answer(t, o, id) => t < |s.txns| && s.txns[t].phase.Asked? && o !in s.objs
    case SendBundle(i) => i < |s.pieces| && s.pieces[i].stage.Built?
    case Replay(i) => i < |s.pieces| && s.pieces[i].stage.InMessage?
    case Split(i, k) =>
      i < |s.pieces| && s.pieces[i].stage.InFlight? && s.pieces[i].cargo.Data? && 0 < k < s.pieces[i].cargo.len
    case Deliver(i) => i < |s.pieces| && s.pieces[i].stage.InFlight? && InOrder(s.pieces, s.pieces[i])
    case Poll(o) => Watched(s, o) && s.objs[o].polled
    case SpinOut(o) => Watched(s, o) && !s.objs[o].polled
  }

  /** The routine that watches the object finds it done: a poll at counter zero or an error, a spinning read at its
      own value. */
  predicate Watched(s: State, o: Ref) {
    && o in s.objs && s.objs[o].txn < |s.txns|
    && if s.objs[o].polled then s.objs[o].counter == 0 || s.objs[o].error != 0
       else s.objs[o].counter == WaitFor(s.txns[s.objs[o].txn].req)
  }

  /** Deterministic routing: an error word does not overtake the puts injected before it for the same counter. */
  predicate InOrder(ps: seq<Piece>, p: Piece) {
    p.cargo.Status? ==> Pending(ps, p.target) == WORD
  }

  function Apply(s: State, step: Step): State
    requires Enabled(s, step)
  {
    match step
    case Originate(q, o) => Send(s, q, o)
    case Answer(t, o, id) => AnswerWith(s, t, o, id)
    case SendBundle(i) => s.(pieces := MoveBundle(s.pieces, s.pieces[i].txn, s.pieces[i].bundle, Built, InMessage))
    case Replay(i) => s.(pieces := MoveBundle(s.pieces, s.pieces[i].txn, s.pieces[i].bundle, InMessage, InFlight))
    case Split(i, k) => s.(pieces := SplitAt(s.pieces, i, k))
    case Deliver(i) => Land(s, i)
    case Poll(o) => Release(s, o, s.objs[o].error, s.objs[o].id != 0)
    case SpinOut(o) => Release(s, o, EINVAL, false)
  }

  /** `mudm_send_message_remote`: a read waits for an 8-byte completion put, a write for its whole transfer. */
  function Send(s: State, q: Request, o: Ref): State {
    s.(txns := s.txns + [Txn(q, o, Asked, false)],
       objs := s.objs[o := Obj(if q.kind.Read? then WORD else q.n, 0, q.id, NoPeer, true, |s.txns|)])
  }

  function Land(s: State, i: nat): State
    requires i < |s.pieces|
  {
    s.(pieces := s.pieces[i := s.pieces[i].(stage := Landed)], objs := Hit(s.objs, s.pieces[i]))
  }

  /** A put of n bytes subtracts n from the counter it is aimed at; a status put also stores the error word. */
  function Hit(objs: map<Ref, Obj>, p: Piece): map<Ref, Obj> {
    if p.target !in objs then objs
    else
      var ob := objs[p.target];
      objs[p.target := ob.(counter := ob.counter - Size(p.cargo), error := if p.cargo.Status? then p.cargo.value
        else ob.error)]
  }

  function ErrorPut(t: nat, o: Ref, status: int): Piece {
    Piece(t, o, Status(status), 0, InFlight)
  }

  /** The state after a read was answered with object `o`. */
  function ReadAnswered(s: State, t: nat, o: Ref, id: nat): State
    requires t < |s.txns|
  {
    var x := s.txns[t];
    Answered(s, t, Moving(o), s.objs[o := Obj(x.req.n, 0, id, Peer(x.origin), Verdict(x.req) == 0, t)],
             Cut(SentPuts(x.req), t, o, 0, 0, Built))
  }

  /** The responder runs `mudm_rdma_write` or `mudm_rdma_read`; only a read that sends something takes object `o`. */
  function AnswerWith(s: State, t: nat, o: Ref, id: nat): State
    requires t < |s.txns|
  {
    if NeedsObject(s.txns[t].req) then ReadAnswered(s, t, o, id)
    else Answered(s, t, Reported, s.objs, DirectAnswer(s.txns[t], t))
  }

  /** The request of `t` enters phase `ph`, and pieces `extra` are handed over. */
  function Answered(s: State, t: nat, ph: Phase, objs: map<Ref, Obj>, extra: seq<Piece>): State
    requires t < |s.txns|
  {
    s.(txns := s.txns[t := s.txns[t].(phase := ph)], objs := objs, pieces := s.pieces + extra)
  }

  /** The pieces of an answer given without an object: the puts of a write, and an error word unless the write
      succeeds. */
  function DirectAnswer(x: Txn, t: nat): seq<Piece> {
    (if x.req.kind.Write? then Cut(SentPuts(x.req), t, x.origin, 0, 0, InFlight) else []) +
    (if NeedsStatus(x.req) then [ErrorPut(t, x.origin, Verdict(x.req))] else [])
  }

  /** The responder of the request ends it with a put to the originator's error word. */
  predicate NeedsStatus(q: Request) {
    q.kind.Read? || Verdict(q) != 0
  }

  /** An object is done with: the responder of a read tells the originator, the requester is called back, the object
      is freed. */
  function Release(s: State, o: Ref, status: int, report: bool): State
    requires o in s.objs
  {
    var ob := s.objs[o];
    State(
      if ob.txn >= |s.txns| then s.txns
      else s.txns[ob.txn := if ob.remote.Peer? then s.txns[ob.txn].(phase := Reported)
        else s.txns[ob.txn].(closed := true)],
      s.objs - {o},
      if ob.remote.Peer? then s.pieces + [ErrorPut(ob.txn, ob.remote.ref, status)] else s.pieces,
      if report then s.log + [Callback(ob.txn, ob.remote.NoPeer?, ob.id, ob.error)] else s.log)
  }

  predicate Runs(steps: seq<Step>, s: State)
    decreases |steps|
  {
    steps == [] || (Enabled(s, steps[0]) && Runs(steps[1..], Apply(s, steps[0])))
  }

  function After(steps: seq<Step>, s: State): State
    requires Runs(steps, s)
    decreases |steps|
  {
    if steps == [] then s else After(steps[1..], Apply(s, steps[0]))
  }

  // ----- What every step keeps -----

  /** What a counter holds beyond the bytes on their way to it: 8 while the completion put of a read has not been sent,
      the whole transfer while a write has not been answered, and whatever the responder leaves unsent. */
  function Owed(x: Txn, responder: bool): int {
    var q := x.req;
    if responder then q.n - Sent(q)
    else if q.kind.Read? then if x.phase.Reported? then 0 else WORD
    else if x.phase.Reported? then q.n - Sent(q) - (if Verdict(q) != 0 then WORD else 0)
    else q.n
  }

  /** Every object in use belongs to an open request, as its originator's or as its responder's. */
  predicate Owned(txns: seq<Txn>, o: Ref, ob: Obj) {
    && ob.txn < |txns|
    && !txns[ob.txn].closed
    && if ob.remote.NoPeer? then txns[ob.txn].origin == o && ob.polled && ob.id == txns[ob.txn].req.id
       else txns[ob.txn].phase == Moving(o) && ob.remote.ref == txns[ob.txn].origin && ob.error == 0
            && (ob.polled <==> Verdict(txns[ob.txn].req) == 0)
  }

  /** Every open request has its originator's object, and a moving one its responder's. */
  predicate Rooted(objs: map<Ref, Obj>, t: nat, x: Txn) {
    && Sensible(x.req)
    && (!x.closed ==> x.origin in objs && objs[x.origin].txn == t && objs[x.origin].remote.NoPeer?)
    && (x.closed ==> x.phase.Reported?)
    && (x.phase.Moving? ==> x.req.kind.Read? && NeedsObject(x.req)
                            && x.phase.obj in objs && objs[x.phase.obj].txn == t && objs[x.phase.obj].remote.Peer?)
  }

  /** A piece that is still to be delivered is aimed at an object of its own request. */
  predicate AimedWell(txns: seq<Txn>, p: Piece) {
    && p.txn < |txns|
    && var x := txns[p.txn];
       && !x.phase.Asked?
       && (Undelivered(p) ==>
             match p.cargo
             case Status(v) => x.phase.Reported? && !x.closed && p.target == x.origin && v == Verdict(x.req)
               && NeedsStatus(x.req)
             case Data(_, _) => if x.req.kind.Read? then x.phase == Moving(p.target)
                                else x.phase.Reported? && !x.closed && p.target == x.origin)
  }

  predicate Told(ps: seq<Piece>, t: nat) {
    exists k :: 0 <= k < |ps| && Tells(ps[k], t)
  }

  predicate Tells(p: Piece, t: nat) {
    p.txn == t && p.cargo.Status? && Undelivered(p)
  }

  /** An error word is the verdict and arrives last; until it does, the put that carries it is on its way. */
  predicate ErrorWord(ps: seq<Piece>, x: Txn, o: Ref, ob: Obj) {
    && (ob.error != 0 ==> x.phase.Reported? && ob.error == Verdict(x.req) && Pending(ps, o) == 0)
    && (x.phase.Reported? && NeedsStatus(x.req) && ob.error != Verdict(x.req) ==> Told(ps, ob.txn))
  }

  predicate Balanced(s: State, o: Ref, ob: Obj)
    requires ob.txn < |s.txns|
  {
    ob.counter == Pending(s.pieces, o) + Owed(s.txns[ob.txn], ob.remote.Peer?)
  }

  predicate Owners(s: State) {
    forall o :: o in s.objs ==> Owned(s.txns, o, s.objs[o])
  }

  predicate Roots(s: State) {
    forall t :: 0 <= t < |s.txns| ==> Rooted(s.objs, t, s.txns[t])
  }

  predicate Aims(s: State) {
    forall i :: 0 <= i < |s.pieces| ==> AimedWell(s.txns, s.pieces[i])
  }

  /** Credit conservation: a counter holds the bytes aimed at it that are not yet delivered, plus what is still owed
      to it. */
  predicate Credit(s: State) {
    forall o :: o in s.objs ==> s.objs[o].txn < |s.txns| && Balanced(s, o, s.objs[o])
  }

  predicate Words(s: State) {
    forall o :: o in s.objs && s.objs[o].remote.NoPeer? ==>
      s.objs[o].txn < |s.txns| && ErrorWord(s.pieces, s.txns[s.objs[o].txn], o, s.objs[o])
  }

  /** No byte the responder sends is ever lost. */
  ghost predicate Accounted(s: State) {
    forall t, i :: 0 <= t < |s.txns| && !s.txns[t].phase.Asked? && 0 <= i < Sent(s.txns[t].req) ==>
      Covered(s.pieces, t, i)
  }

  ghost predicate Inv(s: State) {
    Owners(s) && Roots(s) && Aims(s) && Credit(s) && Words(s) && Accounted(s)
  }

  // ----- Steps of the network -----

  /** Pieces that only move on, or split, keep every account. */
  lemma {:induction false} PiecesMove(s: State, ps: seq<Piece>)
    requires Inv(s)
    requires forall o :: Pending(ps, o) == Pending(s.pieces, o)
    requires forall i :: 0 <= i < |ps| ==> AimedWell(s.txns, ps[i])
    requires forall t :: Told(s.pieces, t) ==> Told(ps, t)
    requires forall t, i :: Covered(s.pieces, t, i) ==> Covered(ps, t, i)
    ensures Inv(s.(pieces := ps))
  {
    var s' := s.(pieces := ps);
    assert Credit(s') by {
      forall o | o in s'.objs
        ensures Balanced(s', o, s'.objs[o])
      {
        assert Balanced(s, o, s.objs[o]);
      }
    }
    assert Words(s') by {
      forall o | o in s'.objs && s'.objs[o].remote.NoPeer?
        ensures ErrorWord(ps, s'.txns[s'.objs[o].txn], o, s'.objs[o])
      {
        assert ErrorWord(s.pieces, s.txns[s.objs[o].txn], o, s.objs[o]);
      }
    }
  }

  lemma {:induction false} MoveKeeps(s: State, i: nat, from: Stage, to: Stage)
    requires Inv(s) && i < |s.pieces| && !from.Landed? && !to.Landed?
    ensures Inv(s.(pieces := MoveBundle(s.pieces, s.pieces[i].txn, s.pieces[i].bundle, from, to)))
  {
    var ps := MoveBundle(s.pieces, s.pieces[i].txn, s.pieces[i].bundle, from, to);
    forall o ensures Pending(ps, o) == Pending(s.pieces, o) {
      PendingSame(s.pieces, ps, o);
    }
    forall j | 0 <= j < |ps| ensures AimedWell(s.txns, ps[j]) {
      assert AimedWell(s.txns, s.pieces[j]) && Restaged(s.pieces[j], ps[j]);
    }
    forall t | Told(s.pieces, t) ensures Told(ps, t) {
      var k :| 0 <= k < |s.pieces| && Tells(s.pieces[k], t);
      assert Restaged(s.pieces[k], ps[k]) && Tells(ps[k], t);
    }
    forall t, b | Covered(s.pieces, t, b) ensures Covered(ps, t, b) {
      var k :| 0 <= k < |s.pieces| && Holds(s.pieces[k], t, b);
      assert Restaged(s.pieces[k], ps[k]) && Holds(ps[k], t, b);
    }
    PiecesMove(s, ps);
  }

  lemma {:induction false} SplitKeeps(s: State, i: nat, k: nat)
    requires Inv(s) && i < |s.pieces| && s.pieces[i].cargo.Data? && 0 < k < s.pieces[i].cargo.len
    ensures Inv(s.(pieces := SplitAt(s.pieces, i, k)))
  {
    var ps := SplitAt(s.pieces, i, k);
    forall o ensures Pending(ps, o) == Pending(s.pieces, o) {
      SplitPending(s.pieces, i, k, o);
    }
    forall j | 0 <= j < |ps| ensures AimedWell(s.txns, ps[j]) {
      assert AimedWell(s.txns, s.pieces[i]);
      assert j < |s.pieces| ==> AimedWell(s.txns, s.pieces[j]);
    }
    forall t | Told(s.pieces, t) ensures Told(ps, t) {
      var j :| 0 <= j < |s.pieces| && Tells(s.pieces[j], t);
      assert j != i && Tells(ps[j], t);
    }
    forall t, b | Covered(s.pieces, t, b) ensures Covered(ps, t, b) {
      SplitCovers(s.pieces, i, k, t, b);
    }
    PiecesMove(s, ps);
  }

  /** What a delivery changes: the counter and the pending bytes of one object, by the same amount. */
  lemma {:induction false} DeliverPending(ps: seq<Piece>, i: nat, o: Ref)
    requires i < |ps| && ps[i].stage.InFlight?
    ensures Pending(ps[i := ps[i].(stage := Landed)], o)
         == Pending(ps, o) - (if o == ps[i].target then Size(ps[i].cargo) else 0)
  {
    PendingUpdate(ps, i, ps[i].(stage := Landed), o);
  }

  /** A piece with something to deliver meets an object of its own request. */
  lemma {:induction false} MeetsItsObject(s: State, i: nat)
    requires Inv(s) && i < |s.pieces| && Undelivered(s.pieces[i])
    ensures s.pieces[i].target in s.objs && s.objs[s.pieces[i].target].txn == s.pieces[i].txn
    ensures s.pieces[i].cargo.Status? ==> s.objs[s.pieces[i].target].remote.NoPeer?
    ensures !s.txns[s.pieces[i].txn].closed
  {
    var p := s.pieces[i];
    assert AimedWell(s.txns, p);
    assert Rooted(s.objs, p.txn, s.txns[p.txn]);
    if s.txns[p.txn].phase.Moving? {
      assert Owned(s.txns, s.txns[p.txn].phase.obj, s.objs[s.txns[p.txn].phase.obj]);
    }
  }

  lemma {:induction false} LandKeepsObjects(s: State, i: nat)
    requires Inv(s) && i < |s.pieces| && s.pieces[i].stage.InFlight?
    ensures Owners(Land(s, i)) && Roots(Land(s, i))
  {
    var s' := Land(s, i);
    if Undelivered(s.pieces[i]) {
      MeetsItsObject(s, i);
    }
    forall o | o in s'.objs ensures Owned(s'.txns, o, s'.objs[o]) {
      assert Owned(s.txns, o, s.objs[o]);
    }
    forall t | 0 <= t < |s'.txns| ensures Rooted(s'.objs, t, s'.txns[t]) {
      assert Rooted(s.objs, t, s.txns[t]);
    }
  }

  lemma {:induction false} LandKeepsPieces(s: State, i: nat)
    requires Inv(s) && i < |s.pieces| && s.pieces[i].stage.InFlight?
    ensures Aims(Land(s, i)) && Accounted(Land(s, i))
  {
    var s' := Land(s, i);
    forall j | 0 <= j < |s'.pieces| ensures AimedWell(s'.txns, s'.pieces[j]) {
      assert AimedWell(s.txns, s.pieces[j]);
    }
    forall t, b | 0 <= t < |s'.txns| && !s'.txns[t].phase.Asked? && 0 <= b < Sent(s'.txns[t].req)
      ensures Covered(s'.pieces, t, b)
    {
      assert Covered(s.pieces, t, b);
      var k :| 0 <= k < |s.pieces| && Holds(s.pieces[k], t, b);
      assert Holds(s'.pieces[k], t, b);
    }
  }

  lemma {:induction false} LandKeepsCredit(s: State, i: nat)
    requires Inv(s) && i < |s.pieces| && s.pieces[i].stage.InFlight?
    ensures Credit(Land(s, i))
  {
    var s' := Land(s, i);
    forall o | o in s'.objs
      ensures s'.objs[o].txn < |s'.txns| && Balanced(s', o, s'.objs[o])
    {
      assert Balanced(s, o, s.objs[o]);
      DeliverPending(s.pieces, i, o);
    }
  }

  lemma {:induction false} LandKeepsWords(s: State, i: nat)
    requires Inv(s) && i < |s.pieces| && s.pieces[i].stage.InFlight? && InOrder(s.pieces, s.pieces[i])
    ensures Words(Land(s, i))
  {
    var s' := Land(s, i);
    var p := s.pieces[i];
    if Undelivered(p) {
      MeetsItsObject(s, i);
    }
    assert AimedWell(s.txns, p);
    forall o | o in s'.objs && s'.objs[o].remote.NoPeer?
      ensures s'.objs[o].txn < |s'.txns| && ErrorWord(s'.pieces, s'.txns[s'.objs[o].txn], o, s'.objs[o])
    {
      var t := s.objs[o].txn;
      assert Owned(s.txns, o, s.objs[o]);
      assert ErrorWord(s.pieces, s.txns[t], o, s.objs[o]);
      DeliverPending(s.pieces, i, o);
      if Told(s.pieces, t) {
        var k :| 0 <= k < |s.pieces| && Tells(s.pieces[k], t);
        assert k != i ==> Tells(s'.pieces[k], t);
        assert k == i ==> p.target == o;
      }
    }
  }

  // ----- Steps of the software -----

  /** Nothing on its way is aimed at an object that is not in use. */
  lemma {:induction false} FreeHasNothingPending(s: State, o: Ref)
    requires Inv(s) && o !in s.objs
    ensures Pending(s.pieces, o) == 0
  {
    forall i | 0 <= i < |s.pieces| && Undelivered(s.pieces[i])
      ensures s.pieces[i].target != o
    {
      MeetsItsObject(s, i);
    }
    PendingZeroIff(s.pieces, o);
  }

  lemma {:induction false} SendKeepsObjects(s: State, q: Request, o: Ref)
    requires Inv(s) && Sensible(q) && o !in s.objs
    ensures Owners(Send(s, q, o)) && Roots(Send(s, q, o)) && Credit(Send(s, q, o))
  {
    var s' := Send(s, q, o);
    FreeHasNothingPending(s, o);
    forall r | r in s'.objs
      ensures Owned(s'.txns, r, s'.objs[r]) && Balanced(s', r, s'.objs[r])
    {
      assert r != o ==> Owned(s.txns, r, s.objs[r]) && Balanced(s, r, s.objs[r]);
    }
    forall t | 0 <= t < |s'.txns| ensures Rooted(s'.objs, t, s'.txns[t]) {
      assert t < |s.txns| ==> Rooted(s.objs, t, s.txns[t]);
    }
  }

  lemma {:induction false} SendKeepsPieces(s: State, q: Request, o: Ref)
    requires Inv(s) && Sensible(q) && o !in s.objs
    ensures Aims(Send(s, q, o)) && Words(Send(s, q, o)) && Accounted(Send(s, q, o))
  {
    var s' := Send(s, q, o);
    forall j | 0 <= j < |s'.pieces| ensures AimedWell(s'.txns, s'.pieces[j]) {
      assert AimedWell(s.txns, s.pieces[j]);
    }
    forall r | r in s'.objs && s'.objs[r].remote.NoPeer?
      ensures s'.objs[r].txn < |s'.txns| && ErrorWord(s'.pieces, s'.txns[s'.objs[r].txn], r, s'.objs[r])
    {
      assert r != o ==> ErrorWord(s.pieces, s.txns[s.objs[r].txn], r, s.objs[r]);
    }
  }

  /** What a responder hands over covers everything it sends and is aimed where it should be. */
  ghost predicate Handed(s: State, t: nat, ph: Phase, extra: seq<Piece>)
    requires t < |s.txns|
  {
    && (forall j :: 0 <= j < |extra| ==> AimedWell(s.txns[t := s.txns[t].(phase := ph)], extra[j]))
    && (forall b :: 0 <= b < Sent(s.txns[t].req) ==> Covered(extra, t, b))
  }

  lemma {:induction false} AnswerKeepsPieces(s: State, t: nat, ph: Phase, objs: map<Ref, Obj>, extra: seq<Piece>)
    requires Inv(s) && t < |s.txns| && s.txns[t].phase.Asked? && !ph.Asked? && Handed(s, t, ph, extra)
    ensures Aims(Answered(s, t, ph, objs, extra)) && Accounted(Answered(s, t, ph, objs, extra))
  {
    var s' := Answered(s, t, ph, objs, extra);
    forall j | 0 <= j < |s'.pieces| ensures AimedWell(s'.txns, s'.pieces[j]) {
      assert if j < |s.pieces| then AimedWell(s.txns, s.pieces[j]) else AimedWell(s'.txns, extra[j - |s.pieces|]);
    }
    forall u, b | 0 <= u < |s'.txns| && !s'.txns[u].phase.Asked? && 0 <= b < Sent(s'.txns[u].req)
      ensures Covered(s'.pieces, u, b)
    {
      assert if u == t then Covered(extra, u, b) else Covered(s.pieces, u, b);
      CoveredAppend(s.pieces, extra, u, b);
    }
  }

  lemma {:induction false} ToldAppend(ps: seq<Piece>, extra: seq<Piece>, t: nat)
    requires Told(ps, t) || (extra != [] && Tells(extra[|extra| - 1], t))
    ensures Told(ps + extra, t)
  {
    if Told(ps, t) {
      var k :| 0 <= k < |ps| && Tells(ps[k], t);
      assert Tells((ps + extra)[k], t);
    } else {
      assert Tells((ps + extra)[|ps + extra| - 1], t);
    }
  }

  lemma {:induction false} CutCoversAll(puts: seq<Put>, t: nat, o: Ref, stage: Stage, extra: seq<Piece>)
    ensures forall b :: 0 <= b < PutTotal(puts) ==> Covered(Cut(puts, t, o, 0, 0, stage) + extra, t, b)
  {
    forall b | 0 <= b < PutTotal(puts)
      ensures Covered(Cut(puts, t, o, 0, 0, stage) + extra, t, b)
    {
      CutCovers(puts, t, o, 0, 0, stage, b);
      CoveredAppend(Cut(puts, t, o, 0, 0, stage), extra, t, b);
    }
  }

  lemma {:induction false} DirectAnswerPending(x: Txn, t: nat, o: Ref)
    requires !NeedsObject(x.req)
    ensures Pending(DirectAnswer(x, t), o) ==
            if o == x.origin then Sent(x.req) + (if NeedsStatus(x.req) then WORD else 0) else 0
  {
    var q := x.req;
    var tail := if NeedsStatus(q) then [ErrorPut(t, x.origin, Verdict(q))] else [];
    CutPending(SentPuts(q), t, x.origin, 0, 0, InFlight, o);
    PendingAppend(if q.kind.Write? then Cut(SentPuts(q), t, x.origin, 0, 0, InFlight) else [], tail, o);
    assert tail != [] ==> Pending(tail, o) == Load(tail[0], o) + Pending([], o);
  }

  lemma {:induction false} DirectAnswerHanded(s: State, t: nat)
    requires Inv(s) && t < |s.txns| && s.txns[t].phase.Asked? && !NeedsObject(s.txns[t].req)
    ensures Handed(s, t, Reported, DirectAnswer(s.txns[t], t))
    ensures forall o :: Pending(DirectAnswer(s.txns[t], t), o)
                     == if o == s.txns[t].origin
                       then Sent(s.txns[t].req) + (if NeedsStatus(s.txns[t].req) then WORD else 0) else 0
  {
    var x := s.txns[t];
    var q := x.req;
    var tail := if NeedsStatus(q) then [ErrorPut(t, x.origin, Verdict(q))] else [];
    assert Rooted(s.objs, t, x);
    CutShape(SentPuts(q), t, x.origin, 0, 0, InFlight);
    CutCoversAll(SentPuts(q), t, x.origin, InFlight, tail);
    forall o {
      DirectAnswerPending(x, t, o);
    }
  }

  lemma {:induction false} DirectAnswerKeepsObjects(s: State, t: nat)
    requires Inv(s) && t < |s.txns| && s.txns[t].phase.Asked? && !NeedsObject(s.txns[t].req)
    ensures var s' := Answered(s, t, Reported, s.objs, DirectAnswer(s.txns[t], t));
      Owners(s') && Roots(s') && Credit(s')
  {
    var s' := Answered(s, t, Reported, s.objs, DirectAnswer(s.txns[t], t));
    DirectAnswerHanded(s, t);
    forall r | r in s'.objs
      ensures Owned(s'.txns, r, s'.objs[r]) && Balanced(s', r, s'.objs[r])
    {
      assert Owned(s.txns, r, s.objs[r]) && Balanced(s, r, s.objs[r]);
      PendingAppend(s.pieces, DirectAnswer(s.txns[t], t), r);
      assert Rooted(s.objs, t, s.txns[t]);
    }
    forall u | 0 <= u < |s'.txns| ensures Rooted(s'.objs, u, s'.txns[u]) {
      assert Rooted(s.objs, u, s.txns[u]);
    }
  }

  lemma {:induction false} DirectAnswerKeepsWord(s: State, t: nat, r: Ref, extra: seq<Piece>)
    requires Inv(s) && t < |s.txns| && s.txns[t].phase.Asked? && !NeedsObject(s.txns[t].req)
    requires extra == DirectAnswer(s.txns[t], t) && r in s.objs && s.objs[r].remote.NoPeer?
    ensures s.objs[r].txn < |s.txns|
    ensures var u := s.objs[r].txn;
            var x := if u == t then s.txns[t].(phase := Reported) else s.txns[u];
            ErrorWord(s.pieces + extra, x, r, s.objs[r])
  {
    var u := s.objs[r].txn;
    assert Owned(s.txns, r, s.objs[r]) && ErrorWord(s.pieces, s.txns[u], r, s.objs[r]) && Rooted(s.objs, t, s.txns[t]);
    DirectAnswerHanded(s, t);
    PendingAppend(s.pieces, extra, r);
    if Told(s.pieces, u) || (u == t && NeedsStatus(s.txns[t].req)) {
      ToldAppend(s.pieces, extra, u);
    }
  }

  lemma {:induction false} DirectAnswerKeepsWords(s: State, t: nat)
    requires Inv(s) && t < |s.txns| && s.txns[t].phase.Asked? && !NeedsObject(s.txns[t].req)
    ensures Words(Answered(s, t, Reported, s.objs, DirectAnswer(s.txns[t], t)))
  {
    var extra := DirectAnswer(s.txns[t], t);
    var s' := Answered(s, t, Reported, s.objs, extra);
    forall r | r in s'.objs && s'.objs[r].remote.NoPeer?
      ensures s'.objs[r].txn < |s'.txns| && ErrorWord(s'.pieces, s'.txns[s'.objs[r].txn], r, s'.objs[r])
    {
      DirectAnswerKeepsWord(s, t, r, extra);
    }
  }

  lemma {:induction false} ReadAnswerHanded(s: State, t: nat, o: Ref)
    requires Inv(s) && t < |s.txns| && s.txns[t].phase.Asked? && NeedsObject(s.txns[t].req)
    ensures Handed(s, t, Moving(o), Cut(SentPuts(s.txns[t].req), t, o, 0, 0, Built))
  {
    var puts := SentPuts(s.txns[t].req);
    CutShape(puts, t, o, 0, 0, Built);
    CutCoversAll(puts, t, o, Built, []);
    assert Cut(puts, t, o, 0, 0, Built) + [] == Cut(puts, t, o, 0, 0, Built);
  }

  lemma {:induction false} ReadAnswerKeepsObjects(s: State, t: nat, o: Ref, id: nat)
    requires Inv(s) && t < |s.txns| && s.txns[t].phase.Asked? && NeedsObject(s.txns[t].req) && o !in s.objs
    ensures Owners(ReadAnswered(s, t, o, id)) && Roots(ReadAnswered(s, t, o, id)) && Credit(ReadAnswered(s, t, o, id))
  {
    var s' := ReadAnswered(s, t, o, id);
    var puts := SentPuts(s.txns[t].req);
    FreeHasNothingPending(s, o);
    assert Rooted(s.objs, t, s.txns[t]);
    forall r | r in s'.objs
      ensures Owned(s'.txns, r, s'.objs[r]) && Balanced(s', r, s'.objs[r])
    {
      assert r != o ==> Owned(s.txns, r, s.objs[r]) && Balanced(s, r, s.objs[r]);
      PendingAppend(s.pieces, Cut(puts, t, o, 0, 0, Built), r);
      CutPending(puts, t, o, 0, 0, Built, r);
    }
    forall u | 0 <= u < |s'.txns| ensures Rooted(s'.objs, u, s'.txns[u]) {
      assert Rooted(s.objs, u, s.txns[u]);
    }
  }

  lemma {:induction false} ReadAnswerKeepsWords(s: State, t: nat, o: Ref, id: nat)
    requires Inv(s) && t < |s.txns| && s.txns[t].phase.Asked? && NeedsObject(s.txns[t].req) && o !in s.objs
    ensures Words(ReadAnswered(s, t, o, id))
  {
    var s' := ReadAnswered(s, t, o, id);
    var extra := Cut(SentPuts(s.txns[t].req), t, o, 0, 0, Built);
    forall r | r in s'.objs && s'.objs[r].remote.NoPeer?
      ensures s'.objs[r].txn < |s'.txns| && ErrorWord(s'.pieces, s'.txns[s'.objs[r].txn], r, s'.objs[r])
    {
      var u := s.objs[r].txn;
      assert r != o && Owned(s.txns, r, s.objs[r]) && ErrorWord(s.pieces, s.txns[u], r, s.objs[r]);
      PendingAppend(s.pieces, extra, r);
      CutPending(SentPuts(s.txns[t].req), t, o, 0, 0, Built, r);
      if Told(s.pieces, u) {
        ToldAppend(s.pieces, extra, u);
      }
    }
  }

  lemma {:induction false} AnswerKeeps(s: State, t: nat, o: Ref, id: nat)
    requires Inv(s) && t < |s.txns| && s.txns[t].phase.Asked? && o !in s.objs
    ensures Inv(AnswerWith(s, t, o, id))
  {
    var x := s.txns[t];
    if NeedsObject(x.req) {
      ReadAnswerHanded(s, t, o);
      AnswerKeepsPieces(s, t, Moving(o), ReadAnswered(s, t, o, id).objs, Cut(SentPuts(x.req), t, o, 0, 0, Built));
      ReadAnswerKeepsObjects(s, t, o, id);
      ReadAnswerKeepsWords(s, t, o, id);
    } else {
      DirectAnswerHanded(s, t);
      AnswerKeepsPieces(s, t, Reported, s.objs, DirectAnswer(x, t));
      DirectAnswerKeepsObjects(s, t);
      DirectAnswerKeepsWords(s, t);
    }
  }

  // ----- Releasing an object -----

  /** A watched object is done, and this is the status to tell. */
  predicate Done(s: State, o: Ref, status: int) {
    Watched(s, o) && status == if s.objs[o].polled then s.objs[o].error else EINVAL
  }

  lemma {:induction false} ResponderDone(s: State, o: Ref, status: int)
    requires Inv(s) && Done(s, o, status) && s.objs[o].remote.Peer?
    ensures Pending(s.pieces, o) == 0 && status == Verdict(s.txns[s.objs[o].txn].req)
  {
    var ob := s.objs[o];
    var x := s.txns[ob.txn];
    assert Owned(s.txns, o, ob) && Rooted(s.objs, ob.txn, x) && Balanced(s, o, ob);
    if Verdict(x.req) == 0 {
      SuccessSendsAll(x.req);
    } else {
      WaitCoversUnsent(x.req);
    }
  }

  lemma {:induction false} OriginDone(s: State, o: Ref)
    requires Inv(s) && o in s.objs && s.objs[o].remote.NoPeer? && s.objs[o].counter == 0 && s.objs[o].error == 0
    ensures Pending(s.pieces, o) == 0 && s.txns[s.objs[o].txn].phase.Reported?
      && Verdict(s.txns[s.objs[o].txn].req) == 0
  {
    var ob := s.objs[o];
    var x := s.txns[ob.txn];
    assert Owned(s.txns, o, ob) && Rooted(s.objs, ob.txn, x) && Balanced(s, o, ob) && ErrorWord(s.pieces, x, o, ob);
    if Verdict(x.req) == 0 {
      SuccessSendsAll(x.req);
    } else if x.phase.Reported? {
      var k :| 0 <= k < |s.pieces| && Tells(s.pieces[k], ob.txn);
      assert AimedWell(s.txns, s.pieces[k]);
      PendingAtLeast(s.pieces, k, o);
      if x.req.kind.Write? {
        FailedWriteFallsShort(x.req);
      }
    }
  }

  /** An object is found done only when nothing is on its way to it any more; its status is the verdict on the
      request. */
  lemma {:induction false} DoneMeansDelivered(s: State, o: Ref, status: int)
    requires Inv(s) && Done(s, o, status)
    ensures Pending(s.pieces, o) == 0 && status == Verdict(s.txns[s.objs[o].txn].req)
    ensures s.objs[o].remote.NoPeer? ==> s.txns[s.objs[o].txn].phase.Reported?
  {
    var ob := s.objs[o];
    assert Owned(s.txns, o, ob);
    if ob.remote.Peer? {
      ResponderDone(s, o, status);
    } else if ob.error == 0 {
      OriginDone(s, o);
    } else {
      assert ErrorWord(s.pieces, s.txns[ob.txn], o, ob);
    }
  }

  lemma {:induction false} OriginReleaseKeepsRoots(s: State, o: Ref, status: int, report: bool)
    requires Inv(s) && Done(s, o, status) && s.objs[o].remote.NoPeer?
    ensures Roots(Release(s, o, status, report))
  {
    var s' := Release(s, o, status, report);
    DoneMeansDelivered(s, o, status);
    assert Owned(s.txns, o, s.objs[o]);
    forall u | 0 <= u < |s'.txns| ensures Rooted(s'.objs, u, s'.txns[u]) {
      assert Rooted(s.objs, u, s.txns[u]);
    }
  }

  lemma {:induction false} OriginReleaseKeepsObjects(s: State, o: Ref, status: int, report: bool)
    requires Inv(s) && Done(s, o, status) && s.objs[o].remote.NoPeer?
    ensures var s' := Release(s, o, status, report); Owners(s') && Credit(s') && Words(s')
  {
    var s' := Release(s, o, status, report);
    DoneMeansDelivered(s, o, status);
    assert Owned(s.txns, o, s.objs[o]);
    forall r | r in s'.objs
      ensures Owned(s'.txns, r, s'.objs[r]) && Balanced(s', r, s'.objs[r])
      ensures s'.objs[r].remote.NoPeer? ==> ErrorWord(s'.pieces, s'.txns[s'.objs[r].txn], r, s'.objs[r])
    {
      assert Owned(s.txns, r, s.objs[r]) && Balanced(s, r, s.objs[r]);
      assert s.objs[r].remote.NoPeer? ==> ErrorWord(s.pieces, s.txns[s.objs[r].txn], r, s.objs[r]);
    }
  }

  lemma {:induction false} OriginReleaseKeepsPieces(s: State, o: Ref, status: int, report: bool)
    requires Inv(s) && Done(s, o, status) && s.objs[o].remote.NoPeer?
    ensures var s' := Release(s, o, status, report); Aims(s') && Accounted(s')
  {
    var s' := Release(s, o, status, report);
    DoneMeansDelivered(s, o, status);
    PendingZeroIff(s.pieces, o);
    assert Owned(s.txns, o, s.objs[o]);
    forall j | 0 <= j < |s'.pieces| ensures AimedWell(s'.txns, s'.pieces[j]) {
      assert AimedWell(s.txns, s.pieces[j]);
    }
    forall u, b | 0 <= u < |s'.txns| && !s'.txns[u].phase.Asked? && 0 <= b < Sent(s'.txns[u].req)
      ensures Covered(s'.pieces, u, b)
    {
      assert Covered(s.pieces, u, b);
    }
  }

  lemma {:induction false} OnePending(p: Piece, o: Ref)
    ensures Pending([p], o) == Load(p, o)
  {
    assert Pending([p], o) == Load(p, o) + Pending([], o);
  }

  lemma {:induction false} ResponderReleaseKeepsOwners(s: State, o: Ref, status: int, report: bool)
    requires Inv(s) && Done(s, o, status) && s.objs[o].remote.Peer?
    ensures Owners(Release(s, o, status, report))
  {
    var s' := Release(s, o, status, report);
    assert Owned(s.txns, o, s.objs[o]);
    forall r | r in s'.objs ensures Owned(s'.txns, r, s'.objs[r]) {
      assert Owned(s.txns, r, s.objs[r]);
    }
  }

  /** Removing an object that neither end of a request uses leaves the request rooted. */
  lemma {:induction false} RootedWithout(objs: map<Ref, Obj>, t: nat, x: Txn, o: Ref)
    requires Rooted(objs, t, x) && (!x.closed ==> x.origin != o) && x.phase != Moving(o)
    ensures Rooted(objs - {o}, t, x)
  {
  }

  lemma {:induction false} ResponderReleaseKeepsRoots(s: State, o: Ref, status: int, report: bool)
    requires Inv(s) && Done(s, o, status) && s.objs[o].remote.Peer?
    ensures Roots(Release(s, o, status, report))
  {
    var s' := Release(s, o, status, report);
    var ob := s.objs[o];
    assert Owned(s.txns, o, ob);
    forall u | 0 <= u < |s'.txns| ensures Rooted(s'.objs, u, s'.txns[u]) {
      assert Rooted(s.objs, u, s.txns[u]);
      assert Rooted(s.objs, u, s'.txns[u]);
      RootedWithout(s.objs, u, s'.txns[u], o);
    }
  }

  lemma {:induction false} ResponderReleaseKeepsCredit(s: State, o: Ref, status: int, report: bool)
    requires Inv(s) && Done(s, o, status) && s.objs[o].remote.Peer?
    ensures Credit(Release(s, o, status, report))
  {
    var s' := Release(s, o, status, report);
    var ob := s.objs[o];
    var put := ErrorPut(ob.txn, ob.remote.ref, status);
    assert Owned(s.txns, o, ob) && Rooted(s.objs, ob.txn, s.txns[ob.txn]);
    forall r | r in s'.objs
      ensures s'.objs[r].txn < |s'.txns| && Balanced(s', r, s'.objs[r])
    {
      assert Owned(s.txns, r, s.objs[r]) && Balanced(s, r, s.objs[r]);
      PendingAppend(s.pieces, [put], r);
      OnePending(put, r);
    }
  }

  lemma {:induction false} ResponderReleaseKeepsPieces(s: State, o: Ref, status: int, report: bool)
    requires Inv(s) && Done(s, o, status) && s.objs[o].remote.Peer?
    ensures var s' := Release(s, o, status, report); Aims(s') && Accounted(s')
  {
    var s' := Release(s, o, status, report);
    var ob := s.objs[o];
    DoneMeansDelivered(s, o, status);
    PendingZeroIff(s.pieces, o);
    assert Owned(s.txns, o, ob) && Rooted(s.objs, ob.txn, s.txns[ob.txn]);
    forall j | 0 <= j < |s'.pieces| ensures AimedWell(s'.txns, s'.pieces[j]) {
      assert j < |s.pieces| ==> AimedWell(s.txns, s.pieces[j]);
    }
    forall u, b | 0 <= u < |s'.txns| && !s'.txns[u].phase.Asked? && 0 <= b < Sent(s'.txns[u].req)
      ensures Covered(s'.pieces, u, b)
    {
      assert Covered(s.pieces, u, b);
      CoveredAppend(s.pieces, [ErrorPut(ob.txn, ob.remote.ref, status)], u, b);
    }
  }

  lemma {:induction false} ResponderReleaseKeepsWords(s: State, o: Ref, status: int, report: bool)
    requires Inv(s) && Done(s, o, status) && s.objs[o].remote.Peer?
    ensures Words(Release(s, o, status, report))
  {
    var s' := Release(s, o, status, report);
    var ob := s.objs[o];
    var put := ErrorPut(ob.txn, ob.remote.ref, status);
    assert Owned(s.txns, o, ob) && Rooted(s.objs, ob.txn, s.txns[ob.txn]);
    forall r | r in s'.objs && s'.objs[r].remote.NoPeer?
      ensures s'.objs[r].txn < |s'.txns| && ErrorWord(s'.pieces, s'.txns[s'.objs[r].txn], r, s'.objs[r])
    {
      var u := s.objs[r].txn;
      assert Owned(s.txns, r, s.objs[r]) && ErrorWord(s.pieces, s.txns[u], r, s.objs[r]);
      PendingAppend(s.pieces, [put], r);
      OnePending(put, r);
      if Told(s.pieces, u) || u == ob.txn {
        ToldAppend(s.pieces, [put], u);
      }
    }
  }

  lemma {:induction false} ReleaseKeeps(s: State, o: Ref, status: int, report: bool)
    requires Inv(s) && Done(s, o, status)
    ensures Inv(Release(s, o, status, report))
  {
    if s.objs[o].remote.NoPeer? {
      OriginReleaseKeepsRoots(s, o, status, report);
      OriginReleaseKeepsObjects(s, o, status, report);
      OriginReleaseKeepsPieces(s, o, status, report);
    } else {
      ResponderReleaseKeepsOwners(s, o, status, report);
      ResponderReleaseKeepsRoots(s, o, status, report);
      ResponderReleaseKeepsCredit(s, o, status, report);
      ResponderReleaseKeepsPieces(s, o, status, report);
      ResponderReleaseKeepsWords(s, o, status, report);
    }
  }

  /** Every step keeps the accounts. */
  lemma {:induction false} StepKeeps(s: State, step: Step)
    requires Inv(s) && Enabled(s, step)
    ensures Inv(Apply(s, step))
  {
    match step {
      case Originate(q, o) =>
        SendKeepsObjects(s, q, o);
        SendKeepsPieces(s, q, o);
      case Answer(t, o, id) => AnswerKeeps(s, t, o, id);
      case SendBundle(i) => MoveKeeps(s, i, Built, InMessage);
      case Replay(i) => MoveKeeps(s, i, InMessage, InFlight);
      case Split(i, k) => SplitKeeps(s, i, k);
      case Deliver(i) =>
        LandKeepsObjects(s, i);
        LandKeepsPieces(s, i);
        LandKeepsCredit(s, i);
        LandKeepsWords(s, i);
      case Poll(o) => ReleaseKeeps(s, o, s.objs[o].error, s.objs[o].id != 0);
      case SpinOut(o) => ReleaseKeeps(s, o, EINVAL, false);
    }
  }

  // ----- Status callbacks -----

  /** A callback is for a request that is over, and reports the verdict on it. */
  predicate Truthful(txns: seq<Txn>, c: Callback) {
    && c.txn < |txns|
    && txns[c.txn].phase.Reported?
    && c.status == Verdict(txns[c.txn].req)
    && c.id != 0
    && (if c.atOrigin then txns[c.txn].closed && c.id == txns[c.txn].req.id
       else txns[c.txn].req.kind.Read? && c.status == 0)
  }

  predicate SameCall(c: Callback, d: Callback) {
    c.txn == d.txn && c.atOrigin == d.atOrigin
  }

  /** No requester is ever called twice for the same request. */
  predicate Once(log: seq<Callback>) {
    forall i, j :: 0 <= i < j < |log| ==> !SameCall(log[i], log[j])
  }

  ghost predicate Called(log: seq<Callback>, t: nat) {
    exists k :: 0 <= k < |log| && log[k].txn == t && log[k].atOrigin
  }

  /** Every closed request whose requester asked for it has been reported. */
  ghost predicate Complete(s: State) {
    forall t :: 0 <= t < |s.txns| && s.txns[t].closed && s.txns[t].req.id != 0 ==> Called(s.log, t)
  }

  ghost predicate LogInv(s: State) {
    && (forall i :: 0 <= i < |s.log| ==> Truthful(s.txns, s.log[i]))
    && Once(s.log)
    && Complete(s)
  }

  /** Requests only ever move forward. */
  predicate Forward(x: Txn, y: Txn) {
    y.req == x.req && (x.phase.Reported? ==> y.phase.Reported?) && (x.closed ==> y.closed)
  }

  /** Steps that call nobody and close nothing leave the log true. */
  lemma {:induction false} QuietKeepsLog(s: State, s': State)
    requires LogInv(s) && s'.log == s.log && |s'.txns| >= |s.txns|
    requires forall t :: 0 <= t < |s.txns| ==> Forward(s.txns[t], s'.txns[t])
    requires forall t :: 0 <= t < |s'.txns| && s'.txns[t].closed ==> t < |s.txns| && s.txns[t].closed
    ensures LogInv(s')
  {
    forall i | 0 <= i < |s'.log| ensures Truthful(s'.txns, s'.log[i]) {
      assert Truthful(s.txns, s.log[i]);
      assert Forward(s.txns[s.log[i].txn], s'.txns[s.log[i].txn]);
    }
    forall t | 0 <= t < |s'.txns| && s'.txns[t].closed && s'.txns[t].req.id != 0 ensures Called(s'.log, t) {
      assert Forward(s.txns[t], s'.txns[t]);
      assert Called(s.log, t);
    }
  }

  lemma {:induction false} ReleaseCallsOnce(s: State, o: Ref, status: int, report: bool)
    requires Inv(s) && LogInv(s) && Done(s, o, status) && (report ==> status == s.objs[o].error && s.objs[o].id != 0)
    ensures var s' := Release(s, o, status, report);
            (forall i :: 0 <= i < |s'.log| ==> Truthful(s'.txns, s'.log[i])) && Once(s'.log)
  {
    var s' := Release(s, o, status, report);
    var ob := s.objs[o];
    DoneMeansDelivered(s, o, status);
    assert Owned(s.txns, o, ob);
    forall i | 0 <= i < |s.log|
      ensures Truthful(s'.txns, s.log[i]) && !SameCall(s.log[i], Callback(ob.txn, ob.remote.NoPeer?, ob.id, ob.error))
    {
      assert Truthful(s.txns, s.log[i]);
    }
  }

  lemma {:induction false} ReleaseCalls(s: State, o: Ref, status: int, report: bool)
    requires Inv(s) && LogInv(s) && Done(s, o, status) && (report <==> s.objs[o].polled && s.objs[o].id != 0)
    ensures Complete(Release(s, o, status, report))
  {
    var s' := Release(s, o, status, report);
    var ob := s.objs[o];
    assert Owned(s.txns, o, ob);
    forall t | 0 <= t < |s'.txns| && s'.txns[t].closed && s'.txns[t].req.id != 0
      ensures Called(s'.log, t)
    {
      if t == ob.txn && ob.remote.NoPeer? {
        assert s'.log[|s'.log| - 1].txn == t;
      } else {
        assert Called(s.log, t);
        var k :| 0 <= k < |s.log| && s.log[k].txn == t && s.log[k].atOrigin;
        assert s'.log[k] == s.log[k];
      }
    }
  }

  /** All steps but those that release an object. */
  lemma {:induction false} QuietStep(s: State, step: Step)
    requires Inv(s) && LogInv(s) && Enabled(s, step) && !step.Poll? && !step.SpinOut?
    ensures LogInv(Apply(s, step))
  {
    var s' := Apply(s, step);
    assert s'.log == s.log;
    QuietKeepsLog(s, s');
  }

  lemma {:induction false} StepKeepsLog(s: State, step: Step)
    requires Inv(s) && LogInv(s) && Enabled(s, step)
    ensures LogInv(Apply(s, step))
  {
    if step.Poll? || step.SpinOut? {
      var o := step.o;
      var status, report := if step.Poll? then s.objs[o].error else EINVAL, step.Poll? && s.objs[o].id != 0;
      ReleaseCallsOnce(s, o, status, report);
      ReleaseCalls(s, o, status, report);
    } else {
      QuietStep(s, step);
    }
  }
}
