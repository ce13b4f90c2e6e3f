/** What holds over every run of the remote-request protocol. */
module RdmaSafety {
  import opened ScatterGather
  import opened RdmaWalk
  import opened RdmaTransfer
  import opened RdmaPlan
  import opened RdmaPieces
  import opened RdmaProtocol

  lemma {:induction false} RunKeeps(steps: seq<Step>, s: State)
    requires Runs(steps, s) && Inv(s) && LogInv(s)
    ensures Inv(After(steps, s)) && LogInv(After(steps, s))
    decreases |steps|
  {
    if steps != [] {
      StepKeeps(s, steps[0]);
      StepKeepsLog(s, steps[0]);
      RunKeeps(steps[1..], Apply(s, steps[0]));
    }
  }

  lemma {:induction false} Reachable(steps: seq<Step>)
    requires Runs(steps, INIT)
    ensures Inv(After(steps, INIT)) && LogInv(After(steps, INIT))
  {
    RunKeeps(steps, INIT);
  }

  function MadeBy(step: Step): seq<(Request, Ref)> {
    if step.Originate? then [(step.q, step.o)] else []
  }

  /** The requests made by the steps of a run, in order, each with the object its originator gave. */
  function Made(steps: seq<Step>): seq<(Request, Ref)> {
    if steps == [] then [] else MadeBy(steps[0]) + Made(steps[1..])
  }

  function RequestsOf(txns: seq<Txn>): (r: seq<(Request, Ref)>)
    ensures |r| == |txns| && forall t :: 0 <= t < |txns| ==> r[t] == (txns[t].req, txns[t].origin)
  {
    seq(|txns|, t requires 0 <= t < |txns| => (txns[t].req, txns[t].origin))
  }

  lemma {:induction false} StepRecords(s: State, step: Step)
    requires Enabled(s, step)
    ensures RequestsOf(Apply(s, step).txns) == RequestsOf(s.txns) + MadeBy(step)
  {
    var txns := Apply(s, step).txns;
    assert |txns| == |s.txns| + |MadeBy(step)|;
    forall t | 0 <= t < |txns| ensures RequestsOf(txns)[t] == (RequestsOf(s.txns) + MadeBy(step))[t] {
      assert t < |s.txns| ==> txns[t].req == s.txns[t].req && txns[t].origin == s.txns[t].origin;
    }
  }

  lemma {:induction false} RunRecords(steps: seq<Step>, s: State)
    requires Runs(steps, s)
    ensures RequestsOf(After(steps, s).txns) == RequestsOf(s.txns) + Made(steps)
    decreases |steps|
  {
    var before := RequestsOf(s.txns);
    if steps == [] {
      assert before + [] == before;
    } else {
      StepRecords(s, steps[0]);
      RunRecords(steps[1..], Apply(s, steps[0]));
      Associates(before, MadeBy(steps[0]), Made(steps[1..]));
    }
  }

  /** Over every run, request `t` of the state is the one its `t`-th new request asked for. */
  lemma {:induction false} RequestsAreThoseMade(steps: seq<Step>, s: State)
    requires Runs(steps, INIT) && s == After(steps, INIT)
    ensures |s.txns| == |Made(steps)|
    ensures forall t :: 0 <= t < |s.txns| ==> (s.txns[t].req, s.txns[t].origin) == Made(steps)[t]
  {
    RunRecords(steps, INIT);
    assert RequestsOf(INIT.txns) + Made(steps) == Made(steps);
    forall t | 0 <= t < |s.txns| ensures (s.txns[t].req, s.txns[t].origin) == Made(steps)[t] {
      assert RequestsOf(s.txns)[t] == Made(steps)[t];
    }
  }

  /** Credit conservation, over every run: each counter in use is what is on its way to it plus what is still owed
      to it. */
  lemma {:induction false} CreditConserved(steps: seq<Step>, s: State, o: Ref)
    requires Runs(steps, INIT) && s == After(steps, INIT) && o in s.objs
    ensures s.objs[o].txn < |s.txns|
    ensures s.objs[o].counter == Pending(s.pieces, o) + Owed(s.txns[s.objs[o].txn], s.objs[o].remote.Peer?)
  {
    Reachable(steps);
    assert Balanced(s, o, s.objs[o]);
  }

  /** Over every run, what is still to be delivered is aimed at an object in use, and for its own request. */
  lemma {:induction false} NothingHitsAFreedObject(steps: seq<Step>, s: State, i: nat)
    requires Runs(steps, INIT) && s == After(steps, INIT) && i < |s.pieces| && Undelivered(s.pieces[i])
    ensures s.pieces[i].target in s.objs && s.objs[s.pieces[i].target].txn == s.pieces[i].txn
  {
    Reachable(steps);
    MeetsItsObject(s, i);
  }

  /** Byte `i` of a transfer has reached its destination. */
  ghost predicate Arrived(s: State, t: nat, i: nat) {
    exists k :: 0 <= k < |s.pieces| && s.pieces[k].stage.Landed? && Holds(s.pieces[k], t, i)
  }

  lemma {:induction false} DeliveredMeansArrived(s: State, t: nat)
    requires Inv(s) && t < |s.txns| && !s.txns[t].phase.Asked?
    requires forall k :: 0 <= k < |s.pieces| && s.pieces[k].txn == t && s.pieces[k].cargo.Data? ==>
      !Undelivered(s.pieces[k])
    ensures forall i :: 0 <= i < Sent(s.txns[t].req) ==> Arrived(s, t, i)
  {
    forall i | 0 <= i < Sent(s.txns[t].req)
      ensures Arrived(s, t, i)
    {
      assert Covered(s.pieces, t, i);
      var k :| 0 <= k < |s.pieces| && Holds(s.pieces[k], t, i);
      assert !Undelivered(s.pieces[k]);
    }
  }

  /** The counter of a read's responder is zero exactly when nothing aimed at it is undelivered and both lists cover the
      request; and then every byte of the request has arrived. */
  lemma {:induction false} ZeroWhenAllArrived(steps: seq<Step>, s: State, o: Ref)
    requires Runs(steps, INIT) && s == After(steps, INIT) && o in s.objs && s.objs[o].remote.Peer?
    ensures s.objs[o].txn < |s.txns|
    ensures var q := s.txns[s.objs[o].txn].req;
            s.objs[o].counter == 0
            <==> && (forall k :: 0 <= k < |s.pieces| && Undelivered(s.pieces[k]) ==> s.pieces[k].target != o)
                 && q.n <= Total(q.src) && q.n <= Total(q.dst)
    ensures s.objs[o].counter == 0 ==> forall i :: 0 <= i < s.txns[s.objs[o].txn].req.n ==> Arrived(s, s.objs[o].txn, i)
  {
    Reachable(steps);
    var t := s.objs[o].txn;
    assert Owned(s.txns, o, s.objs[o]) && Rooted(s.objs, t, s.txns[t]) && Balanced(s, o, s.objs[o]);
    SendsAllIff(s.txns[t].req);
    PendingZeroIff(s.pieces, o);
    if s.objs[o].counter == 0 {
      forall k | 0 <= k < |s.pieces| && s.pieces[k].txn == t && s.pieces[k].cargo.Data?
        ensures !Undelivered(s.pieces[k])
      {
        assert AimedWell(s.txns, s.pieces[k]);
      }
      DeliveredMeansArrived(s, t);
    }
  }

  lemma {:induction false} CalledMeansDelivered(s: State, c: Callback)
    requires Inv(s) && Truthful(s.txns, c)
    ensures forall i :: 0 <= i < Sent(s.txns[c.txn].req) ==> Arrived(s, c.txn, i)
  {
    forall k | 0 <= k < |s.pieces| && s.pieces[k].txn == c.txn && s.pieces[k].cargo.Data?
      ensures !Undelivered(s.pieces[k])
    {
      assert AimedWell(s.txns, s.pieces[k]);
    }
    DeliveredMeansArrived(s, c.txn);
  }

  /** Completion safety, over every run: a requester, at either end, is told "success" exactly when both lists cover
      the request and it ends at an element boundary, and by then every byte of the one list has been put to the
      same byte of the other. */
  lemma {:induction false} CallbackIsTrue(steps: seq<Step>, s: State, c: Callback)
    requires Runs(steps, INIT) && s == After(steps, INIT) && c in s.log
    ensures c.txn < |s.txns| == |Made(steps)|
    ensures s.txns[c.txn].req == Made(steps)[c.txn].0 && (c.atOrigin ==> c.id == Made(steps)[c.txn].0.id)
    ensures var q := Made(steps)[c.txn].0;
            && (c.status == 0 <==>
                 q.n <= Total(q.src) && q.n <= Total(q.dst) && (Boundary(q.src, q.n) || Boundary(q.dst, q.n)))
            && (c.status == 0 ==> Copies(SentPuts(q), Flatten(q.src), Flatten(q.dst), q.n)
                                  && forall i :: 0 <= i < q.n ==> Arrived(s, c.txn, i))
  {
    Reachable(steps);
    RequestsAreThoseMade(steps, s);
    var j :| 0 <= j < |s.log| && s.log[j] == c;
    assert Truthful(s.txns, c) && Rooted(s.objs, c.txn, s.txns[c.txn]);
    VerdictIff(s.txns[c.txn].req);
    CalledMeansDelivered(s, c);
    if c.status == 0 {
      SuccessSendsAll(s.txns[c.txn].req);
    }
  }

  /** Over every run, no requester is called twice for a request, and an originator is called exactly when its request
      is closed and it gave an identifier. */
  lemma {:induction false} CalledExactlyOnce(steps: seq<Step>, s: State, t: nat)
    requires Runs(steps, INIT) && s == After(steps, INIT) && t < |s.txns|
    ensures t < |Made(steps)| && (Called(s.log, t) <==> s.txns[t].closed && Made(steps)[t].0.id != 0)
    ensures forall i, j :: 0 <= i < |s.log| && 0 <= j < |s.log| && SameCall(s.log[i], s.log[j]) ==> i == j
  {
    Reachable(steps);
    RequestsAreThoseMade(steps, s);
    if Called(s.log, t) {
      var k :| 0 <= k < |s.log| && s.log[k].txn == t && s.log[k].atOrigin;
      assert Truthful(s.txns, s.log[k]);
    }
  }

  // ----- Nothing hangs, except a short read that never sends some bytes -----

  /** At most one error word is on its way for a request. */
  predicate OneStatus(ps: seq<Piece>) {
    forall i, j :: 0 <= i < j < |ps| && Tells(ps[i], ps[i].txn) ==> !Tells(ps[j], ps[i].txn)
  }

  predicate NoStatus(ps: seq<Piece>, t: nat) {
    forall i :: 0 <= i < |ps| ==> !Tells(ps[i], t)
  }

  lemma {:induction false} OneStatusAppend(ps: seq<Piece>, extra: seq<Piece>, t: nat)
    requires OneStatus(ps) && NoStatus(ps, t) && OneStatus(extra) && forall i :: 0 <= i < |extra| ==> extra[i].txn == t
    ensures OneStatus(ps + extra)
  {
    var all := ps + extra;
    forall i, j | 0 <= i < j < |all| && Tells(all[i], all[i].txn)
      ensures !Tells(all[j], all[i].txn)
    {
      if j >= |ps| {
        assert all[j] == extra[j - |ps|];
      }
      if i < |ps| {
        assert !Tells(ps[i], t);
      } else {
        assert all[i] == extra[i - |ps|];
      }
    }
  }

  /** Before the responder is done no error word has been sent. */
  lemma {:induction false} UnreportedHasNoStatus(s: State, t: nat)
    requires Inv(s) && t < |s.txns| && !s.txns[t].phase.Reported?
    ensures NoStatus(s.pieces, t)
  {
    forall i | 0 <= i < |s.pieces| ensures !Tells(s.pieces[i], t) {
      assert AimedWell(s.txns, s.pieces[i]);
    }
  }

  lemma {:induction false} AnswerKeepsOneStatus(s: State, t: nat, o: Ref, id: nat)
    requires Inv(s) && OneStatus(s.pieces) && t < |s.txns| && s.txns[t].phase.Asked?
    ensures OneStatus(AnswerWith(s, t, o, id).pieces)
  {
    var x := s.txns[t];
    UnreportedHasNoStatus(s, t);
    if NeedsObject(x.req) {
      CutShape(SentPuts(x.req), t, o, 0, 0, Built);
      OneStatusAppend(s.pieces, Cut(SentPuts(x.req), t, o, 0, 0, Built), t);
    } else {
      DirectAnswerHasOneStatus(x, t);
      OneStatusAppend(s.pieces, DirectAnswer(x, t), t);
    }
  }

  lemma {:induction false} DirectAnswerHasOneStatus(x: Txn, t: nat)
    ensures OneStatus(DirectAnswer(x, t)) && forall i :: 0 <= i < |DirectAnswer(x, t)| ==>
      DirectAnswer(x, t)[i].txn == t
  {
    CutShape(SentPuts(x.req), t, x.origin, 0, 0, InFlight);
  }

  lemma {:induction false} ReleaseKeepsOneStatus(s: State, o: Ref, status: int, report: bool)
    requires Inv(s) && OneStatus(s.pieces) && Done(s, o, status)
    ensures OneStatus(Release(s, o, status, report).pieces)
  {
    var ob := s.objs[o];
    assert Owned(s.txns, o, ob);
    if ob.remote.Peer? {
      UnreportedHasNoStatus(s, ob.txn);
      OneStatusAppend(s.pieces, [ErrorPut(ob.txn, ob.remote.ref, status)], ob.txn);
    }
  }

  lemma {:induction false} MoveKeepsOneStatus(ps: seq<Piece>, qs: seq<Piece>)
    requires OneStatus(ps) && |qs| == |ps| && forall i :: 0 <= i < |ps| ==> Restaged(ps[i], qs[i])
    ensures OneStatus(qs)
  {
    forall i, j | 0 <= i < j < |qs| && Tells(qs[i], qs[i].txn)
      ensures !Tells(qs[j], qs[i].txn)
    {
      assert Restaged(ps[i], qs[i]) && Restaged(ps[j], qs[j]);
      assert Tells(ps[i], ps[i].txn);
    }
  }

  lemma {:induction false} StepKeepsOneStatus(s: State, step: Step)
    requires Inv(s) && OneStatus(s.pieces) && Enabled(s, step)
    ensures OneStatus(Apply(s, step).pieces)
  {
    var qs := Apply(s, step).pieces;
    match step {
      case Originate(_, _) =>
      case Answer(t, o, id) => AnswerKeepsOneStatus(s, t, o, id);
      case SendBundle(_) => MoveKeepsOneStatus(s.pieces, qs);
      case Replay(_) => MoveKeepsOneStatus(s.pieces, qs);
      case Split(i, k) =>
        assert !Tells(qs[|qs| - 1], qs[|qs| - 1].txn);
      case Deliver(i) =>
      case Poll(o) => ReleaseKeepsOneStatus(s, o, s.objs[o].error, s.objs[o].id != 0);
      case SpinOut(o) => ReleaseKeepsOneStatus(s, o, EINVAL, false);
    }
  }

  lemma {:induction false} RunKeepsOneStatus(steps: seq<Step>, s: State)
    requires Runs(steps, s) && Inv(s) && OneStatus(s.pieces)
    ensures OneStatus(After(steps, s).pieces)
    decreases |steps|
  {
    if steps != [] {
      StepKeeps(s, steps[0]);
      StepKeepsOneStatus(s, steps[0]);
      RunKeepsOneStatus(steps[1..], Apply(s, steps[0]));
    }
  }

  predicate AtRest(ps: seq<Piece>, p: Piece) {
    p.stage.Landed? || (p.stage.InFlight? && !InOrder(ps, p))
  }

  /** Every request has been answered, and neither the network nor a watcher of objects has anything left to do. */
  predicate Quiet(s: State) {
    && (forall t :: 0 <= t < |s.txns| ==> !s.txns[t].phase.Asked?)
    && (forall i :: 0 <= i < |s.pieces| ==> AtRest(s.pieces, s.pieces[i]))
    && (forall o :: o in s.objs ==> !Watched(s, o))
  }

  lemma {:induction false} OnlyLoad(ps: seq<Piece>, i: nat, o: Ref)
    requires i < |ps| && ps[i].target == o && forall j :: 0 <= j < |ps| && j != i && Undelivered(ps[j]) ==>
      ps[j].target != o
    ensures Pending(ps, o) == Load(ps[i], o)
  {
    var landed := ps[i].(stage := Landed);
    PendingUpdate(ps, i, landed, o);
    PendingZeroIff(ps[i := landed], o);
  }

  lemma {:induction false} QuietHasDelivered(s: State, i: nat)
    requires Inv(s) && OneStatus(s.pieces) && Quiet(s) && i < |s.pieces|
    ensures !Undelivered(s.pieces[i])
  {
    var p := s.pieces[i];
    assert AtRest(s.pieces, p);
    if Undelivered(p) {
      MeetsItsObject(s, i);
      forall j | 0 <= j < |s.pieces| && j != i && Undelivered(s.pieces[j])
        ensures s.pieces[j].target != p.target
      {
        assert AtRest(s.pieces, s.pieces[j]);
        MeetsItsObject(s, j);
        assert Tells(p, p.txn) && Tells(s.pieces[j], s.pieces[j].txn);
      }
      OnlyLoad(s.pieces, i, p.target);
    }
  }

  lemma {:induction false} QuietHasNothingPending(s: State, o: Ref)
    requires Inv(s) && OneStatus(s.pieces) && Quiet(s)
    ensures Pending(s.pieces, o) == 0
    ensures forall t :: !Told(s.pieces, t)
  {
    forall i | 0 <= i < |s.pieces| ensures !Undelivered(s.pieces[i]) {
      QuietHasDelivered(s, i);
    }
    PendingZeroIff(s.pieces, o);
  }

  lemma {:induction false} QuietRead(s: State, t: nat)
    requires Inv(s) && OneStatus(s.pieces) && Quiet(s) && t < |s.txns| && s.txns[t].phase.Moving?
    ensures NeverEnds(s.txns[t].req)
  {
    var x := s.txns[t];
    assert Rooted(s.objs, t, x);
    var o := x.phase.obj;
    QuietHasNothingPending(s, o);
    assert Owned(s.txns, o, s.objs[o]) && Balanced(s, o, s.objs[o]) && !Watched(s, o);
    WaitCoversUnsent(x.req);
    NeverEndsIff(x.req);
    if Verdict(x.req) == 0 {
      SuccessSendsAll(x.req);
    }
  }

  lemma {:induction false} QuietOrigin(s: State, t: nat)
    requires Inv(s) && OneStatus(s.pieces) && Quiet(s) && t < |s.txns| && s.txns[t].phase.Reported?
    ensures s.txns[t].closed
  {
    var x := s.txns[t];
    QuietHasNothingPending(s, x.origin);
    if Verdict(x.req) == 0 && Sensible(x.req) {
      SuccessSendsAll(x.req);
    }
    assert Rooted(s.objs, t, x);
  }

  // ----- A short read whose last bundle carries bytes never ends -----

  predicate Unended(x: Txn) {
    NeverEnds(x.req) ==> !x.phase.Reported?
  }

  predicate AllUnended(txns: seq<Txn>) {
    forall t :: 0 <= t < |txns| ==> Unended(txns[t])
  }

  /** Its responder's object always holds more than the value that is waited for. */
  lemma {:induction false} NeverWatched(s: State, o: Ref)
    requires Inv(s) && o in s.objs && s.objs[o].remote.Peer? && NeverEnds(s.txns[s.objs[o].txn].req)
    ensures !Watched(s, o)
  {
    var x := s.txns[s.objs[o].txn];
    assert Owned(s.txns, o, s.objs[o]) && Rooted(s.objs, s.objs[o].txn, x) && Balanced(s, o, s.objs[o]);
    NeverEndsIff(x.req);
    VerdictIff(x.req);
  }

  lemma {:induction false} AnswerKeepsUnended(s: State, t: nat, o: Ref, id: nat)
    requires AllUnended(s.txns) && t < |s.txns|
    ensures AllUnended(AnswerWith(s, t, o, id).txns)
  {
    var txns := AnswerWith(s, t, o, id).txns;
    assert Unended(txns[t]);
    forall u | 0 <= u < |txns| ensures Unended(txns[u]) {
      assert u != t ==> Unended(s.txns[u]);
    }
  }

  lemma {:induction false} StepKeepsUnended(s: State, step: Step)
    requires Inv(s) && AllUnended(s.txns) && Enabled(s, step)
    ensures AllUnended(Apply(s, step).txns)
  {
    match step {
      case Originate(q, o) =>
      case Answer(t, o, id) => AnswerKeepsUnended(s, t, o, id);
      case Poll(o) => ReleaseKeepsUnended(s, o, s.objs[o].error, s.objs[o].id != 0);
      case SpinOut(o) => ReleaseKeepsUnended(s, o, EINVAL, false);
      case _ => assert Apply(s, step).txns == s.txns;
    }
  }

  lemma {:induction false} ReleaseKeepsUnended(s: State, o: Ref, status: int, report: bool)
    requires Inv(s) && AllUnended(s.txns) && Watched(s, o)
    ensures AllUnended(Release(s, o, status, report).txns)
  {
    assert Owned(s.txns, o, s.objs[o]);
    if s.objs[o].remote.Peer? && NeverEnds(s.txns[s.objs[o].txn].req) {
      NeverWatched(s, o);
    }
  }

  lemma {:induction false} RunKeepsUnended(steps: seq<Step>, s: State)
    requires Runs(steps, s) && Inv(s) && AllUnended(s.txns)
    ensures AllUnended(After(steps, s).txns)
    decreases |steps|
  {
    if steps != [] {
      StepKeeps(s, steps[0]);
      StepKeepsUnended(s, steps[0]);
      RunKeepsUnended(steps[1..], Apply(s, steps[0]));
    }
  }

  /** In no state of any run is such a read closed, or even reported to its originator. */
  lemma {:induction false} ShortReadNeverEnds(steps: seq<Step>, s: State, t: nat)
    requires Runs(steps, INIT) && s == After(steps, INIT) && t < |s.txns| && NeverEnds(s.txns[t].req)
    ensures !s.txns[t].phase.Reported? && !s.txns[t].closed
    ensures s.txns[t].origin in s.objs
  {
    Reachable(steps);
    RunKeepsUnended(steps, INIT);
    assert Unended(s.txns[t]) && Rooted(s.objs, t, s.txns[t]);
  }

  /** Nine elements of one byte on each side and a request for ten bytes make such a read, and nothing keeps an
      originator from making it. */
  lemma {:induction false} NeverEndingReadExists(o: Ref)
    ensures var q := Request(Read, 10, 0, Ones(9), Ones(9));
            NeverEnds(q) && Runs([Originate(q, o)], INIT)
              && After([Originate(q, o)], INIT).txns == [Txn(q, o, Asked, false)]
  {
    var step := Originate(Request(Read, 10, 0, Ones(9), Ones(9)), o);
    OnesNeverEnd(9, 10, 0);
    assert [step][1..] == [];
    assert Runs([], Apply(INIT, step)) && After([], Apply(INIT, step)) == Apply(INIT, step);
  }

  /** Over every run that comes to rest with every request answered, a request is closed at its originator if and
      only if it is not a short read of more than eight puts with bytes in its last bundle. */
  lemma {:induction false} ClosedAtRestIff(steps: seq<Step>, s: State, t: nat)
    requires Runs(steps, INIT) && s == After(steps, INIT) && Quiet(s) && t < |s.txns|
    ensures s.txns[t].closed <==> !NeverEnds(s.txns[t].req)
  {
    Reachable(steps);
    RunKeepsOneStatus(steps, INIT);
    if NeverEnds(s.txns[t].req) {
      ShortReadNeverEnds(steps, s, t);
    } else if s.txns[t].phase.Moving? {
      QuietRead(s, t);
    } else {
      QuietOrigin(s, t);
    }
  }
}
