/** Every run of the remote-request protocol without new requests is bounded, and ends with every request answered. */
module RdmaProgress {
  import opened ScatterGather
  import opened RdmaTransfer
  import opened RdmaPlan
  import opened RdmaPieces
  import opened RdmaProtocol
  import opened RdmaSafety

  // ----- How much is left to do -----

  /** The packets and deliveries a piece can still become: every packet holds at least one byte. */
  function Packets(c: Cargo): nat {
    if c.Data? && c.len > 0 then 2 * c.len - 1 else 1
  }

  function PieceWork(p: Piece): nat {
    match p.stage
    case Built => Packets(p.cargo) + 2
    case InMessage => Packets(p.cargo) + 1
    case InFlight => Packets(p.cargo)
    case Landed => 0
  }

  function NetworkWork(ps: seq<Piece>): nat {
    if ps == [] then 0 else PieceWork(ps[0]) + NetworkWork(ps[1..])
  }

  /** The most that handing over these puts can set in motion. */
  function PutsWork(puts: seq<Put>): nat {
    if puts == [] then 0 else Packets(Data(0, puts[0].len)) + 2 + PutsWork(puts[1..])
  }

  function TxnWork(x: Txn): nat {
    (if x.closed then 0 else 1) +
    match x.phase
    case Asked => PutsWork(SentPuts(x.req)) + 3
    case Moving(_) => 2
    case Reported => 0
  }

  function RequestWork(txns: seq<Txn>): nat {
    if txns == [] then 0 else TxnWork(txns[0]) + RequestWork(txns[1..])
  }

  function Work(s: State): nat {
    RequestWork(s.txns) + NetworkWork(s.pieces)
  }

  lemma {:induction false} NetworkWorkAppend(a: seq<Piece>, b: seq<Piece>)
    ensures NetworkWork(a + b) == NetworkWork(a) + NetworkWork(b)
  {
    if a == [] {
      assert a + b == b;
    } else {
      assert (a + b)[1..] == a[1..] + b;
      NetworkWorkAppend(a[1..], b);
    }
  }

  lemma {:induction false} NetworkWorkUpdate(ps: seq<Piece>, i: nat, p: Piece)
    requires i < |ps|
    ensures NetworkWork(ps[i := p]) == NetworkWork(ps) - PieceWork(ps[i]) + PieceWork(p)
  {
    if i == 0 {
      assert ps[0 := p][1..] == ps[1..];
    } else {
      assert ps[i := p][1..] == ps[1..][i - 1 := p];
      NetworkWorkUpdate(ps[1..], i - 1, p);
    }
  }

  lemma {:induction false} RequestWorkUpdate(txns: seq<Txn>, t: nat, x: Txn)
    requires t < |txns|
    ensures RequestWork(txns[t := x]) == RequestWork(txns) - TxnWork(txns[t]) + TxnWork(x)
  {
    if t == 0 {
      assert txns[0 := x][1..] == txns[1..];
    } else {
      assert txns[t := x][1..] == txns[1..][t - 1 := x];
      RequestWorkUpdate(txns[1..], t - 1, x);
    }
  }

  lemma {:induction false} NetworkWorkNoMore(ps: seq<Piece>, qs: seq<Piece>)
    requires |ps| == |qs| && forall j :: 0 <= j < |ps| ==> PieceWork(qs[j]) <= PieceWork(ps[j])
    ensures NetworkWork(qs) <= NetworkWork(ps)
  {
    if ps != [] {
      NetworkWorkNoMore(ps[1..], qs[1..]);
    }
  }

  lemma {:induction false} NetworkWorkLess(ps: seq<Piece>, qs: seq<Piece>, i: nat)
    requires |ps| == |qs| && forall j :: 0 <= j < |ps| ==> PieceWork(qs[j]) <= PieceWork(ps[j])
    requires i < |ps| && PieceWork(qs[i]) < PieceWork(ps[i])
    ensures NetworkWork(qs) < NetworkWork(ps)
  {
    if i == 0 {
      NetworkWorkNoMore(ps[1..], qs[1..]);
    } else {
      NetworkWorkLess(ps[1..], qs[1..], i - 1);
    }
  }

  lemma {:induction false} CutWork(puts: seq<Put>, txn: nat, target: Ref, lo: nat, k: nat, stage: Stage)
    ensures NetworkWork(Cut(puts, txn, target, lo, k, stage)) <= PutsWork(puts)
  {
    if puts != [] {
      var ps, rest := Cut(puts, txn, target, lo, k, stage), Cut(puts[1..], txn, target, lo + puts[0].len, k + 1, stage);
      CutWork(puts[1..], txn, target, lo + puts[0].len, k + 1, stage);
      assert ps[1..] == rest;
    }
  }

  // ----- Every step but a new request leaves less to do -----

  lemma {:induction false} MoveLeavesLess(ps: seq<Piece>, i: nat, from: Stage, to: Stage)
    requires i < |ps| && ps[i].stage == from && ((from.Built? && to.InMessage?) || (from.InMessage? && to.InFlight?))
    ensures NetworkWork(MoveBundle(ps, ps[i].txn, ps[i].bundle, from, to)) < NetworkWork(ps)
  {
    NetworkWorkLess(ps, MoveBundle(ps, ps[i].txn, ps[i].bundle, from, to), i);
  }

  lemma {:induction false} SplitLeavesLess(ps: seq<Piece>, i: nat, k: nat)
    requires i < |ps| && ps[i].stage.InFlight? && ps[i].cargo.Data? && 0 < k < ps[i].cargo.len
    ensures NetworkWork(SplitAt(ps, i, k)) < NetworkWork(ps)
  {
    var c := ps[i].cargo;
    var first, last := ps[i].(cargo := Data(c.lo, k)), ps[i].(cargo := Data(c.lo + k, c.len - k));
    NetworkWorkUpdate(ps, i, first);
    NetworkWorkAppend(ps[i := first], [last]);
    assert NetworkWork([last]) == PieceWork(last) + NetworkWork([]);
  }

  lemma {:induction false} AnswerLeavesLess(s: State, t: nat, o: Ref, id: nat)
    requires t < |s.txns| && s.txns[t].phase.Asked?
    ensures Work(AnswerWith(s, t, o, id)) < Work(s)
  {
    var x := s.txns[t];
    var puts := SentPuts(x.req);
    var s' := AnswerWith(s, t, o, id);
    RequestWorkUpdate(s.txns, t, s'.txns[t]);
    if NeedsObject(x.req) {
      NetworkWorkAppend(s.pieces, Cut(puts, t, o, 0, 0, Built));
      CutWork(puts, t, o, 0, 0, Built);
    } else {
      NetworkWorkAppend(s.pieces, DirectAnswer(x, t));
      DirectAnswerWork(x, t);
    }
  }

  lemma {:induction false} DirectAnswerWork(x: Txn, t: nat)
    ensures NetworkWork(DirectAnswer(x, t)) <= PutsWork(SentPuts(x.req)) + 1
  {
    var data := if x.req.kind.Write? then Cut(SentPuts(x.req), t, x.origin, 0, 0, InFlight) else [];
    var word := if NeedsStatus(x.req) then [ErrorPut(t, x.origin, Verdict(x.req))] else [];
    CutWork(SentPuts(x.req), t, x.origin, 0, 0, InFlight);
    NetworkWorkAppend(data, word);
    assert NetworkWork(word) <= 1 by {
      assert word != [] ==> NetworkWork(word) == PieceWork(word[0]) + NetworkWork([]);
    }
  }

  lemma {:induction false} ReleaseLeavesLess(s: State, o: Ref, status: int, report: bool)
    requires Inv(s) && o in s.objs
    ensures Work(Release(s, o, status, report)) < Work(s)
  {
    var ob := s.objs[o];
    var s' := Release(s, o, status, report);
    assert Owned(s.txns, o, ob);
    RequestWorkUpdate(s.txns, ob.txn, s'.txns[ob.txn]);
    if ob.remote.Peer? {
      var put := ErrorPut(ob.txn, ob.remote.ref, status);
      NetworkWorkAppend(s.pieces, [put]);
      assert NetworkWork([put]) == PieceWork(put) + NetworkWork([]);
    }
  }

  lemma {:induction false} StepLeavesLess(s: State, step: Step)
    requires Inv(s) && Enabled(s, step) && !step.Originate?
    ensures Work(Apply(s, step)) < Work(s)
  {
    match step {
      case Answer(t, o, id) => AnswerLeavesLess(s, t, o, id);
      case SendBundle(i) => MoveLeavesLess(s.pieces, i, Built, InMessage);
      case Replay(i) => MoveLeavesLess(s.pieces, i, InMessage, InFlight);
      case Split(i, k) => SplitLeavesLess(s.pieces, i, k);
      case Deliver(i) => NetworkWorkUpdate(s.pieces, i, s.pieces[i].(stage := Landed));
      case Poll(o) => ReleaseLeavesLess(s, o, s.objs[o].error, s.objs[o].id != 0);
      case SpinOut(o) => ReleaseLeavesLess(s, o, EINVAL, false);
    }
  }

  predicate NoNewRequest(steps: seq<Step>) {
    forall i :: 0 <= i < |steps| ==> !steps[i].Originate?
  }

  /** A run without new requests has no more steps than there is work. */
  lemma {:induction false} RunIsBounded(steps: seq<Step>, s: State)
    requires Inv(s) && Runs(steps, s) && NoNewRequest(steps)
    ensures |steps| + Work(After(steps, s)) <= Work(s)
    decreases |steps|
  {
    if steps != [] {
      StepLeavesLess(s, steps[0]);
      StepKeeps(s, steps[0]);
      RunIsBounded(steps[1..], Apply(s, steps[0]));
    }
  }

  // ----- A run stops only at rest -----

  lemma {:induction false} AddressBound(refs: set<Ref>) returns (bound: nat)
    ensures forall r :: r in refs ==> r.pa < bound
    decreases |refs|
  {
    if refs == {} {
      bound := 0;
    } else {
      var r :| r in refs;
      bound := AddressBound(refs - {r});
      bound := bound + r.pa + 1;
      assert forall q :: q in refs ==> q == r || q in refs - {r};
    }
  }

  /** Whatever is not at rest has a step to take. */
  lemma {:induction false} NotQuietGoesOn(s: State) returns (step: Step)
    requires !Quiet(s)
    ensures Enabled(s, step) && !step.Originate?
  {
    if t :| 0 <= t < |s.txns| && s.txns[t].phase.Asked? {
      var bound := AddressBound(s.objs.Keys);
      step := Answer(t, Ref(0, bound), 0);
    } else if i :| 0 <= i < |s.pieces| && !AtRest(s.pieces, s.pieces[i]) {
      match s.pieces[i].stage {
        case Built => step := SendBundle(i);
        case InMessage => step := Replay(i);
        case InFlight => step := Deliver(i);
      }
    } else {
      var o :| o in s.objs && Watched(s, o);
      step := if s.objs[o].polled then Poll(o) else SpinOut(o);
    }
  }

  /** The protocol is at rest exactly when nothing but a new request can happen. */
  lemma {:induction false} QuietIffNothingEnabled(s: State)
    ensures Quiet(s) <==> forall step :: Enabled(s, step) ==> step.Originate?
  {
    if !Quiet(s) {
      var step := NotQuietGoesOn(s);
    } else {
      forall step | Enabled(s, step) ensures step.Originate? {
        assert step.Split? ==> AtRest(s.pieces, s.pieces[step.i]);
        assert step.SendBundle? ==> AtRest(s.pieces, s.pieces[step.i]);
        assert step.Replay? ==> AtRest(s.pieces, s.pieces[step.i]);
        assert step.Deliver? ==> AtRest(s.pieces, s.pieces[step.i]);
      }
    }
  }

  lemma {:induction false} RunsAppend(a: seq<Step>, b: seq<Step>, s: State)
    requires Runs(a, s) && Runs(b, After(a, s))
    ensures Runs(a + b, s) && After(a + b, s) == After(b, After(a, s))
    decreases |a|
  {
    if a == [] {
      assert a + b == b;
    } else {
      assert (a + b)[1..] == a[1..] + b;
      RunsAppend(a[1..], b, Apply(s, a[0]));
    }
  }

  /** From every state some run without new requests comes to rest. */
  lemma {:induction false} ComesToRest(s: State) returns (steps: seq<Step>)
    requires Inv(s)
    ensures Runs(steps, s) && NoNewRequest(steps) && Quiet(After(steps, s))
    decreases Work(s)
  {
    if Quiet(s) {
      steps := [];
    } else {
      var step := NotQuietGoesOn(s);
      StepLeavesLess(s, step);
      StepKeeps(s, step);
      var rest := ComesToRest(Apply(s, step));
      steps := [step] + rest;
      assert steps[1..] == rest;
    }
  }

  lemma {:induction false} NothingMade(steps: seq<Step>)
    requires NoNewRequest(steps)
    ensures Made(steps) == []
  {
    if steps != [] {
      NothingMade(steps[1..]);
    }
  }

  lemma {:induction false} MadeBefore(steps: seq<Step>, more: seq<Step>)
    requires NoNewRequest(more)
    ensures Made(steps + more) == Made(steps)
  {
    if steps == [] {
      assert steps + more == more;
      NothingMade(more);
    } else {
      assert (steps + more)[1..] == steps[1..] + more;
      MadeBefore(steps[1..], more);
    }
  }

  /** At rest, an originator has been called if and only if it gave an identifier and its request can end. */
  lemma {:induction false} CalledAtRestIff(steps: seq<Step>, s: State, t: nat)
    requires Runs(steps, INIT) && s == After(steps, INIT) && Quiet(s) && t < |s.txns|
    ensures t < |Made(steps)|
    ensures Called(s.log, t) <==> Made(steps)[t].0.id != 0 && !NeverEnds(Made(steps)[t].0)
  {
    RequestsAreThoseMade(steps, s);
    ClosedAtRestIff(steps, s, t);
    CalledExactlyOnce(steps, s, t);
  }

  /** A run `more` without new requests, from any reachable state, cannot go on for ever; and when it can go on no
      further, the originator of request `t` has been called if and only if it gave an identifier and did not ask for
      a short read of more than eight puts with bytes in its last bundle. */
  lemma {:induction false} EveryRequestEnds(steps: seq<Step>, more: seq<Step>, s: State, last: State, t: nat)
    requires Runs(steps, INIT) && s == After(steps, INIT)
    requires NoNewRequest(more) && Runs(more, s) && last == After(more, s)
    ensures |more| <= Work(s)
    ensures (forall step :: Enabled(last, step) ==> step.Originate?) && t < |Made(steps)| ==>
              (Called(last.log, t) <==> Made(steps)[t].0.id != 0 && !NeverEnds(Made(steps)[t].0))
  {
    Reachable(steps);
    RunIsBounded(more, s);
    QuietIffNothingEnabled(last);
    if Quiet(last) && t < |Made(steps)| {
      RunsAppend(steps, more, INIT);
      MadeBefore(steps, more);
      RequestsAreThoseMade(steps + more, last);
      CalledAtRestIff(steps + more, last, t);
    }
  }
}
