/** Whom a run of the remote-request protocol calls: the responder of a read, with which identifier and when; and that a
    poll of the counter list makes the protocol's calls. */
module RdmaCalls {
  import opened ScatterGather
  import opened RdmaWalk
  import opened RdmaTransfer
  import opened RdmaPlan
  import opened RdmaPieces
  import opened RdmaProtocol
  import opened RdmaSafety
  import opened RdmaProgress
  import Pools

  ghost predicate ResponderCalled(log: seq<Callback>, t: nat) {
    exists k :: 0 <= k < |log| && log[k].txn == t && !log[k].atOrigin
  }

  /** Request `t` has been answered by a responder that gave identifier `id`. */
  ghost predicate AnsweredAs(s: State, t: nat, id: nat) {
    && t < |s.txns| && !s.txns[t].phase.Asked?
    && (s.txns[t].phase.Moving? ==> s.txns[t].phase.obj in s.objs && s.objs[s.txns[t].phase.obj].id == id)
    && (forall k :: 0 <= k < |s.log| && s.log[k].txn == t && !s.log[k].atOrigin ==> s.log[k].id == id)
    && (s.txns[t].phase.Reported? && id != 0 && s.txns[t].req.kind.Read? && Verdict(s.txns[t].req) == 0 ==>
          ResponderCalled(s.log, t))
  }

  lemma {:induction false} AnswerNames(s: State, t: nat, o: Ref, id: nat)
    requires Inv(s) && LogInv(s) && Enabled(s, Answer(t, o, id))
    ensures AnsweredAs(Apply(s, Answer(t, o, id)), t, id)
  {
    forall k | 0 <= k < |s.log| ensures s.log[k].txn != t {
      assert Truthful(s.txns, s.log[k]);
    }
    assert Rooted(s.objs, t, s.txns[t]);
    if s.txns[t].req.kind.Read? && Verdict(s.txns[t].req) == 0 {
      SuccessNeedsObject(s.txns[t].req);
    }
  }

  lemma {:induction false} SuccessNeedsObject(q: Request)
    requires Sensible(q) && q.kind.Read? && Verdict(q) == 0
    ensures NeedsObject(q)
  {
  }

  /** The responder of the request itself is done. */
  lemma {:induction false} OwnRelease(s: State, o: Ref, status: int, report: bool, t: nat, id: nat)
    requires Inv(s) && LogInv(s) && Done(s, o, status) && AnsweredAs(s, t, id)
    requires s.objs[o].remote.Peer? && s.objs[o].txn == t && (report <==> s.objs[o].polled && s.objs[o].id != 0)
    ensures AnsweredAs(Release(s, o, status, report), t, id)
  {
    var s' := Release(s, o, status, report);
    assert Owned(s.txns, o, s.objs[o]);
    if report {
      assert s'.log[|s.log|].txn == t && !s'.log[|s.log|].atOrigin;
    }
  }

  /** Any other object is done with. */
  lemma {:induction false} OtherRelease(s: State, o: Ref, status: int, report: bool, t: nat, id: nat)
    requires Inv(s) && LogInv(s) && Done(s, o, status) && AnsweredAs(s, t, id)
    requires s.objs[o].remote.NoPeer? || s.objs[o].txn != t
    ensures AnsweredAs(Release(s, o, status, report), t, id)
  {
    var s' := Release(s, o, status, report);
    assert Owned(s.txns, o, s.objs[o]) && Rooted(s.objs, t, s.txns[t]);
    if ResponderCalled(s.log, t) {
      CalledStays(s.log, s'.log, t);
    }
  }

  lemma {:induction false} ReleaseKeepsName(s: State, o: Ref, status: int, report: bool, t: nat, id: nat)
    requires Inv(s) && LogInv(s) && Done(s, o, status) && AnsweredAs(s, t, id)
    requires report <==> s.objs[o].polled && s.objs[o].id != 0
    ensures AnsweredAs(Release(s, o, status, report), t, id)
  {
    if s.objs[o].remote.Peer? && s.objs[o].txn == t {
      OwnRelease(s, o, status, report, t, id);
    } else {
      OtherRelease(s, o, status, report, t, id);
    }
  }

  lemma {:induction false} CalledStays(log: seq<Callback>, log': seq<Callback>, t: nat)
    requires |log| <= |log'| && log'[..|log|] == log && ResponderCalled(log, t)
    ensures ResponderCalled(log', t)
  {
    var k :| 0 <= k < |log| && log[k].txn == t && !log[k].atOrigin;
    assert log'[k] == log[k];
  }

  lemma {:induction false} StepKeepsName(s: State, step: Step, t: nat, id: nat)
    requires Inv(s) && LogInv(s) && Enabled(s, step) && AnsweredAs(s, t, id)
    ensures AnsweredAs(Apply(s, step), t, id)
  {
    match step {
      case Poll(o) => ReleaseKeepsName(s, o, s.objs[o].error, s.objs[o].id != 0, t, id);
      case SpinOut(o) => ReleaseKeepsName(s, o, EINVAL, false, t, id);
      case _ => OtherKeepsName(s, step, t, id);
    }
  }

  lemma {:induction false} OtherKeepsName(s: State, step: Step, t: nat, id: nat)
    requires Inv(s) && Enabled(s, step) && AnsweredAs(s, t, id) && !step.Poll? && !step.SpinOut?
    ensures AnsweredAs(Apply(s, step), t, id)
  {
    var s' := Apply(s, step);
    assert s'.log == s.log && s'.txns[t] == s.txns[t];
    assert Rooted(s.objs, t, s.txns[t]);
  }

  lemma {:induction false} RunKeepsName(steps: seq<Step>, s: State, t: nat, id: nat)
    requires Runs(steps, s) && Inv(s) && LogInv(s) && AnsweredAs(s, t, id)
    ensures AnsweredAs(After(steps, s), t, id)
    decreases |steps|
  {
    if steps != [] {
      StepKeepsName(s, steps[0], t, id);
      StepKeeps(s, steps[0]);
      StepKeepsLog(s, steps[0]);
      RunKeepsName(steps[1..], Apply(s, steps[0]), t, id);
    }
  }

  lemma {:induction false} RunNames(steps: seq<Step>, s: State, t: nat, o: Ref, id: nat)
    requires Runs(steps, s) && Inv(s) && LogInv(s) && Answer(t, o, id) in steps
    ensures AnsweredAs(After(steps, s), t, id)
    decreases |steps|
  {
    StepKeeps(s, steps[0]);
    StepKeepsLog(s, steps[0]);
    if steps[0] == Answer(t, o, id) {
      AnswerNames(s, t, o, id);
      RunKeepsName(steps[1..], Apply(s, steps[0]), t, id);
    } else {
      RunNames(steps[1..], Apply(s, steps[0]), t, o, id);
    }
  }

  /** Over every run in which request `t` is answered with identifier `id`: the responder is never called with another
      identifier, and once the request has been reported it has been called exactly when it gave one, the request is a
      read, both lists cover it, and it ends at an element boundary of either. */
  lemma {:induction false} ResponderIsCalledIff(steps: seq<Step>, s: State, t: nat, o: Ref, id: nat)
    requires Runs(steps, INIT) && s == After(steps, INIT) && Answer(t, o, id) in steps
    ensures t < |s.txns| == |Made(steps)|
    ensures forall c :: c in s.log && c.txn == t && !c.atOrigin ==> c.id == id
    ensures var q := Made(steps)[t].0;
            ResponderCalled(s.log, t) <==>
            && s.txns[t].phase.Reported? && id != 0 && q.kind.Read?
            && q.n <= Total(q.src) && q.n <= Total(q.dst) && (Boundary(q.src, q.n) || Boundary(q.dst, q.n))
  {
    Reachable(steps);
    RequestsAreThoseMade(steps, s);
    RunNames(steps, INIT, t, o, id);
    assert Rooted(s.objs, t, s.txns[t]);
    VerdictIff(s.txns[t].req);
    if ResponderCalled(s.log, t) {
      var k :| 0 <= k < |s.log| && s.log[k].txn == t && !s.log[k].atOrigin;
      assert Truthful(s.txns, s.log[k]);
      CallbackIsTrue(steps, s, s.log[k]);
    }
  }

  /** When a run can go on no further without a new request, a responder has been called if and only if it gave an
      identifier to a read that both lists cover and that ends at an element boundary of either. */
  lemma {:induction false} EveryResponderEnds(steps: seq<Step>, s: State, t: nat, o: Ref, id: nat)
    requires Runs(steps, INIT) && s == After(steps, INIT) && Answer(t, o, id) in steps
    requires forall step :: Enabled(s, step) ==> step.Originate?
    ensures t < |Made(steps)|
    ensures var q := Made(steps)[t].0;
            ResponderCalled(s.log, t) <==>
            && id != 0 && q.kind.Read?
            && q.n <= Total(q.src) && q.n <= Total(q.dst) && (Boundary(q.src, q.n) || Boundary(q.dst, q.n))
  {
    ResponderIsCalledIff(steps, s, t, o, id);
    RequestsAreThoseMade(steps, s);
    QuietIffNothingEnabled(s);
    ClosedAtRestIff(steps, s, t);
    Reachable(steps);
    assert Rooted(s.objs, t, s.txns[t]);
  }

  /** After any run, every request of one byte up to the limit of the 32-bit total can be made with an object that is
      not in use, and every request that is on its way can be answered with any identifier. */
  lemma {:induction false} NothingIsRefused(steps: seq<Step>, s: State, o: Ref)
    requires Runs(steps, INIT) && s == After(steps, INIT) && o !in s.objs
    ensures forall q: Request :: 0 < q.n <= 0xF000_0001 ==>
              Runs(steps + [Originate(q, o)], INIT)
              && After(steps + [Originate(q, o)], INIT).txns == s.txns + [Txn(q, o, Asked, false)]
    ensures forall t, id: nat :: 0 <= t < |s.txns| && s.txns[t].phase.Asked? ==> Runs(steps + [Answer(t, o, id)], INIT)
  {
    forall q: Request | 0 < q.n <= 0xF000_0001
      ensures Runs(steps + [Originate(q, o)], INIT)
      ensures After(steps + [Originate(q, o)], INIT).txns == s.txns + [Txn(q, o, Asked, false)]
    {
      OneStep(s, Originate(q, o));
      RunsAppend(steps, [Originate(q, o)], INIT);
    }
    forall t, id: nat | 0 <= t < |s.txns| && s.txns[t].phase.Asked?
      ensures Runs(steps + [Answer(t, o, id)], INIT)
    {
      OneStep(s, Answer(t, o, id));
      RunsAppend(steps, [Answer(t, o, id)], INIT);
    }
  }

  lemma {:induction false} OneStep(s: State, step: Step)
    requires Enabled(s, step)
    ensures Runs([step], s) && After([step], s) == Apply(s, step)
  {
    assert [step][1..] == [];
    assert Runs([], Apply(s, step)) && After([], Apply(s, step)) == Apply(s, step);
  }

  // ----- A poll of the counter list is a step -----

  /** The words of the objects that a poll finds on the counter list. */
  predicate OnList(s: State, os: seq<Ref>, words: seq<Pools.Word>) {
    && |os| == |words|
    && forall i :: 0 <= i < |os| ==>
         && os[i] in s.objs && s.objs[os[i]].polled && s.objs[os[i]].txn < |s.txns|
         && (words[i].counter, words[i].error, words[i].id)
            == (s.objs[os[i]].counter, s.objs[os[i]].error, s.objs[os[i]].id)
         && (words[i].remote != 0 <==> s.objs[os[i]].remote.Peer?)
  }

  /** A poll keeps an object on its list exactly when the protocol's step is not possible for it; and where it is,
      the step makes the same call and sends the same error as the poll. */
  lemma {:induction false} PollIsTheStep(s: State, os: seq<Ref>, words: seq<Pools.Word>, i: nat)
    requires OnList(s, os, words) && i < |os|
    ensures Pools.KeptWords(Pools.CounterDone, [words[i]]) == [] <==> Enabled(s, Poll(os[i]))
    ensures Enabled(s, Poll(os[i])) ==>
              var ob, s' := s.objs[os[i]], Apply(s, Poll(os[i]));
              var told, sent := Pools.Reports(Pools.CounterDone, [words[i]]), Pools.Puts(Pools.CounterDone, [words[i]]);
              && s'.objs == s.objs - {os[i]}
              && s'.log == s.log + (if told == [] then []
                                    else [Callback(ob.txn, ob.remote.NoPeer?, told[0].id, told[0].error)])
              && if ob.remote.Peer? then
                   sent != [] && s'.pieces == s.pieces + [ErrorPut(ob.txn, ob.remote.ref, sent[0].error)]
                 else sent == [] && s'.pieces == s.pieces
  {
    assert [words[i]][1..] == [];
  }
}
