/** Every broadcast run without new requests is bounded, and ends with every round finished at every node. */
module BroadcastProgress {
  import opened Broadcast

  // ----- How much is left to do -----

  /** A node still takes, arms, polls and clears each round it has not finished, and the network still delivers to
      it. */
  function NodeWork(rounds: nat, n: Node): int {
    2 * (rounds - n.readied) + (if n.inReady then 1 else 0) + (rounds - n.finishes) + (rounds - n.cleared) + |n.flying|
  }

  function NodesWork(rounds: nat, nodes: seq<Node>): int {
    if nodes == [] then 0 else NodeWork(rounds, nodes[0]) + NodesWork(rounds, nodes[1..])
  }

  /** The reduces and finishes to come, and the collective put to come, which sends its bytes to every node. */
  function NetworkWork(net: Network, nodes: nat): int {
    (Loaded(net.rounds, |net.rounds|) - net.reduced) + (|net.rounds| - net.finished)
    + (if Injected(net) then 0 else 1 + nodes * LastLen(net))
  }

  function Work(s: State): int {
    NetworkWork(s.net, |s.nodes|) + NodesWork(|s.net.rounds|, s.nodes)
  }

  lemma {:induction false} NodesWorkUpdate(rounds: nat, nodes: seq<Node>, i: nat, n: Node)
    requires i < |nodes|
    ensures NodesWork(rounds, nodes[i := n])
      == NodesWork(rounds, nodes) - NodeWork(rounds, nodes[i]) + NodeWork(rounds, n)
  {
    if i == 0 {
      assert nodes[0 := n][1..] == nodes[1..];
    } else {
      assert nodes[i := n][1..] == nodes[1..][i - 1 := n];
      NodesWorkUpdate(rounds, nodes[1..], i - 1, n);
    }
  }

  lemma {:induction false} NodesWorkShift(rounds: nat, nodes: seq<Node>, nodes': seq<Node>, shift: int)
    requires |nodes'| == |nodes|
    requires forall i :: 0 <= i < |nodes| ==> NodeWork(rounds, nodes'[i]) == NodeWork(rounds, nodes[i]) + shift
    ensures NodesWork(rounds, nodes') == NodesWork(rounds, nodes) + |nodes| * shift
  {
    if nodes != [] {
      var rest, rest' := nodes[1..], nodes'[1..];
      assert forall i :: 0 <= i < |rest| ==> rest[i] == nodes[i + 1] && rest'[i] == nodes'[i + 1];
      NodesWorkShift(rounds, rest, rest', shift);
      OneMore(|rest|, shift);
    }
  }

  lemma {:induction false} OneMore(k: nat, shift: int)
    ensures (k + 1) * shift == k * shift + shift
  {
  }

  lemma {:induction false} NodesWorkNatural(rounds: nat, nodes: seq<Node>)
    requires forall i :: 0 <= i < |nodes| ==> NodeWork(rounds, nodes[i]) >= 0
    ensures NodesWork(rounds, nodes) >= 0
  {
    if nodes != [] {
      NodesWorkNatural(rounds, nodes[1..]);
    }
  }

  lemma {:induction false} NodeWorkNatural(net: Network, origin: bool, n: Node)
    requires NodeOk(net, origin, n)
    ensures NodeWork(|net.rounds|, n) >= 0
  {
    assert CountsOk(net, n);
  }

  lemma {:induction false} WorkNatural(s: State)
    requires Inv(s)
    ensures Work(s) >= 0
  {
    forall i | 0 <= i < |s.nodes| ensures NodeWork(|s.net.rounds|, s.nodes[i]) >= 0 {
      NodeWorkNatural(s.net, i == 0, s.nodes[i]);
    }
    NodesWorkNatural(|s.net.rounds|, s.nodes);
    NetworkWorkNatural(s.net, |s.nodes|);
  }

  lemma {:induction false} NetworkWorkNatural(net: Network, nodes: nat)
    requires NetworkOk(net)
    ensures NetworkWork(net, nodes) >= 0
  {
    assert nodes * LastLen(net) >= 0;
  }

  // ----- Every step but a new request leaves less to do -----

  /** A step of one node that leaves the network alone. */
  lemma {:induction false} NodeStep(s: State, i: nat, n: Node, log: seq<(nat, nat)>)
    requires i < |s.nodes| && NodeWork(|s.net.rounds|, n) < NodeWork(|s.net.rounds|, s.nodes[i])
    ensures Work(State(s.net, s.nodes[i := n], log)) < Work(s)
  {
    NodesWorkUpdate(|s.net.rounds|, s.nodes, i, n);
  }

  lemma {:induction false} DeliverLeavesLess(s: State, i: nat, bytes: set<(nat, nat)>)
    requires Enabled(s, Deliver(i, bytes))
    ensures Work(Apply(s, Deliver(i, bytes))) < Work(s)
  {
    SubsetSize(bytes, s.nodes[i].flying);
    assert |bytes| > 0;
    NodeStep(s, i, Land(s.nodes[i], bytes), s.log);
  }

  lemma {:induction false} LaunchAddsBytes(net: Network, origin: bool, n: Node)
    requires NetworkOk(net) && NodeOk(net, origin, n) && net.puts < net.reduced && (origin ==> n.inbox != [])
    ensures var n' := if origin then Pop(n) else n;
            NodeWork(|net.rounds|, Launch(n', LastRound(net), LastLen(net)))
              == NodeWork(|net.rounds|, n') + LastLen(net)
  {
    AllArmed(net, origin, n);
    assert {} + BytesOf(LastRound(net), LastLen(net)) == BytesOf(LastRound(net), LastLen(net));
  }

  /** Starting the put adds its bytes at every node, which the put to come had been counted for. */
  lemma {:induction false} LaunchLeavesLess(s: State)
    requires Inv(s) && s.nodes[0].inbox != [] && s.nodes[0].inbox[0].ReduceOrigin?
    ensures Work(HandleAt(s, 0)) < Work(s)
  {
    var s' := HandleAt(s, 0);
    var rounds, len := |s.net.rounds|, LastLen(s.net);
    assert NodeOk(s.net, true, s.nodes[0]);
    AllArmed(s.net, true, s.nodes[0]);
    var nodes := s.nodes[0 := Pop(s.nodes[0])];
    assert s'.net == s.net.(puts := s.net.puts + 1) && s'.nodes == LaunchAll(nodes, LastRound(s.net), len);
    NodesWorkUpdate(rounds, s.nodes, 0, Pop(s.nodes[0]));
    forall i | 0 <= i < |nodes| ensures NodeWork(rounds, s'.nodes[i]) == NodeWork(rounds, nodes[i]) + len {
      LaunchAddsBytes(s.net, i == 0, s.nodes[i]);
    }
    NodesWorkShift(rounds, nodes, s'.nodes, len);
  }

  lemma {:induction false} HandleLeavesLess(s: State, i: nat)
    requires Inv(s) && Enabled(s, Handle(i))
    ensures Work(HandleAt(s, i)) < Work(s)
  {
    var n := s.nodes[i];
    assert NodeOk(s.net, i == 0, n);
    match n.inbox[0] {
      case Ready(len) => NodeStep(s, i, Arm(Pop(n), len), s.log);
      case Finish => NodeStep(s, i, Clear(Pop(n)), if n.id != 0 then s.log + [(i, n.id)] else s.log);
      case ReduceOrigin => LaunchLeavesLess(s);
    }
  }

  lemma {:induction false} CollectiveLeavesLess(s: State, step: Step)
    requires Enabled(s, step) && (step.CompleteReduce? || step.CompleteFinish?)
    ensures Work(Apply(s, step)) < Work(s)
  {
    var s' := Apply(s, step);
    if step.CompleteReduce? {
      NodesWorkUpdate(|s.net.rounds|, s.nodes, 0, Push(s.nodes[0], ReduceOrigin));
    } else {
      NodesWorkShift(|s.net.rounds|, s.nodes, s'.nodes, 0);
    }
  }

  lemma {:induction false} StepLeavesLess(s: State, step: Step)
    requires Inv(s) && Enabled(s, step) && !step.Write?
    ensures Work(Apply(s, step)) < Work(s)
  {
    match step {
      case Handle(i) => HandleLeavesLess(s, i);
      case EndReady(i) => NodeStep(s, i, BecomeReceiver(s.nodes[i]), s.log);
      case Poll(i) => NodeStep(s, i, PollReduce(s.nodes[i]), s.log);
      case Deliver(i, bytes) => DeliverLeavesLess(s, i, bytes);
      case CompleteReduce => CollectiveLeavesLess(s, step);
      case CompleteFinish => CollectiveLeavesLess(s, step);
    }
  }

  predicate NoNewRequest(steps: seq<Step>) {
    forall i :: 0 <= i < |steps| ==> !steps[i].Write?
  }

  /** A run without new requests has no more steps than there is work. */
  lemma {:induction false} RunIsBounded(steps: seq<Step>, s: State)
    requires Inv(s) && Runs(steps, s) && NoNewRequest(steps)
    ensures |steps| + Work(After(steps, s)) <= Work(s)
    decreases |steps|
  {
    if steps != [] {
      StepLeavesLess(s, steps[0]);
      StepKeeps(s, steps[0]);
      RunIsBounded(steps[1..], Apply(s, steps[0]));
    }
  }

  // ----- A run stops only at rest -----

  /** Whatever is not at rest has a step to take. */
  lemma {:induction false} NotQuietGoesOn(s: State) returns (step: Step)
    requires s.nodes != [] && !Quiet(s)
    ensures Enabled(s, step) && !step.Write?
  {
    if AllReduced(s) {
      step := CompleteReduce;
    } else if AllFinished(s) {
      step := CompleteFinish;
    } else {
      var i :| 0 <= i < |s.nodes| && !Resting(s.nodes[i]);
      var n := s.nodes[i];
      step := if n.inReady then EndReady(i) else if n.inbox != [] then Handle(i) else if PollReady(n) then Poll(i)
              else Deliver(i, n.flying);
    }
  }

  /** The protocol is at rest exactly when nothing but a new request can happen. */
  lemma {:induction false} QuietIffNothingEnabled(s: State)
    requires s.nodes != []
    ensures Quiet(s) <==> forall step :: Enabled(s, step) ==> step.Write?
  {
    if !Quiet(s) {
      var step := NotQuietGoesOn(s);
    } else {
      forall step | Enabled(s, step) ensures step.Write? {
        assert step.Handle? || step.EndReady? || step.Poll? || step.Deliver? ==> Resting(s.nodes[step.i]);
      }
    }
  }

  lemma {:induction false} RunsAppend(a: seq<Step>, b: seq<Step>, s: State)
    requires Runs(a, s) && Runs(b, After(a, s))
    ensures Runs(a + b, s) && After(a + b, s) == After(b, After(a, s))
    decreases |a|
  {
    if a == [] {
      assert a + b == b;
    } else {
      assert (a + b)[1..] == a[1..] + b;
      RunsAppend(a[1..], b, Apply(s, a[0]));
    }
  }

  /** From every state some run without new requests comes to rest. */
  lemma {:induction false} ComesToRest(s: State) returns (steps: seq<Step>)
    requires Inv(s)
    ensures Runs(steps, s) && NoNewRequest(steps) && Quiet(After(steps, s))
    decreases Work(s)
  {
    WorkNatural(s);
    if Quiet(s) {
      steps := [];
    } else {
      var step := NotQuietGoesOn(s);
      StepLeavesLess(s, step);
      StepKeeps(s, step);
      WorkNatural(Apply(s, step));
      var rest := ComesToRest(Apply(s, step));
      steps := [step] + rest;
      assert steps[1..] == rest;
    }
  }

  lemma {:induction false} RoundsKept(steps: seq<Step>, s: State)
    requires Runs(steps, s) && NoNewRequest(steps)
    ensures After(steps, s).net.rounds == s.net.rounds
    decreases |steps|
  {
    if steps != [] {
      RoundsKept(steps[1..], Apply(s, steps[0]));
    }
  }

  lemma {:induction false} RestHasEnded(n: nat, s: State)
    requires Reachable(n, s) && Quiet(s)
    ensures |s.nodes| == n && s.log == Calls(s.net.rounds, |s.net.rounds|)
    ensures forall i :: 0 <= i < n ==>
              s.nodes[i].st.Inactive? && forall r :: 0 <= r < |s.net.rounds| ==>
                Whole(s.net.rounds, r, s.nodes[i].landed)
  {
    ReachableKeeps(n, s);
    NothingHangs(n, s, 0);
    forall i | 0 <= i < n
      ensures s.nodes[i].st.Inactive?
      ensures forall r :: 0 <= r < |s.net.rounds| ==> Whole(s.net.rounds, r, s.nodes[i].landed)
    {
      NothingHangs(n, s, i);
      assert NodeOk(s.net, i == 0, s.nodes[i]);
    }
  }

  /** A run `more` without new requests, from any reachable state, cannot go on for ever; and when it can go on no
      further, every node is inactive and holds all bytes of every request accepted so far, and the originator has been
      called for each of them that has an identifier, in order. */
  lemma {:induction false} EveryRoundEnds(n: nat, steps: seq<Step>, s: State, more: seq<Step>, last: State)
    requires n > 0 && Runs(steps, Init(n)) && s == After(steps, Init(n))
    requires NoNewRequest(more) && Runs(more, s) && last == After(more, s)
    ensures |more| <= Work(s)
    ensures var asked := Accepted(steps, Init(n));
            (forall step :: Enabled(last, step) ==> step.Write?) ==>
              && CalledInOrder(last.log, asked, |asked|)
              && |last.nodes| == n
              && forall i :: 0 <= i < n ==>
                   last.nodes[i].st.Inactive? && forall r :: 0 <= r < |asked| ==> Whole(asked, r, last.nodes[i].landed)
  {
    assert Reachable(n, s);
    ReachableKeeps(n, s);
    RunIsBounded(more, s);
    RunKeeps(more, s);
    WorkNatural(last);
    RoundsAreThoseAccepted(n, steps);
    RoundsKept(more, s);
    QuietIffNothingEnabled(last);
    if Quiet(last) {
      RunsAppend(steps, more, Init(n));
      assert Reachable(n, last);
      RestHasEnded(n, last);
      CallsInOrder(last.net.rounds, |last.net.rounds|);
    }
  }
}
