/** The RDMA broadcast protocol: any number of nodes, any schedule, any number of rounds, node 0 the only originator. */
module Broadcast {

  const EBUSY: int := -16
  const EINPROGRESS: int := -115

  datatype BcastState = Inactive | Setup | Receiver | WaitForClear

  /** What arrives in a node's reception FIFO. */
  datatype Msg = Ready(len: nat) | ReduceOrigin | Finish

  /** A request that the originator accepted. */
  datatype Round = Round(len: nat, id: nat)

  /** One node. `len` and `id` are its own copy of the request; `inReady` marks it between arming its counter and
      becoming a receiver; `reduces` and `finishes` count its contributions to the two collectives, `readied` and
      `cleared` the RDY and FINISH messages it has taken; `flying` and `landed` are the (round, offset) bytes that the
      network still holds for it and those in its memory. */
  datatype Node = Node(st: BcastState, inReady: bool, counter: int, len: nat, id: nat, inbox: seq<Msg>,
                       reduces: nat, finishes: nat, readied: nat, cleared: nat, flying: set<(nat, nat)>,
                         landed: set<(nat, nat)>)

  /** The requests so far, and how many reduces, finish all-reduces and collective puts the network has carried out. */
  datatype Network = Network(rounds: seq<Round>, reduced: nat, finished: nat, puts: nat)

  /** `log` holds the (node, request) pairs of the status callbacks. */
  datatype State = State(net: Network, nodes: seq<Node>, log: seq<(nat, nat)>)

  const FRESH := Node(Inactive, false, 0, 0, 0, [], 0, 0, 0, 0, {}, {})

  function Init(n: nat): State {
    State(Network([], 0, 0, 0), seq(n, _ => FRESH), [])
  }

  // ----- What a node does -----

  /** `mudm_bcast_RDMA_write`, accepted. */
  function Accept(n: Node, len: nat, id: nat): Node {
    n.(st := Setup, len := len, id := id, counter := len)
  }

  /** `ready_rdma_bcast_receive_reduce` up to its contribution to the reduce; an empty payload needs none. */
  function Arm(n: Node, len: nat): Node {
    n.(inReady := true, counter := len, reduces := n.reduces + (if len > 0 then 1 else 0), readied := n.readied + 1)
  }

  /** The rest of it. */
  function BecomeReceiver(n: Node): Node {
    n.(inReady := false, st := Receiver)
  }

  predicate PollReady(n: Node) {
    n.counter == 0 && n.st.Receiver?
  }

  /** `rdma_bcast_poll_reduce`: writes the status word and contributes to the finish all-reduce. */
  function PollReduce(n: Node): Node {
    n.(st := WaitForClear, finishes := n.finishes + 1)
  }

  /** `clear_rdma_bcast_receive_reduce`. */
  function Clear(n: Node): Node {
    n.(st := Inactive, id := 0, cleared := n.cleared + 1)
  }

  function Pop(n: Node): Node
    requires n.inbox != []
  {
    n.(inbox := n.inbox[1..])
  }

  function Push(n: Node, m: Msg): Node {
    n.(inbox := n.inbox + [m])
  }

  /** The bytes of a round. */
  function BytesOf(round: nat, len: nat): (r: set<(nat, nat)>)
    ensures |r| == len && forall x :: x in r <==> x.0 == round && x.1 < len
  {
    if len == 0 then {} else BytesOf(round, len - 1) + {(round, len - 1)}
  }

  /** A collective put of `len` bytes starts towards the node. */
  function Launch(n: Node, round: nat, len: nat): Node {
    n.(flying := n.flying + BytesOf(round, len))
  }

  /** Some bytes arrive, and the counter goes down by their number. */
  function Land(n: Node, bytes: set<(nat, nat)>): Node {
    n.(flying := n.flying - bytes, counter := n.counter - |bytes|, landed := n.landed + bytes)
  }

  // ----- What the system does -----

  datatype Step =
    | Write(len: nat, id: nat)
    | Handle(i: nat)
    | EndReady(i: nat)
    | Poll(i: nat)
    | Deliver(i: nat, bytes: set<(nat, nat)>)
    | CompleteReduce
    | CompleteFinish

  predicate Enabled(s: State, step: Step) {
    match step
    case Write(_, _) => s.nodes != []
    case Handle(i) => i < |s.nodes| && s.nodes[i].inbox != [] && !s.nodes[i].inReady
    case EndReady(i) => i < |s.nodes| && s.nodes[i].inReady
    case Poll(i) => i < |s.nodes| && PollReady(s.nodes[i])
    case Deliver(i, bytes) => i < |s.nodes| && {} < bytes <= s.nodes[i].flying
    case CompleteReduce => s.nodes != [] && AllReduced(s)
    case CompleteFinish => s.nodes != [] && AllFinished(s)
  }

  /** A collective completes when every node of the class route has injected its contribution. */
  predicate AllReduced(s: State) {
    forall i :: 0 <= i < |s.nodes| ==> s.nodes[i].reduces > s.net.reduced
  }

  predicate AllFinished(s: State) {
    forall i :: 0 <= i < |s.nodes| ==> s.nodes[i].finishes > s.net.finished
  }

  function Apply(s: State, step: Step): State
    requires Enabled(s, step)
  {
    match step
    case Write(len, id) => WriteTo(s, len, id).0
    case Handle(i) => HandleAt(s, i)
    case EndReady(i) => s.(nodes := s.nodes[i := BecomeReceiver(s.nodes[i])])
    case Poll(i) => s.(nodes := s.nodes[i := PollReduce(s.nodes[i])])
    case Deliver(i, bytes) => s.(nodes := s.nodes[i := Land(s.nodes[i], bytes)])
    case CompleteReduce =>
      s.(net := s.net.(reduced := s.net.reduced + 1), nodes := s.nodes[0 := Push(s.nodes[0], ReduceOrigin)])
    case CompleteFinish => s.(net := s.net.(finished := s.net.finished + 1), nodes := ToAll(s.nodes, Finish))
  }

  function LastRound(net: Network): nat {
    if net.rounds == [] then 0 else |net.rounds| - 1
  }

  function ToAll(nodes: seq<Node>, m: Msg): (r: seq<Node>)
    ensures |r| == |nodes| && forall i :: 0 <= i < |nodes| ==> r[i] == Push(nodes[i], m)
  {
    seq(|nodes|, i requires 0 <= i < |nodes| => Push(nodes[i], m))
  }

  function LaunchAll(nodes: seq<Node>, round: nat, len: nat): (r: seq<Node>)
    ensures |r| == |nodes| && forall i :: 0 <= i < |nodes| ==> r[i] == Launch(nodes[i], round, len)
  {
    seq(|nodes|, i requires 0 <= i < |nodes| => Launch(nodes[i], round, len))
  }

  /** The originator refuses a request while it is busy; otherwise the RDY message is broadcast to all nodes, itself
      included. */
  function WriteTo(s: State, len: nat, id: nat): (State, int)
    requires s.nodes != []
  {
    if !s.nodes[0].st.Inactive? then (s, EBUSY)
    else (State(s.net.(rounds := s.net.rounds + [Round(len, id)]),
                ToAll(s.nodes[0 := Accept(s.nodes[0], len, id)], Ready(len)), s.log), EINPROGRESS)
  }

  /** `mudm_recv_bcast`. */
  function HandleAt(s: State, i: nat): State
    requires i < |s.nodes| && s.nodes[i].inbox != []
  {
    var n := Pop(s.nodes[i]);
    match s.nodes[i].inbox[0]
    case Ready(len) => s.(nodes := s.nodes[i := Arm(n, len)])
    case ReduceOrigin =>
      var nodes := s.nodes[i := n];
      if n.len > 0 then s.(nodes := LaunchAll(nodes, LastRound(s.net), n.len), net := s.net.(puts := s.net.puts + 1))
        else s.(nodes := nodes)
    case Finish =>
      s.(nodes := s.nodes[i := Clear(n)], log := if n.id != 0 then s.log + [(i, n.id)] else s.log)
  }

  predicate Runs(steps: seq<Step>, s: State)
    decreases |steps|
  {
    steps == [] || (Enabled(s, steps[0]) && Runs(steps[1..], Apply(s, steps[0])))
  }

  function After(steps: seq<Step>, s: State): State
    requires Runs(steps, s)
    decreases |steps|
  {
    if steps == [] then s else After(steps[1..], Apply(s, steps[0]))
  }

  // ----- What every step keeps -----

  /** How many of the first `k` rounds carry data. */
  function Loaded(rounds: seq<Round>, k: nat): nat
    requires k <= |rounds|
  {
    if k == 0 then 0 else Loaded(rounds, k - 1) + (if rounds[k - 1].len > 0 then 1 else 0)
  }

  /** The callbacks for the first `k` rounds. */
  function Calls(rounds: seq<Round>, k: nat): seq<(nat, nat)>
    requires k <= |rounds|
  {
    if k == 0 then []
    else Calls(rounds, k - 1) + (if rounds[k - 1].id != 0 then [(0, rounds[k - 1].id)] else [])
  }

  function LastLen(net: Network): nat {
    if net.rounds == [] then 0 else net.rounds[|net.rounds| - 1].len
  }

  /** The put of the last round has been injected, or the round has none. */
  predicate Injected(net: Network) {
    net.puts == Loaded(net.rounds, |net.rounds|)
  }

  predicate NetworkOk(net: Network) {
    var r := |net.rounds|;
    && net.finished <= r <= net.finished + 1
    && net.puts <= net.reduced <= Loaded(net.rounds, r)
    && (r > 0 ==> Loaded(net.rounds, r - 1) <= net.puts)
    && (net.finished == r ==> Injected(net))
  }

  /** Where a node stands. */
  predicate CountsOk(net: Network, n: Node) {
    var r := |net.rounds|;
    && n.cleared <= net.finished <= n.finishes <= n.readied <= r
    && n.cleared <= n.readied <= n.cleared + 1
    && net.reduced <= n.reduces == Loaded(net.rounds, n.readied)
    && (n.inReady ==> n.finishes < n.readied)
  }

  /** What is waiting for a node: FINISH of the previous round before RDY of the next one. */
  function Waiting(net: Network, origin: bool, n: Node): seq<Msg> {
    (if n.cleared < net.finished then [Finish] else []) +
    (if n.readied < |net.rounds| then [Ready(LastLen(net))] else []) +
    (if origin && net.puts < net.reduced then [ReduceOrigin] else [])
  }

  /** The state word of a node. */
  function StateOf(net: Network, origin: bool, n: Node): BcastState {
    if n.cleared == n.readied || n.inReady then
      if origin && (n.inReady || n.readied < |net.rounds|) then Setup else Inactive
    else if n.finishes < n.readied then Receiver
    else WaitForClear
  }

  /** Every byte of the round is among these. */
  predicate Whole(rounds: seq<Round>, r: nat, bytes: set<(nat, nat)>)
    requires r < |rounds|
  {
    BytesOf(r, rounds[r].len) <= bytes
  }

  /** Every byte of the first `k` rounds is among these. */
  predicate History(rounds: seq<Round>, k: nat, bytes: set<(nat, nat)>) {
    forall r :: 0 <= r < k && r < |rounds| ==> Whole(rounds, r, bytes)
  }

  /** The counter of a node and the bytes on their way to it. */
  predicate DataOk(net: Network, origin: bool, n: Node) {
    var r := |net.rounds|;
    && History(net.rounds, n.finishes, n.landed)
    && (n.finishes == r ==> n.counter == 0 && Injected(net))
    && if n.readied == r && Injected(net) then
         && n.counter == |n.flying|
         && (r > 0 ==> Whole(net.rounds, r - 1, n.landed + n.flying))
       else
         && n.flying == {}
         && n.counter == (if n.readied == r || origin then LastLen(net) else 0)
  }

  /** Only the originator holds a request. */
  predicate RequestOk(net: Network, origin: bool, n: Node) {
    var r := |net.rounds|;
    && (origin && r > 0 ==> n.len == LastLen(net) && r <= n.cleared + 1)
    && n.id == if origin && n.cleared < r then net.rounds[r - 1].id else 0
  }

  predicate NodeOk(net: Network, origin: bool, n: Node) {
    && CountsOk(net, n)
    && n.inbox == Waiting(net, origin, n)
    && n.st == StateOf(net, origin, n)
    && DataOk(net, origin, n)
    && RequestOk(net, origin, n)
  }

  predicate Inv(s: State) {
    && s.nodes != []
    && NetworkOk(s.net)
    && (forall i :: 0 <= i < |s.nodes| ==> NodeOk(s.net, i == 0, s.nodes[i]))
    && s.log == Calls(s.net.rounds, s.nodes[0].cleared)
  }

  // ----- Counting rounds -----

  lemma {:induction false} LoadedGrows(rounds: seq<Round>, j: nat, k: nat)
    requires j <= k <= |rounds|
    ensures Loaded(rounds, j) <= Loaded(rounds, k)
    decreases k
  {
    if j < k {
      LoadedGrows(rounds, j, k - 1);
    }
  }

  lemma {:induction false} PrefixKeeps(rounds: seq<Round>, x: Round, k: nat)
    requires k <= |rounds|
    ensures Loaded(rounds + [x], k) == Loaded(rounds, k) && Calls(rounds + [x], k) == Calls(rounds, k)
  {
    if k > 0 {
      PrefixKeeps(rounds, x, k - 1);
    }
  }

  // ----- Each step keeps the invariant -----

  /** A step of one node that leaves the network alone. */
  lemma {:induction false} OneNode(s: State, i: nat, n: Node, log: seq<(nat, nat)>)
    requires Inv(s) && i < |s.nodes| && NodeOk(s.net, i == 0, n)
    requires log == if i == 0 then Calls(s.net.rounds, n.cleared) else s.log
    ensures Inv(State(s.net, s.nodes[i := n], log))
  {
  }

  lemma {:induction false} HistoryKeeps(rounds: seq<Round>, x: Round, k: nat, bytes: set<(nat, nat)>)
    requires History(rounds, k, bytes) && k <= |rounds|
    ensures History(rounds + [x], k, bytes)
  {
    forall r | 0 <= r < k ensures Whole(rounds + [x], r, bytes) {
      assert Whole(rounds, r, bytes);
    }
  }

  /** A new round finds every node finished with the last one. */
  lemma {:induction false} NewRoundKeepsNode(net: Network, origin: bool, n: Node, x: Round)
    requires NetworkOk(net) && NodeOk(net, origin, n) && net.finished == |net.rounds|
      && (origin ==> n.cleared == |net.rounds|)
    ensures NodeOk(net.(rounds := net.rounds + [x]), origin,
                   Push(if origin then Accept(n, x.len, x.id) else n, Ready(x.len)))
  {
    var net' := net.(rounds := net.rounds + [x]);
    PrefixKeeps(net.rounds, x, n.readied);
    HistoryKeeps(net.rounds, x, n.finishes, n.landed);
    var n' := Push(if origin then Accept(n, x.len, x.id) else n, Ready(x.len));
    assert n.flying == {};
    assert DataOk(net', origin, n');
  }

  lemma {:induction false} NewRoundKeepsNetwork(net: Network, x: Round)
    requires NetworkOk(net) && net.finished == |net.rounds|
    ensures NetworkOk(net.(rounds := net.rounds + [x]))
  {
    PrefixKeeps(net.rounds, x, |net.rounds|);
  }

  /** The originator is inactive exactly when it has cleared every round it accepted. */
  lemma {:induction false} InactiveIff(s: State)
    requires Inv(s)
    ensures s.nodes[0].st.Inactive? <==> s.nodes[0].cleared == |s.net.rounds|
  {
    assert NodeOk(s.net, true, s.nodes[0]);
  }

  lemma {:induction false} WriteKeeps(s: State, len: nat, id: nat)
    requires Inv(s)
    ensures Inv(WriteTo(s, len, id).0)
  {
    var s' := WriteTo(s, len, id).0;
    InactiveIff(s);
    assert NodeOk(s.net, true, s.nodes[0]);
    if s.nodes[0].st.Inactive? {
      NewRoundKeepsNetwork(s.net, Round(len, id));
      PrefixKeeps(s.net.rounds, Round(len, id), |s.net.rounds|);
      forall i | 0 <= i < |s'.nodes| ensures NodeOk(s'.net, i == 0, s'.nodes[i]) {
        NewRoundKeepsNode(s.net, i == 0, s.nodes[i], Round(len, id));
      }
    }
  }

  lemma {:induction false} ArmKeeps(net: Network, origin: bool, n: Node)
    requires NetworkOk(net) && NodeOk(net, origin, n) && !n.inReady && n.inbox != [] && n.inbox[0].Ready?
    ensures NodeOk(net, origin, Arm(Pop(n), n.inbox[0].len))
  {
    var n' := Arm(Pop(n), n.inbox[0].len);
    assert n'.inbox == Waiting(net, origin, n');
  }

  lemma {:induction false} ClearKeeps(net: Network, origin: bool, n: Node)
    requires NetworkOk(net) && NodeOk(net, origin, n) && !n.inReady && n.inbox != [] && n.inbox[0].Finish?
    ensures NodeOk(net, origin, Clear(Pop(n)))
    ensures n.cleared < |net.rounds|
    ensures n.id == if origin then net.rounds[n.cleared].id else 0
  {
    var n' := Clear(Pop(n));
    assert n'.inbox == Waiting(net, origin, n');
  }

  lemma {:induction false} BecomeReceiverKeeps(net: Network, origin: bool, n: Node)
    requires NetworkOk(net) && NodeOk(net, origin, n) && n.inReady
    ensures NodeOk(net, origin, BecomeReceiver(n))
  {
  }

  /** A node that polls successfully holds the whole round: its counter is zero and nothing is on its way. */
  lemma {:induction false} PollHoldsRound(net: Network, origin: bool, n: Node)
    requires NetworkOk(net) && NodeOk(net, origin, n) && PollReady(n)
    ensures n.readied == |net.rounds| > 0 && n.finishes == |net.rounds| - 1 && Injected(net) && n.flying == {}
    ensures Whole(net.rounds, |net.rounds| - 1, n.landed)
  {
    assert n.landed + {} == n.landed;
  }

  lemma {:induction false} PollKeeps(net: Network, origin: bool, n: Node)
    requires NetworkOk(net) && NodeOk(net, origin, n) && PollReady(n)
    ensures NodeOk(net, origin, PollReduce(n))
  {
    PollHoldsRound(net, origin, n);
  }

  lemma {:induction false} SubsetSize(a: set<(nat, nat)>, b: set<(nat, nat)>)
    requires a <= b
    ensures |b - a| == |b| - |a|
  {
    assert b == a + (b - a);
  }

  lemma {:induction false} LandKeeps(net: Network, origin: bool, n: Node, bytes: set<(nat, nat)>)
    requires NetworkOk(net) && NodeOk(net, origin, n) && bytes <= n.flying
    ensures NodeOk(net, origin, Land(n, bytes))
  {
    var n' := Land(n, bytes);
    SubsetSize(bytes, n.flying);
    assert n'.landed + n'.flying == n.landed + n.flying;
    forall r | 0 <= r < n.finishes && r < |net.rounds| ensures Whole(net.rounds, r, n'.landed) {
      assert Whole(net.rounds, r, n.landed);
    }
  }

  lemma {:induction false} ReduceKeepsNode(net: Network, origin: bool, n: Node)
    requires NetworkOk(net) && NodeOk(net, origin, n) && n.reduces > net.reduced
    ensures NodeOk(net.(reduced := net.reduced + 1), origin, if origin then Push(n, ReduceOrigin) else n)
    ensures NetworkOk(net.(reduced := net.reduced + 1))
  {
    var net' := net.(reduced := net.reduced + 1);
    var n' := if origin then Push(n, ReduceOrigin) else n;
    LoadedGrows(net.rounds, n.readied, |net.rounds|);
    assert n'.inbox == Waiting(net', origin, n');
  }

  lemma {:induction false} FinishKeepsNode(net: Network, origin: bool, n: Node)
    requires NetworkOk(net) && NodeOk(net, origin, n) && n.finishes > net.finished
    ensures NodeOk(net.(finished := net.finished + 1), origin, Push(n, Finish))
    ensures NetworkOk(net.(finished := net.finished + 1))
  {
    var net' := net.(finished := net.finished + 1);
    var n' := Push(n, Finish);
    assert n'.inbox == Waiting(net', origin, n');
  }

  /** When a reduce has completed and its put is still to come, every node has armed its counter for the last round. */
  lemma {:induction false} AllArmed(net: Network, origin: bool, n: Node)
    requires NetworkOk(net) && NodeOk(net, origin, n) && net.puts < net.reduced
    ensures n.readied == |net.rounds| > 0 && n.finishes < n.readied && n.cleared == n.readied - 1 == net.finished
    ensures net.puts + 1 == net.reduced == Loaded(net.rounds, |net.rounds|)
    ensures n.counter == LastLen(net) > 0 && n.flying == {}
  {
  }

  lemma {:induction false} LaunchFromEmpty(n: Node, round: nat, len: nat)
    requires n.flying == {}
    ensures Launch(n, round, len) == n.(flying := BytesOf(round, len))
  {
    assert {} + BytesOf(round, len) == BytesOf(round, len);
  }

  lemma {:induction false} LaunchKeepsData(net: Network, origin: bool, n: Node)
    requires NetworkOk(net) && NodeOk(net, origin, n) && net.puts < net.reduced
    ensures DataOk(net.(puts := net.puts + 1), origin, Launch(n, LastRound(net), LastLen(net)))
  {
    AllArmed(net, origin, n);
    var r := |net.rounds| - 1;
    assert LastRound(net) == r && LastLen(net) == net.rounds[r].len;
    LaunchFromEmpty(n, r, net.rounds[r].len);
  }

  lemma {:induction false} LaunchKeepsNode(net: Network, origin: bool, n: Node)
    requires NetworkOk(net) && NodeOk(net, origin, n) && net.puts < net.reduced
    ensures NodeOk(net.(puts := net.puts + 1), origin,
                   Launch(if origin then Pop(n) else n, LastRound(net), LastLen(net)))
    ensures NetworkOk(net.(puts := net.puts + 1))
  {
    AllArmed(net, origin, n);
    LaunchKeepsData(net, origin, n);
    assert Waiting(net, origin, n) == if origin then [ReduceOrigin] else [];
  }

  lemma {:induction false} LaunchKeeps(s: State)
    requires Inv(s) && s.nodes[0].inbox != [] && s.nodes[0].inbox[0].ReduceOrigin?
    ensures Inv(HandleAt(s, 0))
  {
    var s' := HandleAt(s, 0);
    assert NodeOk(s.net, true, s.nodes[0]);
    assert s.net.puts < s.net.reduced;
    AllArmed(s.net, true, s.nodes[0]);
    LaunchKeepsNode(s.net, true, s.nodes[0]);
    assert s'.net == s.net.(puts := s.net.puts + 1);
    assert s'.nodes == LaunchAll(s.nodes[0 := Pop(s.nodes[0])], LastRound(s.net), LastLen(s.net));
    forall i | 0 <= i < |s'.nodes| ensures NodeOk(s'.net, i == 0, s'.nodes[i]) {
      LaunchKeepsNode(s.net, i == 0, s.nodes[i]);
    }
  }

  lemma {:induction false} ReadyKeeps(s: State, i: nat)
    requires Inv(s) && Enabled(s, Handle(i)) && s.nodes[i].inbox[0].Ready?
    ensures Inv(HandleAt(s, i))
  {
    var n := s.nodes[i];
    assert NodeOk(s.net, i == 0, n);
    ArmKeeps(s.net, i == 0, n);
    OneNode(s, i, Arm(Pop(n), n.inbox[0].len), s.log);
  }

  lemma {:induction false} ClearCalls(rounds: seq<Round>, k: nat, id: nat)
    requires k < |rounds| && id == rounds[k].id
    ensures Calls(rounds, k + 1) == Calls(rounds, k) + (if id != 0 then [(0, id)] else [])
  {
  }

  lemma {:induction false} FinishLogs(s: State, i: nat)
    requires Inv(s) && Enabled(s, Handle(i)) && s.nodes[i].inbox[0].Finish?
    ensures HandleAt(s, i).log ==
            if i == 0 then Calls(s.net.rounds, s.nodes[0].cleared + 1) else s.log
  {
    var n := s.nodes[i];
    assert NodeOk(s.net, i == 0, n);
    if i == 0 {
      ClearCalls(s.net.rounds, n.cleared, n.id);
    }
  }

  lemma {:induction false} FinishKeeps(s: State, i: nat)
    requires Inv(s) && Enabled(s, Handle(i)) && s.nodes[i].inbox[0].Finish?
    ensures Inv(HandleAt(s, i))
  {
    var n := s.nodes[i];
    assert NodeOk(s.net, i == 0, n);
    ClearKeeps(s.net, i == 0, n);
    FinishLogs(s, i);
    var s' := HandleAt(s, i);
    assert s' == State(s.net, s.nodes[i := Clear(Pop(n))], s'.log);
    OneNode(s, i, Clear(Pop(n)), s'.log);
  }

  lemma {:induction false} HandleKeeps(s: State, i: nat)
    requires Inv(s) && Enabled(s, Handle(i))
    ensures Inv(HandleAt(s, i))
  {
    match s.nodes[i].inbox[0] {
      case Ready(len) => ReadyKeeps(s, i);
      case Finish => FinishKeeps(s, i);
      case ReduceOrigin =>
        assert NodeOk(s.net, i == 0, s.nodes[i]);
        LaunchKeeps(s);
    }
  }

  lemma {:induction false} CollectiveKeeps(s: State, step: Step)
    requires Inv(s) && Enabled(s, step) && (step.CompleteReduce? || step.CompleteFinish?)
    ensures Inv(Apply(s, step))
  {
    var s' := Apply(s, step);
    forall i | 0 <= i < |s'.nodes| ensures NodeOk(s'.net, i == 0, s'.nodes[i]) && NetworkOk(s'.net) {
      if step.CompleteReduce? {
        ReduceKeepsNode(s.net, i == 0, s.nodes[i]);
      } else {
        FinishKeepsNode(s.net, i == 0, s.nodes[i]);
      }
    }
    assert NodeOk(s'.net, true, s'.nodes[0]);
  }

  lemma {:induction false} StepKeeps(s: State, step: Step)
    requires Inv(s) && Enabled(s, step)
    ensures Inv(Apply(s, step))
  {
    match step {
      case Write(len, id) => WriteKeeps(s, len, id);
      case Handle(i) => HandleKeeps(s, i);
      case EndReady(i) =>
        BecomeReceiverKeeps(s.net, i == 0, s.nodes[i]);
        OneNode(s, i, BecomeReceiver(s.nodes[i]), s.log);
      case Poll(i) =>
        PollKeeps(s.net, i == 0, s.nodes[i]);
        OneNode(s, i, PollReduce(s.nodes[i]), s.log);
      case Deliver(i, bytes) =>
        LandKeeps(s.net, i == 0, s.nodes[i], bytes);
        OneNode(s, i, Land(s.nodes[i], bytes), s.log);
      case CompleteReduce => CollectiveKeeps(s, step);
      case CompleteFinish => CollectiveKeeps(s, step);
    }
  }

  lemma {:induction false} RunKeeps(steps: seq<Step>, s: State)
    requires Runs(steps, s) && Inv(s)
    ensures Inv(After(steps, s)) && |After(steps, s).nodes| == |s.nodes|
    decreases |steps|
  {
    if steps != [] {
      StepKeeps(s, steps[0]);
      RunKeeps(steps[1..], Apply(s, steps[0]));
    }
  }

  // ----- In every state that a run of `n` nodes reaches -----

  ghost predicate Reachable(n: nat, s: State) {
    n > 0 && exists steps :: Runs(steps, Init(n)) && After(steps, Init(n)) == s
  }

  lemma {:induction false} ReachableKeeps(n: nat, s: State)
    requires Reachable(n, s)
    ensures Inv(s) && |s.nodes| == n
  {
    var steps :| Runs(steps, Init(n)) && After(steps, Init(n)) == s;
    RunKeeps(steps, Init(n));
  }

  /** Before a put can be injected, every node has armed its counter for that round and for none after it,
      and nothing else is on its way to any node. */
  lemma {:induction false} PutOnlyWhenAllArmed(n: nat, s: State, i: nat, j: nat)
    requires Reachable(n, s) && i < |s.nodes| && j < |s.nodes|
    requires s.nodes[j].inbox != [] && s.nodes[j].inbox[0].ReduceOrigin?
    ensures j == 0 && s.nodes[0].len == LastLen(s.net)
    ensures s.nodes[i].readied == |s.net.rounds| > 0 && s.nodes[i].counter == LastLen(s.net) > 0
      && s.nodes[i].flying == {}
  {
    ReachableKeeps(n, s);
    assert NodeOk(s.net, j == 0, s.nodes[j]) && NodeOk(s.net, i == 0, s.nodes[i]);
    AllArmed(s.net, i == 0, s.nodes[i]);
  }

  /** When a node writes its status word, all bytes of its round are in its memory. */
  lemma {:induction false} StatusOnlyWithData(n: nat, s: State, i: nat)
    requires Reachable(n, s) && Enabled(s, Poll(i))
    ensures s.net.rounds != [] && s.nodes[i].readied == |s.net.rounds| && s.nodes[i].finishes == |s.net.rounds| - 1
    ensures Whole(s.net.rounds, |s.net.rounds| - 1, s.nodes[i].landed)
  {
    ReachableKeeps(n, s);
    assert NodeOk(s.net, i == 0, s.nodes[i]);
    PollHoldsRound(s.net, i == 0, s.nodes[i]);
  }

  /** A round that any node has cleared is whole at every node. */
  lemma {:induction false} ClearedOnlyWhenAllHold(n: nat, s: State, i: nat, j: nat, r: nat)
    requires Reachable(n, s) && i < |s.nodes| && j < |s.nodes|
    requires r < s.nodes[i].cleared
    ensures r < |s.net.rounds| && Whole(s.net.rounds, r, s.nodes[j].landed)
  {
    ReachableKeeps(n, s);
    assert NodeOk(s.net, i == 0, s.nodes[i]) && NodeOk(s.net, j == 0, s.nodes[j]);
  }

  /** No two nodes are ever more than one round apart, and each contributes to each finish once, in its own round. */
  lemma {:induction false} OneRoundApart(n: nat, s: State, i: nat, j: nat)
    requires Reachable(n, s) && i < |s.nodes| && j < |s.nodes|
    ensures s.nodes[i].readied <= s.nodes[j].readied + 1
    ensures |s.net.rounds| - 1 <= s.net.finished <= s.nodes[i].finishes <= s.nodes[i].readied <= |s.net.rounds|
    ensures s.nodes[i].reduces == Loaded(s.net.rounds, s.nodes[i].readied)
    ensures s.nodes[i].cleared <= s.nodes[i].finishes <= s.nodes[i].cleared + 1
  {
    ReachableKeeps(n, s);
    assert NodeOk(s.net, i == 0, s.nodes[i]) && NodeOk(s.net, j == 0, s.nodes[j]);
  }

  /** What a write does to every node: the originator takes the request over, arms its counter with the length, and all
      nodes are sent the length; while it is busy, nothing happens. */
  lemma {:induction false} WriteReachesAll(s: State, len: nat, id: nat, i: nat)
    requires Enabled(s, Write(len, id)) && i < |s.nodes|
    ensures var s', n, n' := Apply(s, Write(len, id)), s.nodes[i], Apply(s, Write(len, id)).nodes[i];
            && |s'.nodes| == |s.nodes|
            && if s.nodes[0].st.Inactive? then
                 && WriteTo(s, len, id).1 == EINPROGRESS
                 && s'.net == Network(s.net.rounds + [Round(len, id)], s.net.reduced, s.net.finished, s.net.puts)
                 && n'.inbox == n.inbox + [Ready(len)]
                 && (i == 0 ==> (n'.st, n'.counter, n'.len, n'.id) == (Setup, len as int, len, id))
                 && n' == n.(inbox := n'.inbox, st := n'.st, counter := n'.counter, len := n'.len, id := n'.id)
                 && (i != 0 ==> n' == n.(inbox := n'.inbox))
               else s' == s && WriteTo(s, len, id).1 == EBUSY
  {
  }

  /** The requests that a run's writes found the originator inactive for, in order. */
  function Accepted(steps: seq<Step>, s: State): seq<Round>
    requires Runs(steps, s)
    decreases |steps|
  {
    if steps == [] then []
    else
      (if steps[0].Write? && s.nodes[0].st.Inactive? then [Round(steps[0].len, steps[0].id)] else []) +
      Accepted(steps[1..], Apply(s, steps[0]))
  }

  lemma {:induction false} RunRecords(steps: seq<Step>, s: State)
    requires Runs(steps, s)
    ensures After(steps, s).net.rounds == s.net.rounds + Accepted(steps, s)
    decreases |steps|
  {
    if steps != [] {
      StepRecords(s, steps[0]);
      RunRecords(steps[1..], Apply(s, steps[0]));
    }
  }

  lemma {:induction false} StepRecords(s: State, step: Step)
    requires Enabled(s, step)
    ensures Apply(s, step).net.rounds == s.net.rounds
      + if step.Write? && s.nodes[0].st.Inactive? then [Round(step.len, step.id)] else []
  {
  }

  /** Over every run, round `r` is the `r`-th accepted request, with the length and the identifier of its write. */
  lemma {:induction false} RoundsAreThoseAccepted(n: nat, steps: seq<Step>)
    requires Runs(steps, Init(n))
    ensures After(steps, Init(n)).net.rounds == Accepted(steps, Init(n))
  {
    RunRecords(steps, Init(n));
  }

  /** How many of the first `k` requests ask for a callback. */
  function Named(rounds: seq<Round>, k: nat): nat
    requires k <= |rounds|
  {
    if k == 0 then 0 else Named(rounds, k - 1) + if rounds[k - 1].id != 0 then 1 else 0
  }

  /** The log has one call, at the originator, for each of the first `k` requests with an identifier, in order. */
  predicate CalledInOrder(log: seq<(nat, nat)>, rounds: seq<Round>, k: nat)
    requires k <= |rounds|
  {
    && |log| == Named(rounds, k)
    && forall r :: 0 <= r < k && rounds[r].id != 0 ==>
         Named(rounds, r) < |log| && log[Named(rounds, r)] == (0, rounds[r].id)
  }

  lemma {:induction false} CallsCounted(rounds: seq<Round>, k: nat)
    requires k <= |rounds|
    ensures |Calls(rounds, k)| == Named(rounds, k)
  {
    if k > 0 {
      CallsCounted(rounds, k - 1);
    }
  }

  lemma {:induction false} CallAt(rounds: seq<Round>, r: nat, k: nat)
    requires r < k <= |rounds| && rounds[r].id != 0
    ensures Named(rounds, r) < |Calls(rounds, k)| && Calls(rounds, k)[Named(rounds, r)] == (0, rounds[r].id)
  {
    CallsCounted(rounds, k - 1);
    if r < k - 1 {
      CallAt(rounds, r, k - 1);
    }
  }

  lemma {:induction false} CallsInOrder(rounds: seq<Round>, k: nat)
    requires k <= |rounds|
    ensures CalledInOrder(Calls(rounds, k), rounds, k)
  {
    CallsCounted(rounds, k);
    forall r | 0 <= r < k && rounds[r].id != 0
      ensures Named(rounds, r) < |Calls(rounds, k)| && Calls(rounds, k)[Named(rounds, r)] == (0, rounds[r].id)
    {
      CallAt(rounds, r, k);
    }
  }

  /** The originator accepts a request exactly when every request before it is over everywhere, and every request it
      accepted with an identifier is called back once, in order, at the originator, when the originator clears it. */
  lemma {:induction false} AcceptedExactlyOnce(n: nat, steps: seq<Step>, s: State, len: nat, id: nat)
    requires n > 0 && Runs(steps, Init(n)) && s == After(steps, Init(n))
    ensures s.net.rounds == Accepted(steps, Init(n)) && |s.nodes| == n && s.nodes[0].cleared <= |s.net.rounds|
    ensures CalledInOrder(s.log, Accepted(steps, Init(n)), s.nodes[0].cleared)
    ensures WriteTo(s, len, id).1 == EINPROGRESS <==> s.nodes[0].cleared == |Accepted(steps, Init(n))|
    ensures WriteTo(s, len, id).1 == EINPROGRESS ==>
              forall i, r :: 0 <= i < n && 0 <= r < |s.net.rounds| ==> Whole(s.net.rounds, r, s.nodes[i].landed)
    ensures WriteTo(s, len, id).1 != EINPROGRESS ==> WriteTo(s, len, id) == (s, EBUSY)
  {
    assert Reachable(n, s);
    ReachableKeeps(n, s);
    RoundsAreThoseAccepted(n, steps);
    InactiveIff(s);
    assert NodeOk(s.net, true, s.nodes[0]);
    CallsInOrder(s.net.rounds, s.nodes[0].cleared);
    if s.nodes[0].cleared == |s.net.rounds| {
      forall i, r | 0 <= i < n && 0 <= r < |s.net.rounds| ensures Whole(s.net.rounds, r, s.nodes[i].landed) {
        assert NodeOk(s.net, i == 0, s.nodes[i]);
      }
    }
  }

  // ----- The protocol never hangs -----

  /** Neither a node nor the network has anything left to do. */
  predicate Quiet(s: State) {
    && (forall i :: 0 <= i < |s.nodes| ==> Resting(s.nodes[i]))
    && !AllReduced(s) && !AllFinished(s)
  }

  predicate Resting(n: Node) {
    n.inbox == [] && !n.inReady && !PollReady(n) && n.flying == {}
  }

  lemma {:induction false} RestingNode(net: Network, origin: bool, n: Node)
    requires NetworkOk(net) && NodeOk(net, origin, n) && Resting(n)
    ensures n.cleared == net.finished && n.readied == |net.rounds|
    ensures net.puts < Loaded(net.rounds, |net.rounds|) ==> n.reduces > net.puts && (origin ==> net.puts == net.reduced)
    ensures net.finished < |net.rounds| && Injected(net) ==> n.finishes > net.finished
  {
  }

  /** A run at rest has finished every round at every node. */
  lemma {:induction false} NothingHangs(n: nat, s: State, i: nat)
    requires Reachable(n, s) && Quiet(s) && i < |s.nodes|
    ensures s.nodes[i].st.Inactive? && s.nodes[i].cleared == |s.net.rounds|
  {
    ReachableKeeps(n, s);
    forall j | 0 <= j < |s.nodes|
      ensures s.nodes[j].cleared == s.net.finished && s.nodes[j].readied == |s.net.rounds|
      ensures s.net.puts < Loaded(s.net.rounds, |s.net.rounds|) ==>
        s.nodes[j].reduces > s.net.puts && s.net.puts == s.net.reduced
      ensures s.net.finished < |s.net.rounds| && Injected(s.net) ==> s.nodes[j].finishes > s.net.finished
    {
      RestingNode(s.net, true, s.nodes[0]);
      RestingNode(s.net, j == 0, s.nodes[j]);
    }
    assert NodeOk(s.net, i == 0, s.nodes[i]);
  }
}
