/** The broadcast object of one node, as its handlers update it in place. */
module BroadcastNode {
  import opened Broadcast

  /** What a handler hands to the network: the RDY broadcast, a contribution to a collective, or the collective put. */
  datatype Injection = ReadyBcast(len: nat) | Contribution(finish: bool) | CollectivePut(len: nat)

  /** The status word a request asks for; address 0 asks for none. */
  datatype StatusWord = StatusWord(address: nat, value: nat)

  class BcastObject {
    var state: BcastState
    var counter: int
    var len: nat
    var id: nat
    var status: StatusWord
    var memory: map<nat, nat>
    var injected: seq<Injection>

    /** The object as a node of the protocol. */
    ghost predicate Is(n: Node)
      reads this
    {
      state == n.st && counter == n.counter && len == n.len && id == n.id
    }

    /** `mudm_bcast_RDMA_write`. */
    method RdmaWrite(ghost s: State, length: nat, request: nat) returns (rc: int)
      requires s.nodes != [] && Is(s.nodes[0])
      modifies this
      ensures rc == WriteTo(s, length, request).1 && Is(Apply(s, Write(length, request)).nodes[0])
      ensures rc == if old(state).Inactive? then EINPROGRESS else EBUSY
      ensures rc == EBUSY ==> Is(s.nodes[0]) && injected == old(injected)
      ensures rc == EINPROGRESS ==> (state, counter, len, id) == (Setup, length as int, length, request)
      ensures rc == EINPROGRESS ==> injected == old(injected) + [ReadyBcast(length)]
      ensures memory == old(memory) && status == old(status)
    {
      if state != Inactive {
        return EBUSY;
      }
      state := Setup;
      len, id := length, request;
      counter := length;
      injected := injected + [ReadyBcast(length)];
      rc := EINPROGRESS;
    }

    /** `ready_rdma_bcast_receive_reduce`: the counter is armed before the contribution that lets the put start. */
    method ReadyReceive(ghost n: Node, length: nat, word: StatusWord)
      requires Is(n)
      modifies this
      ensures Is(BecomeReceiver(Arm(n, length))) && status == word && memory == old(memory)
      ensures state == Receiver && counter == length && len == old(len) && id == old(id)
      ensures injected == old(injected) + (if length > 0 then [Contribution(false)] else [])
      ensures |injected| - |old(injected)| == Arm(n, length).reduces - n.reduces
    {
      counter := length;
      status := word;
      if length > 0 {
        injected := injected + [Contribution(false)];
      }
      assert Is(Arm(n, length));
      state := Receiver;
    }

    /** The MUDM_REDUCE_BCAST_ORIGIN case of `mudm_recv_bcast`. */
    method StartBroadcast(ghost n: Node)
      requires Is(n)
      modifies this`injected
      ensures injected == old(injected) + (if n.len > 0 then [CollectivePut(n.len)] else [])
    {
      if len > 0 {
        injected := injected + [CollectivePut(len)];
      }
    }

    /** `rdma_bcast_poll_reduce`. */
    method Poll(ghost n: Node) returns (rc: int)
      requires Is(n)
      modifies this
      ensures rc == if PollReady(n) then 0 else EINPROGRESS
      ensures rc == 0 <==> old(counter) == 0 && old(state) == Receiver
      ensures rc == 0 ==> state == WaitForClear && counter == 0 && len == old(len) && id == old(id)
      ensures rc != 0 ==> Is(n) && injected == old(injected) && memory == old(memory)
      ensures rc == 0 ==> Is(PollReduce(n)) && injected == old(injected) + [Contribution(true)]
      ensures rc == 0 ==>
        memory == if status.address != 0 then old(memory)[status.address := status.value] else old(memory)
      ensures status == old(status)
    {
      if counter != 0 {
        return EINPROGRESS;
      }
      if state != Receiver {
        return EINPROGRESS;
      }
      if status.address != 0 {
        memory := memory[status.address := status.value];
      }
      injected := injected + [Contribution(true)];
      state := WaitForClear;
      rc := 0;
    }

    /** `clear_rdma_bcast_receive_reduce`: gives up the request and calls its owner back, if it has one. */
    method ClearReceive(ghost n: Node) returns (called: seq<nat>)
      requires Is(n)
      modifies this
      ensures Is(Clear(n)) && called == (if old(id) != 0 then [old(id)] else [])
      ensures state == Inactive && id == 0 && counter == old(counter) && len == old(len)
      ensures injected == old(injected) && memory == old(memory) && status == old(status)
    {
      var request := id;
      id := 0;
      state := Inactive;
      called := if request != 0 then [request] else [];
    }
  }
}
