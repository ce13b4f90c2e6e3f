/** The receive queue of a queue pair: posted entries, arriving messages, status callbacks and the completion queue. */
module RecvQueue {
  import opened ScatterGather

  const EINVAL: int := -22
  const ENOMEM: int := -12

  /** Completion status values; any non-zero one is an error. */
  const SUCCESS: int := 0
  const LOC_LEN_ERR: int := 1
  const REM_ABORT_ERR: int := 16

  datatype WqeState = Init | Run | Done

  /** A receive work-queue entry. `ticket` is its place in posting order, `sge` its buffer as physical elements. */
  datatype Wqe = Wqe(ticket: nat, wrId: nat, sge: seq<Sge>, state: WqeState, length: nat, status: int, imm: nat)

  /** What the application asks for: an identifier, a number of ranges, and the elements they translate to. */
  datatype RecvWr = RecvWr(wrId: nat, numSge: nat, sge: seq<Sge>)

  datatype Cqe = Cqe(ticket: nat, wrId: nat, length: nat, status: int, withImm: bool)

  /** How `mudm_rdma_read` answers for a remote message: the transfer has started, is over at once, or was
      cancelled; any other answer, as the one for lists that do not fit the request, stops the kernel. */
  datatype ReadStart = Started | Over | Cancelled | Refused

  datatype Message = Immediate(data: seq<nat>) | Remote(length: nat, imm: nat, read: ReadStart)

  // ----- What each event does to one entry -----

  /** `bgvrnic_recv_immed`. */
  function TakeImmediate(w: Wqe, n: nat): Wqe {
    var cap := Total(w.sge);
    w.(state := Done, length := Min(n, cap), status := if cap < n then LOC_LEN_ERR else SUCCESS)
  }

  /** `bgvrnic_recv_remote`; the recorded length is that of the buffer. */
  function TakeRemote(w: Wqe, n: nat, imm: nat, read: ReadStart): Wqe {
    var cap := Total(w.sge);
    w.(state := if read.Started? then Run else Done, length := cap, imm := if imm != 0 then imm else w.imm,
       status := if read.Cancelled? then REM_ABORT_ERR else if cap < n then LOC_LEN_ERR else w.status)
  }

  function TakeMessage(w: Wqe, m: Message): Wqe {
    match m
    case Immediate(data) => TakeImmediate(w, |data|)
    case Remote(n, imm, read) => TakeRemote(w, n, imm, read)
  }

  /** The receive case of `mu_status_cb`. */
  function Report(w: Wqe, status: int): Wqe {
    w.(state := Done, status := if w.status < 0 then status else w.status)
  }

  /** `bgvrnic_add_cqe`; the flag for immediate data looks at the data itself. */
  function CompletionOf(w: Wqe): Cqe {
    Cqe(w.ticket, w.wrId, w.length, w.status, w.imm != 0)
  }

  // ----- The queue -----

  /** Done entries at the front. */
  function DoneFront(rq: seq<Wqe>): (n: nat)
    ensures n <= |rq|
  {
    if rq == [] || !rq[0].state.Done? then 0 else 1 + DoneFront(rq[1..])
  }

  lemma {:induction false} DoneFrontIsLongest(rq: seq<Wqe>)
    ensures DoneFront(rq) <= |rq|
    ensures forall i :: 0 <= i < DoneFront(rq) ==> rq[i].state.Done?
    ensures DoneFront(rq) < |rq| ==> !rq[DoneFront(rq)].state.Done?
  {
    if rq != [] && rq[0].state.Done? {
      DoneFrontIsLongest(rq[1..]);
    }
  }

  function Completions(ws: seq<Wqe>): (cs: seq<Cqe>)
    ensures |cs| == |ws| && forall i :: 0 <= i < |ws| ==> cs[i] == CompletionOf(ws[i])
  {
    seq(|ws|, i requires 0 <= i < |ws| => CompletionOf(ws[i]))
  }

  /** A new entry, as `bgvrnic_alloc_wqe` sets it up. */
  function NewWqe(ticket: nat, wr: RecvWr): Wqe {
    Wqe(ticket, wr.wrId, wr.sge, Init, 0, 0, 0)
  }

  function Fresh(first: nat, wrs: seq<RecvWr>): (ws: seq<Wqe>)
    ensures |ws| == |wrs| && forall i :: 0 <= i < |wrs| ==> ws[i] == NewWqe(first + i, wrs[i])
  {
    seq(|wrs|, i requires 0 <= i < |wrs| => NewWqe(first + i, wrs[i]))
  }

  /** The leading work requests that a post accepts: none beyond the first with too many ranges. */
  function Accepted(wrs: seq<RecvWr>, maxSge: nat): (n: nat)
    ensures n <= |wrs| && forall i :: 0 <= i < n ==> wrs[i].numSge <= maxSge
    ensures n < |wrs| ==> wrs[n].numSge > maxSge
  {
    if wrs == [] || wrs[0].numSge > maxSge then 0 else 1 + Accepted(wrs[1..], maxSge)
  }

  /** An entry in the queue: the first `taken` entries posted have had a message, the others none; no status is ever
      negative. */
  predicate EntryOk(w: Wqe, ticket: nat, taken: nat) {
    && w.ticket == ticket && (w.state.Init? <==> ticket >= taken)
    && w.status in {SUCCESS, LOC_LEN_ERR, REM_ABORT_ERR}
    && (w.state.Init? ==> w.status == SUCCESS && w.imm == 0)
  }

  predicate CompletionOk(c: Cqe, ticket: nat) {
    c.ticket == ticket && c.status in {SUCCESS, LOC_LEN_ERR, REM_ABORT_ERR}
  }

  /** The completion queue holds the first entries posted, in posting order, and the receive queue the others, in
      posting order. */
  predicate Consistent(rq: seq<Wqe>, cq: seq<Cqe>, posted: nat, taken: nat) {
    && posted == |cq| + |rq| && |cq| <= taken <= posted
    && (forall i :: 0 <= i < |cq| ==> CompletionOk(cq[i], i))
    && (forall i :: 0 <= i < |rq| ==> EntryOk(rq[i], |cq| + i, taken))
  }

  lemma {:induction false} CompleteFront(rq: seq<Wqe>, cq: seq<Cqe>, posted: nat, taken: nat)
    requires Consistent(rq, cq, posted, taken) && rq != [] && rq[0].state.Done?
    ensures Consistent(rq[1..], cq + [CompletionOf(rq[0])], posted, taken)
  {
    assert EntryOk(rq[0], |cq|, taken);
    forall i | 0 <= i < |rq[1..]| ensures EntryOk(rq[1..][i], |cq| + 1 + i, taken) {
      assert EntryOk(rq[i + 1], |cq| + (i + 1), taken);
    }
  }

  // ----- The queue pair as a function of its events -----

  datatype Queue = Queue(rq: seq<Wqe>, cq: seq<Cqe>, posted: nat, taken: nat)

  datatype Event = Posts(wrs: seq<RecvWr>) | Arrives(m: Message) | Reports(ticket: nat, status: int)

  /** Done entries move from the front of the queue to the completion queue. */
  function Drain(q: Queue): Queue {
    var n := DoneFront(q.rq);
    q.(cq := q.cq + Completions(q.rq[..n]), rq := q.rq[n..])
  }

  predicate Possible(q: Queue, e: Event) {
    e.Reports? ==> |q.cq| <= e.ticket < q.taken && q.taken <= |q.cq| + |q.rq|
  }

  /** A message finds an entry that has had none. */
  predicate Finds(q: Queue) {
    |q.cq| <= q.taken < |q.cq| + |q.rq|
  }

  /** The event stops the kernel. */
  predicate Stops(q: Queue, e: Event) {
    e.Arrives? && e.m.Remote? && e.m.read.Refused? && Finds(q)
  }

  function Apply(q: Queue, e: Event): Queue
    requires Possible(q, e) && !Stops(q, e)
  {
    match e
    case Posts(wrs) => q.(rq := q.rq + Fresh(q.posted, wrs), posted := q.posted + |wrs|)
    case Arrives(m) =>
      if Finds(q) then
        var w := q.taken - |q.cq|;
        Drain(q.(rq := q.rq[w := TakeMessage(q.rq[w], m)], taken := q.taken + 1))
      else q
    case Reports(ticket, status) =>
      var w := ticket - |q.cq|;
      Drain(q.(rq := q.rq[w := Report(q.rq[w], status)]))
  }

  predicate Orderly(q: Queue) {
    Consistent(q.rq, q.cq, q.posted, q.taken) && (q.rq != [] ==> !q.rq[0].state.Done?)
  }

  lemma {:induction false} DrainStep(q: Queue)
    requires q.rq != [] && q.rq[0].state.Done?
    ensures Drain(q) == Drain(q.(rq := q.rq[1..], cq := q.cq + [CompletionOf(q.rq[0])]))
  {
    var n := DoneFront(q.rq);
    assert q.rq[..n][1..] == q.rq[1..][..n - 1];
    assert Completions(q.rq[..n]) == [CompletionOf(q.rq[0])] + Completions(q.rq[1..][..n - 1]);
  }

  lemma {:induction false} DrainKeeps(q: Queue)
    requires Consistent(q.rq, q.cq, q.posted, q.taken)
    ensures Orderly(Drain(q))
    decreases |q.rq|
  {
    if q.rq != [] && q.rq[0].state.Done? {
      CompleteFront(q.rq, q.cq, q.posted, q.taken);
      DrainKeeps(q.(rq := q.rq[1..], cq := q.cq + [CompletionOf(q.rq[0])]));
      DrainStep(q);
    } else {
      assert q.rq[0..] == q.rq && q.cq + [] == q.cq;
    }
  }

  lemma {:induction false} PostKeeps(q: Queue, wrs: seq<RecvWr>)
    requires Orderly(q)
    ensures Orderly(Apply(q, Posts(wrs)))
  {
    var q' := Apply(q, Posts(wrs));
    forall i | 0 <= i < |q'.rq| ensures EntryOk(q'.rq[i], |q.cq| + i, q.taken) {
      assert i < |q.rq| ==> EntryOk(q.rq[i], |q.cq| + i, q.taken);
    }
  }

  lemma {:induction false} PostMore(q: Queue, wrs: seq<RecvWr>, k: nat)
    requires k < |wrs|
    ensures Apply(Apply(q, Posts(wrs[..k])), Posts([wrs[k]])) == Apply(q, Posts(wrs[..k + 1]))
  {
    assert Fresh(q.posted, wrs[..k + 1]) == Fresh(q.posted, wrs[..k]) + Fresh(q.posted + k, [wrs[k]]);
  }

  lemma {:induction false} ArriveKeeps(q: Queue, m: Message)
    requires Orderly(q) && q.taken < |q.cq| + |q.rq|
    ensures var w := q.taken - |q.cq|;
            w < |q.rq| && Consistent(q.rq[w := TakeMessage(q.rq[w], m)], q.cq, q.posted, q.taken + 1)
  {
    var w := q.taken - |q.cq|;
    var rq := q.rq[w := TakeMessage(q.rq[w], m)];
    forall i | 0 <= i < |rq| ensures EntryOk(rq[i], |q.cq| + i, q.taken + 1) {
      assert EntryOk(q.rq[i], |q.cq| + i, q.taken);
    }
  }

  lemma {:induction false} ReportKeeps(q: Queue, ticket: nat, status: int)
    requires Orderly(q) && |q.cq| <= ticket < q.taken
    ensures var w := ticket - |q.cq|;
            w < |q.rq| && Consistent(q.rq[w := Report(q.rq[w], status)], q.cq, q.posted, q.taken)
  {
    var w := ticket - |q.cq|;
    var rq := q.rq[w := Report(q.rq[w], status)];
    forall i | 0 <= i < |rq| ensures EntryOk(rq[i], |q.cq| + i, q.taken) {
      assert EntryOk(q.rq[i], |q.cq| + i, q.taken);
    }
  }

  lemma {:induction false} ArrivesKeeps(q: Queue, m: Message)
    requires Orderly(q) && !Stops(q, Arrives(m))
    ensures Orderly(Apply(q, Arrives(m)))
  {
    if Finds(q) {
      ArriveKeeps(q, m);
      var w := q.taken - |q.cq|;
      DrainKeeps(q.(rq := q.rq[w := TakeMessage(q.rq[w], m)], taken := q.taken + 1));
    }
  }

  lemma {:induction false} ReportsKeeps(q: Queue, ticket: nat, status: int)
    requires Orderly(q) && Possible(q, Reports(ticket, status))
    ensures Orderly(Apply(q, Reports(ticket, status)))
  {
    ReportKeeps(q, ticket, status);
    var w := ticket - |q.cq|;
    DrainKeeps(q.(rq := q.rq[w := Report(q.rq[w], status)]));
  }

  lemma {:induction false} ApplyKeeps(q: Queue, e: Event)
    requires Orderly(q) && Possible(q, e) && !Stops(q, e)
    ensures Orderly(Apply(q, e))
  {
    match e {
      case Posts(wrs) => PostKeeps(q, wrs);
      case Arrives(m) => ArrivesKeeps(q, m);
      case Reports(ticket, status) => ReportsKeeps(q, ticket, status);
    }
  }

  predicate Runs(q: Queue, es: seq<Event>)
    decreases |es|
  {
    es == [] || (Possible(q, es[0]) && !Stops(q, es[0]) && Runs(Apply(q, es[0]), es[1..]))
  }

  function After(q: Queue, es: seq<Event>): Queue
    requires Runs(q, es)
    decreases |es|
  {
    if es == [] then q else After(Apply(q, es[0]), es[1..])
  }

  /** The posting-order place of the entry that an event's message takes, if there is one. */
  function Match(q: Queue, e: Event): seq<nat> {
    if e.Arrives? && Finds(q) then [q.rq[q.taken - |q.cq|].ticket] else []
  }

  /** The places of the entries that the data messages of a run took, one after the other. */
  function Matches(q: Queue, es: seq<Event>): seq<nat>
    requires Runs(q, es)
    decreases |es|
  {
    if es == [] then [] else Match(q, es[0]) + Matches(Apply(q, es[0]), es[1..])
  }

  lemma {:induction false} MatchIsNext(q: Queue, e: Event)
    requires Orderly(q) && Possible(q, e) && !Stops(q, e)
    ensures Apply(q, e).taken == q.taken + |Match(q, e)|
    ensures Match(q, e) != [] ==> Match(q, e) == [q.taken]
  {
    if Match(q, e) != [] {
      assert EntryOk(q.rq[q.taken - |q.cq|], q.taken, q.taken);
    }
  }

  /** Over every run, the k-th message that finds an entry takes the k-th entry posted, completions are in posting
      order, and no entry whose predecessors are complete is left done but not completed. */
  lemma {:induction false} FifoMatching(q: Queue, es: seq<Event>)
    requires Orderly(q) && Runs(q, es)
    ensures Orderly(After(q, es))
    ensures |Matches(q, es)| == After(q, es).taken - q.taken
    ensures forall k :: 0 <= k < |Matches(q, es)| ==> Matches(q, es)[k] == q.taken + k
    decreases |es|
  {
    if es != [] {
      var q', rest := Apply(q, es[0]), es[1..];
      ApplyKeeps(q, es[0]);
      MatchIsNext(q, es[0]);
      FifoMatching(q', rest);
      var m, ms := Match(q, es[0]), Matches(q', rest);
      forall k | 0 <= k < |m + ms| ensures (m + ms)[k] == q.taken + k {
        assert k >= |m| ==> (m + ms)[k] == ms[k - |m|];
      }
    }
  }

  // ----- What completions tell, over every run -----

  function PostedBy(e: Event): seq<RecvWr> {
    if e.Posts? then e.wrs else []
  }

  function TakenBy(q: Queue, e: Event): seq<Message> {
    if e.Arrives? && Finds(q) then [e.m] else []
  }

  function ReportedBy(e: Event): set<nat> {
    if e.Reports? then {e.ticket} else {}
  }

  /** The work requests that a run's events post, in order. */
  function Posted(es: seq<Event>): seq<RecvWr> {
    if es == [] then [] else PostedBy(es[0]) + Posted(es[1..])
  }

  /** The messages of a run that find an entry, in order. */
  function Taken(q: Queue, es: seq<Event>): seq<Message>
    requires Runs(q, es)
    decreases |es|
  {
    if es == [] then [] else TakenBy(q, es[0]) + Taken(Apply(q, es[0]), es[1..])
  }

  /** The entries that status callbacks have reported on. */
  function Reported(es: seq<Event>): set<nat> {
    if es == [] then {} else ReportedBy(es[0]) + Reported(es[1..])
  }

  /** What the application is told of request `wr` when message `m` has used it: its own identifier; the bytes it got of
      an immediate message, or the room it had for a remote one; whether that was too little; and whether the message
      brought a non-zero word of immediate data. */
  predicate Tells(c: Cqe, wr: RecvWr, m: Message) {
    var room := Total(wr.sge);
    && c.wrId == wr.wrId
    && match m
       case Immediate(data) =>
         c.length == Min(|data|, room) && c.status == (if |data| <= room then SUCCESS else LOC_LEN_ERR) && !c.withImm
       case Remote(n, imm, read) =>
         && c.length == room && (c.withImm <==> imm != 0)
         && c.status == if read == Cancelled then REM_ABORT_ERR else if n <= room then SUCCESS else LOC_LEN_ERR
  }

  /** Nothing more is to come for the entry: its message was handled at once, or its transfer has been reported on. */
  predicate Settled(m: Message, ticket: nat, reported: set<nat>) {
    (m.Remote? ==> m.read != Started) || ticket in reported
  }

  /** The entries of the queue and the completions, in terms of the requests posted and the messages taken so far. */
  predicate Recorded(q: Queue, wrs: seq<RecvWr>, ms: seq<Message>, reported: set<nat>) {
    && q.posted == |wrs| == |q.cq| + |q.rq| && |q.cq| <= q.taken == |ms| <= |wrs|
    && (forall t :: t in reported ==> t < q.taken)
    && (forall k :: 0 <= k < |q.cq| ==> Tells(q.cq[k], wrs[k], ms[k]) && Settled(ms[k], k, reported))
    && (forall i :: 0 <= i < |q.rq| ==> Follows(q.rq[i], |q.cq| + i, wrs, ms, reported))
  }

  predicate Follows(w: Wqe, t: nat, wrs: seq<RecvWr>, ms: seq<Message>, reported: set<nat>)
    requires t < |wrs|
  {
    && w.wrId == wrs[t].wrId && w.sge == wrs[t].sge
    && (w.state.Init? <==> t >= |ms|) && (w.state.Init? ==> w.status == SUCCESS && w.imm == 0)
    && (t < |ms| ==> Tells(CompletionOf(w), wrs[t], ms[t]) && (w.state.Done? <==> Settled(ms[t], t, reported)))
  }

  lemma {:induction false} DrainRecords(q: Queue, wrs: seq<RecvWr>, ms: seq<Message>, reported: set<nat>)
    requires Recorded(q, wrs, ms, reported)
    ensures Recorded(Drain(q), wrs, ms, reported)
    decreases |q.rq|
  {
    if q.rq != [] && q.rq[0].state.Done? {
      var q' := q.(rq := q.rq[1..], cq := q.cq + [CompletionOf(q.rq[0])]);
      assert Follows(q.rq[0], |q.cq| + 0, wrs, ms, reported);
      forall i | 0 <= i < |q'.rq| ensures Follows(q'.rq[i], |q'.cq| + i, wrs, ms, reported) {
        assert Follows(q.rq[i + 1], |q.cq| + (i + 1), wrs, ms, reported);
      }
      DrainRecords(q', wrs, ms, reported);
      DrainStep(q);
    } else {
      assert q.rq[0..] == q.rq && q.cq + [] == q.cq;
    }
  }

  lemma {:induction false} PostRecords(q: Queue, wrs: seq<RecvWr>, ms: seq<Message>, reported: set<nat>,
                                       more: seq<RecvWr>)
    requires Recorded(q, wrs, ms, reported)
    ensures Recorded(Apply(q, Posts(more)), wrs + more, ms, reported)
  {
    var q' := Apply(q, Posts(more));
    forall i | 0 <= i < |q'.rq| ensures Follows(q'.rq[i], |q.cq| + i, wrs + more, ms, reported) {
      assert i < |q.rq| ==> Follows(q.rq[i], |q.cq| + i, wrs, ms, reported);
    }
  }

  lemma {:induction false} TakeRecords(w: Wqe, t: nat, wrs: seq<RecvWr>, ms: seq<Message>, reported: set<nat>,
                                       m: Message)
    requires t == |ms| < |wrs| && t !in reported && Follows(w, t, wrs, ms, reported) && (m.Remote? ==> !m.read.Refused?)
    ensures Follows(TakeMessage(w, m), t, wrs, ms + [m], reported)
  {
  }

  lemma {:induction false} ArriveRecords(q: Queue, wrs: seq<RecvWr>, ms: seq<Message>, reported: set<nat>, m: Message)
    requires Recorded(q, wrs, ms, reported) && Finds(q) && !Stops(q, Arrives(m))
    ensures Recorded(Apply(q, Arrives(m)), wrs, ms + [m], reported)
  {
    var w := q.taken - |q.cq|;
    var q' := q.(rq := q.rq[w := TakeMessage(q.rq[w], m)], taken := q.taken + 1);
    forall i | 0 <= i < |q'.rq| ensures Follows(q'.rq[i], |q'.cq| + i, wrs, ms + [m], reported) {
      assert Follows(q.rq[i], |q.cq| + i, wrs, ms, reported);
      if i == w {
        TakeRecords(q.rq[w], q.taken, wrs, ms, reported, m);
      }
    }
    DrainRecords(q', wrs, ms + [m], reported);
  }

  lemma {:induction false} ReportRecords(q: Queue, wrs: seq<RecvWr>, ms: seq<Message>, reported: set<nat>, ticket: nat,
                                         status: int)
    requires Recorded(q, wrs, ms, reported) && Possible(q, Reports(ticket, status))
    ensures Recorded(Apply(q, Reports(ticket, status)), wrs, ms, reported + {ticket})
  {
    var w := ticket - |q.cq|;
    var q' := q.(rq := q.rq[w := Report(q.rq[w], status)]);
    forall i | 0 <= i < |q'.rq| ensures Follows(q'.rq[i], |q'.cq| + i, wrs, ms, reported + {ticket}) {
      assert Follows(q.rq[i], |q.cq| + i, wrs, ms, reported);
    }
    DrainRecords(q', wrs, ms, reported + {ticket});
  }

  lemma {:induction false} ApplyRecords(q: Queue, e: Event, wrs: seq<RecvWr>, ms: seq<Message>, reported: set<nat>)
    requires Possible(q, e) && !Stops(q, e) && Recorded(q, wrs, ms, reported)
    ensures Recorded(Apply(q, e), wrs + PostedBy(e), ms + TakenBy(q, e), reported + ReportedBy(e))
  {
    assert wrs + [] == wrs && ms + [] == ms && reported + {} == reported;
    match e {
      case Posts(more) => PostRecords(q, wrs, ms, reported, more);
      case Arrives(m) =>
        if Finds(q) {
          ArriveRecords(q, wrs, ms, reported, m);
        }
      case Reports(ticket, status) => ReportRecords(q, wrs, ms, reported, ticket, status);
    }
  }

  lemma {:induction false} RunJoins(q: Queue, es: seq<Event>, wrs: seq<RecvWr>, ms: seq<Message>, reported: set<nat>)
    requires Runs(q, es) && es != []
    ensures wrs + Posted(es) == wrs + PostedBy(es[0]) + Posted(es[1..])
    ensures ms + Taken(q, es) == ms + TakenBy(q, es[0]) + Taken(Apply(q, es[0]), es[1..])
    ensures reported + Reported(es) == reported + ReportedBy(es[0]) + Reported(es[1..])
  {
    Associates(wrs, PostedBy(es[0]), Posted(es[1..]));
    Associates(ms, TakenBy(q, es[0]), Taken(Apply(q, es[0]), es[1..]));
  }

  lemma {:induction false} RunRecords(q: Queue, es: seq<Event>, wrs: seq<RecvWr>, ms: seq<Message>, reported: set<nat>)
    requires Runs(q, es) && Recorded(q, wrs, ms, reported)
    ensures Recorded(After(q, es), wrs + Posted(es), ms + Taken(q, es), reported + Reported(es))
    decreases |es|
  {
    if es == [] {
      assert wrs + [] == wrs && ms + [] == ms && reported + {} == reported;
    } else {
      var e, rest := es[0], es[1..];
      ApplyRecords(q, e, wrs, ms, reported);
      RunRecords(Apply(q, e), rest, wrs + PostedBy(e), ms + TakenBy(q, e), reported + ReportedBy(e));
      RunJoins(q, es, wrs, ms, reported);
    }
  }

  /** Over every run of a new queue pair, completion k tells of the k-th request posted and the k-th message taken; and
      as many entries are complete as have nothing more to come, in posting order without a gap. */
  lemma {:induction false} CompletionsTell(es: seq<Event>, q: Queue)
    requires Runs(Queue([], [], 0, 0), es) && q == After(Queue([], [], 0, 0), es)
    ensures var wrs, ms := Posted(es), Taken(Queue([], [], 0, 0), es);
            && |q.cq| <= |ms| <= |wrs|
            && (forall k :: 0 <= k < |q.cq| ==> Tells(q.cq[k], wrs[k], ms[k]) && Settled(ms[k], k, Reported(es)))
            && (|q.cq| < |ms| ==> !Settled(ms[|q.cq|], |q.cq|, Reported(es)))
  {
    var q0 := Queue([], [], 0, 0);
    var wrs, ms, reported := Posted(es), Taken(q0, es), Reported(es);
    RunRecords(q0, es, [], [], {});
    assert [] + wrs == wrs && [] + ms == ms && {} + reported == reported;
    FifoMatching(q0, es);
    if |q.cq| < |ms| {
      assert Follows(q.rq[0], |q.cq| + 0, wrs, ms, reported);
    }
  }

  // ----- The queue pair in memory -----

  datatype Arrival = Matched | Disconnected | Stopped

  class QueuePair {
    var rq: seq<Wqe>
    var cq: seq<Cqe>
    var posted: nat
    var taken: nat
    const maxSge: nat

    constructor (max: nat)
      ensures Valid() && rq == [] && cq == [] && posted == taken == 0 && maxSge == max
    {
      rq, cq, posted, taken, maxSge := [], [], 0, 0, max;
    }

    /** Between any two events no done entry is left at the front. */
    predicate Valid()
      reads this
    {
      Orderly(State())
    }

    function State(): Queue
      reads this
    {
      Queue(rq, cq, posted, taken)
    }

    /** `bgvrnic_process_recv_wqes`: moves done entries from the front of the queue to the completion queue. */
    method ProcessRecvWqes()
      requires Consistent(rq, cq, posted, taken)
      modifies this`rq, this`cq
      ensures Valid()
      ensures State() == Drain(old(State()))
    {
      while rq != [] && rq[0].state.Done?
        invariant Consistent(rq, cq, posted, taken) && Drain(State()) == Drain(old(State()))
        decreases |rq|
      {
        CompleteHead();
      }
      DrainKeeps(State());
      assert rq[0..] == rq && cq + Completions(rq[..0]) == cq;
    }

    /** One turn of the loop. */
    method CompleteHead()
      requires Consistent(rq, cq, posted, taken) && rq != [] && rq[0].state.Done?
      modifies this`rq, this`cq
      ensures Consistent(rq, cq, posted, taken) && |rq| == |old(rq)| - 1
      ensures Drain(State()) == Drain(old(State()))
    {
      CompleteFront(rq, cq, posted, taken);
      DrainStep(State());
      cq := cq + [CompletionOf(rq[0])];
      rq := rq[1..];
    }

    /** `bgvrnic_post_recv`: appends entries until one has too many ranges or `memory` allocations have succeeded. */
    method PostRecv(wrs: seq<RecvWr>, memory: nat) returns (rc: int, bad: nat)
      requires Valid()
      modifies this`rq, this`posted
      ensures Valid() && bad == Min(Accepted(wrs, maxSge), memory)
      ensures State() == Apply(old(State()), Posts(wrs[..bad]))
      ensures rc == if bad == |wrs| then 0 else if bad == Accepted(wrs, maxSge) then EINVAL else ENOMEM
    {
      bad, rc := 0, 0;
      ghost var q, left := State(), wrs;
      assert Fresh(posted, wrs[..0]) == [];
      while bad < |wrs|
        invariant bad <= |wrs| && left == wrs[bad..] && Accepted(wrs, maxSge) == bad + Accepted(left, maxSge)
          && bad <= memory
        invariant State() == Apply(q, Posts(wrs[..bad]))
      {
        if wrs[bad].numSge > maxSge {
          rc := EINVAL;
          break;
        }
        if bad == memory {
          rc := ENOMEM;
          break;
        }
        PostMore(q, wrs, bad);
        PostOne(wrs[bad]);
        bad := bad + 1;
        left := left[1..];
      }
      PostKeeps(q, wrs[..bad]);
    }

    method PostOne(wr: RecvWr)
      modifies this`rq, this`posted
      ensures State() == Apply(old(State()), Posts([wr]))
    {
      rq := rq + [NewWqe(posted, wr)];
      posted := posted + 1;
    }

    /** The data cases of `mu_recv_cb`: the message goes to the first entry that has had none; without one, the
        queue pair is disconnected; and a remote message whose read is refused stops the kernel. */
    method Arrive(m: Message) returns (r: Arrival)
      requires Valid()
      modifies this`rq, this`cq, this`taken
      ensures posted == old(posted) && (r == Disconnected <==> old(taken) == posted)
      ensures r == Stopped <==> old(taken) < posted && m.Remote? && m.read == Refused
      ensures r != Stopped ==> Valid() && State() == Apply(old(State()), Arrives(m))
    {
      var i := FirstUnused();
      if i == |rq| {
        return Disconnected;
      }
      if m.Remote? && m.read.Refused? {
        return Stopped;
      }
      ArriveKeeps(State(), m);
      rq := rq[i := TakeMessage(rq[i], m)];
      taken := taken + 1;
      ProcessRecvWqes();
      r := Matched;
    }

    /** The search for an entry that has had no message. */
    method FirstUnused() returns (i: nat)
      requires Valid()
      ensures i <= |rq| && taken == |cq| + i
    {
      i := 0;
      while i < |rq| && rq[i].state != Init
        invariant i <= |rq| && forall j :: 0 <= j < i ==> !rq[j].state.Init?
      {
        i := i + 1;
      }
      if i < |rq| {
        assert EntryOk(rq[i], |cq| + i, taken);
      }
      if i > 0 {
        assert EntryOk(rq[i - 1], |cq| + i - 1, taken);
      }
    }

    /** The receive case of `mu_status_cb`, for an entry whose transfer had started. */
    method StatusCallback(ticket: nat, status: int)
      requires Valid() && |cq| <= ticket < taken
      modifies this`rq, this`cq
      ensures Valid() && posted == old(posted) && taken == old(taken)
      ensures State() == Apply(old(State()), Reports(ticket, status))
    {
      var w := ticket - |cq|;
      ReportKeeps(State(), ticket, status);
      rq := rq[w := Report(rq[w], status)];
      ProcessRecvWqes();
    }
  }

  // ----- Copying an immediate message -----

  /** Bytes of a message stored at the addresses of a buffer, in order. */
  ghost predicate Stores(stores: seq<(nat, nat)>, addresses: seq<nat>, data: seq<nat>, n: nat) {
    && n <= |addresses| && n <= |data| && |stores| == n
    && forall i :: 0 <= i < n ==> stores[i] == (addresses[i], data[i])
  }

  /** `memcpy`. */
  function CopyTo(pa: nat, data: seq<nat>): (stores: seq<(nat, nat)>)
    ensures |stores| == |data| && forall i :: 0 <= i < |data| ==> stores[i] == (pa + i, data[i])
  {
    seq(|data|, i requires 0 <= i < |data| => (pa + i, data[i]))
  }

  lemma {:induction false} FlattenSplit(list: seq<Sge>, i: nat)
    requires i < |list| && NonNull(list)
    ensures Flatten(list[..i + 1]) == Flatten(list[..i]) + Range(list[i].pa, list[i].len)
    ensures Flatten(list) == Flatten(list[..i]) + (Range(list[i].pa, list[i].len) + Flatten(list[i + 1..]))
  {
    var e := list[i];
    assert list[..i + 1] == list[..i] + [e] && list == list[..i] + list[i..];
    FlattenAppend(list[..i], [e]);
    FlattenAppend(list[..i], list[i..]);
    assert Flatten([e]) == Range(e.pa, e.len) + Flatten([e][1..]);
    assert list[i..][1..] == list[i + 1..];
  }

  lemma {:induction false} StoresMore(stores: seq<(nat, nat)>, psge: seq<Sge>, i: nat, data: seq<nat>, done: nat,
                                      chunk: nat)
    requires i < |psge| && NonNull(psge) && done == |Flatten(psge[..i])| && chunk <= psge[i].len
      && done + chunk <= |data|
    requires Stores(stores, Flatten(psge), data, done)
    ensures done + chunk <= |Flatten(psge)|
    ensures Stores(stores + CopyTo(psge[i].pa, data[done..done + chunk]), Flatten(psge), data, done + chunk)
    ensures chunk == psge[i].len ==> done + chunk == |Flatten(psge[..i + 1])|
  {
    FlattenSplit(psge, i);
    var all := stores + CopyTo(psge[i].pa, data[done..done + chunk]);
    forall k | 0 <= k < done + chunk ensures all[k] == (Flatten(psge)[k], data[k]) {
      if k >= done {
        assert Flatten(psge)[k] == Range(psge[i].pa, psge[i].len)[k - done];
        assert all[k] == CopyTo(psge[i].pa, data[done..done + chunk])[k - done];
      }
    }
  }

  /** The copy loop of `bgvrnic_recv_immed`: element after element, until the length is used up. */
  method CopyImmediate(psge: seq<Sge>, data: seq<nat>, length: nat) returns (stores: seq<(nat, nat)>)
    requires NonNull(psge) && length <= Total(psge) && length <= |data|
    ensures Stores(stores, Flatten(psge), data, length)
  {
    var i: nat, left: nat := 0, length;
    stores := [];
    FlattenLength(psge);
    assert psge[..0] == [] && psge[..|psge|] == psge;
    while left > 0
      invariant i <= |psge| && left <= length
      invariant Stores(stores, Flatten(psge), data, length - left)
      invariant left > 0 ==> length - left == |Flatten(psge[..i])|
      decreases left, |psge| - i
    {
      var chunk := Min(left, psge[i].len);
      var done := length - left;
      StoresMore(stores, psge, i, data, done, chunk);
      stores := stores + CopyTo(psge[i].pa, data[done..done + chunk]);
      left := left - chunk;
      if chunk >= psge[i].len {
        i := i + 1;
      }
    }
  }

  // ----- What completions tell -----

  /** A status callback never changes what the completion says: the entry's own status is never negative, so an error
      reported for the transfer is lost. */
  lemma {:induction false} CallbackStatusIsLost(w: Wqe, ticket: nat, taken: nat, status: int)
    requires EntryOk(w, ticket, taken)
    ensures CompletionOf(Report(w, status)) == CompletionOf(w)
  {
  }

  /** The length a completion gives for a remote message is that of the message exactly when the message fills the
      buffer. */
  lemma {:induction false} RemoteLengthIff(w: Wqe, n: nat, imm: nat, read: ReadStart)
    ensures CompletionOf(TakeRemote(w, n, imm, read)).length == Min(n, Total(w.sge)) <==> n >= Total(w.sge)
  {
  }

  /** A message that does not fit is flagged, and one that does is not, unless its transfer was cancelled. */
  lemma {:induction false} TooLongIff(w: Wqe, ticket: nat, taken: nat, m: Message)
    requires EntryOk(w, ticket, taken) && w.state.Init? && (m.Remote? ==> !m.read.Cancelled?)
    ensures CompletionOf(TakeMessage(w, m)).status == LOC_LEN_ERR
       <==> (match m case Immediate(data) => |data| case Remote(n, _, _) => n) > Total(w.sge)
  {
  }
}
