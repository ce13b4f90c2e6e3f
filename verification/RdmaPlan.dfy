/** What one remote request makes its responder send, and how the request must end. */
module RdmaPlan {
  import opened ScatterGather
  import opened RdmaWalk
  import opened RdmaTransfer

  /** A read moves the originator's bytes to the responder and ends with a completion put; a write moves bytes back. */
  datatype Kind = Read | Write

  /** A request as it travels in `ionet_send_remote_payload`: `n` bytes from list `src` to list `dst`. */
  datatype Request = Request(kind: Kind, n: nat, id: nat, src: seq<Sge>, dst: seq<Sge>)

  predicate Sensible(q: Request) {
    0 < q.n <= WALK_LIMIT
  }

  function TraceOf(q: Request): Trace {
    Walk(q.src, q.dst, q.n, 0)
  }

  /** The puts in full bundles of eight that precede the last bundle. */
  function WholeBundles(puts: seq<Put>): seq<Put> {
    if puts == [] then [] else puts[..BUNDLE * ((|puts| - 1) / BUNDLE)]
  }

  /** The puts the responder hands to the network for a request. */
  function SentPuts(q: Request): seq<Put> {
    var t := TraceOf(q);
    match q.kind
    case Write => if t.total > q.n && t.puts != [] then t.puts[..|t.puts| - 1] else t.puts
    case Read =>
      if ReadOutcome(t, q.n) == Rejected then []
      else if t.total < q.n then WholeBundles(t.puts)
      else t.puts
  }

  function Sent(q: Request): nat {
    PutTotal(SentPuts(q))
  }

  /** A read that sends something allocates an RDMA object of its own. */
  predicate NeedsObject(q: Request) {
    q.kind.Read? && ReadOutcome(TraceOf(q), q.n) != Rejected
  }

  /** What the transfer routine returns in the end: success or -EINVAL. */
  function Verdict(q: Request): int {
    if TraceOf(q).total == q.n then 0 else EINVAL
  }

  /** The value of its own counter at which the responder of a read is done. */
  function WaitFor(q: Request): nat {
    var o := ReadOutcome(TraceOf(q), q.n);
    if o.SpinsUntil? then o.counter else 0
  }

  lemma {:induction false} ReadSends(q: Request, counter: nat, t: Trace)
    requires q.kind.Read? && t == TraceOf(q)
    ensures Concat(ReadMessages(t, q.n, counter)) == Aimed(SentPuts(q), counter)
  {
    var dps := Aimed(t.puts, counter);
    if ReadOutcome(t, q.n) != Rejected {
      if t.total < q.n {
        AllButLastBundle(dps);
        assert Aimed(WholeBundles(t.puts), counter) == dps[..BUNDLE * ((|dps| - 1) / BUNDLE)];
      } else {
        BundlesRefine(dps);
      }
    }
  }

  /** The sent puts are what the two transfer routines emit. */
  lemma {:induction false} SentIsEmitted(q: Request, counter: nat)
    ensures q.kind.Write? ==> SentPuts(q) == Kept(TraceOf(q), q.n)
    ensures q.kind.Read? ==> Concat(ReadMessages(TraceOf(q), q.n, counter)) == Aimed(SentPuts(q), counter)
  {
    if q.kind.Read? {
      ReadSends(q, counter, TraceOf(q));
    }
  }

  lemma {:induction false} PrefixTotal(puts: seq<Put>, k: nat)
    requires k <= |puts|
    ensures PutTotal(puts[..k]) <= PutTotal(puts)
  {
    TransfersAppend(puts[..k], puts[k..]);
    assert puts == puts[..k] + puts[k..];
  }

  /** The request succeeds exactly when both lists cover it and it ends at an element boundary of either. */
  lemma {:induction false} VerdictIff(q: Request)
    requires Sensible(q)
    ensures Verdict(q) == 0
       <==> q.n <= Total(q.src) && q.n <= Total(q.dst) && (Boundary(q.src, q.n) || Boundary(q.dst, q.n))
  {
    WalkEnds(q.src, q.dst, q.n, 0);
  }

  /** A successful request sends exactly its bytes, in order; any other one sends no more than them. */
  lemma {:induction false} SuccessSendsAll(q: Request)
    requires Sensible(q) && Verdict(q) == 0
    ensures Sent(q) == q.n && Copies(SentPuts(q), Flatten(q.src), Flatten(q.dst), q.n)
  {
    WalkEnds(q.src, q.dst, q.n, 0);
    WalkCopies(q.src, q.dst, q.n, 0);
    TransfersLength(SentPuts(q));
  }

  lemma {:induction false} FailedWriteFallsShort(q: Request)
    requires Sensible(q) && q.kind.Write? && Verdict(q) != 0
    ensures Sent(q) < q.n
  {
    SentIsEmitted(q, 0);
    WriteCopies(q.src, q.dst, q.n);
  }

  /** What a read never sends is at least what its responder waits for. */
  lemma {:induction false} WaitCoversUnsent(q: Request)
    requires Sensible(q) && NeedsObject(q)
    ensures Sent(q) + WaitFor(q) <= q.n
    ensures WaitFor(q) > 0 ==> Verdict(q) != 0
  {
    var t := TraceOf(q);
    if t.total < q.n {
      ShortWalkTotal(q.src, q.dst, q.n, 0);
      if t.puts != [] {
        PrefixTotal(t.puts, BUNDLE * ((|t.puts| - 1) / BUNDLE));
      }
    } else {
      WalkEnds(q.src, q.dst, q.n, 0);
      WalkCopies(q.src, q.dst, q.n, 0);
      TransfersLength(t.puts);
    }
  }

  /** The puts that a read of a short walk builds and never sends. */
  function LastPuts(puts: seq<Put>): seq<Put> {
    puts[|WholeBundles(puts)|..]
  }

  /** A read whose lists are too short, found out too late to say so, with bytes in the bundle it never sends. */
  predicate NeverEnds(q: Request) {
    && q.kind.Read? && (Total(q.src) < q.n || Total(q.dst) < q.n)
    && |TraceOf(q).puts| > BUNDLE && PutTotal(LastPuts(TraceOf(q).puts)) > 0
  }

  lemma {:induction false} ShortSent(q: Request)
    requires Sensible(q) && NeedsObject(q) && TraceOf(q).total < q.n
    ensures TraceOf(q).total == Sent(q) + PutTotal(LastPuts(TraceOf(q).puts))
  {
    var puts := TraceOf(q).puts;
    ShortWalkTotal(q.src, q.dst, q.n, 0);
    TransfersAppend(WholeBundles(puts), LastPuts(puts));
    assert puts == WholeBundles(puts) + LastPuts(puts);
  }

  /** The responder of a read sends the whole request exactly when both lists cover it. */
  lemma {:induction false} SendsAllIff(q: Request)
    requires Sensible(q) && NeedsObject(q)
    ensures Sent(q) <= q.n
    ensures Sent(q) == q.n <==> q.n <= Total(q.src) && q.n <= Total(q.dst)
  {
    WalkEnds(q.src, q.dst, q.n, 0);
    if TraceOf(q).total < q.n {
      ShortSent(q);
    } else {
      WalkCopies(q.src, q.dst, q.n, 0);
      TransfersLength(TraceOf(q).puts);
    }
  }

  /** What a read never sends exceeds what its responder waits for exactly when the read never ends. */
  lemma {:induction false} NeverEndsIff(q: Request)
    requires Sensible(q) && NeedsObject(q)
    ensures Sent(q) + WaitFor(q) < q.n <==> NeverEnds(q)
  {
    WalkEnds(q.src, q.dst, q.n, 0);
    SendsAllIff(q);
    if TraceOf(q).total < q.n {
      ShortSent(q);
    }
  }

  // ----- A request that never ends -----

  /** As many elements of one byte. */
  function Ones(k: nat): seq<Sge> {
    if k == 0 then [] else [Sge(1, 1)] + Ones(k - 1)
  }

  lemma {:induction false} OnesTotal(k: nat)
    ensures Total(Ones(k)) == k
  {
    if k > 0 {
      assert Ones(k)[1..] == Ones(k - 1);
      OnesTotal(k - 1);
    }
  }

  lemma {:induction false} OnesWalk(k: nat, n: nat, total: nat)
    requires total + k < n <= WALK_LIMIT
    ensures var t := Walk(Ones(k), Ones(k), n, total);
            t.total == total + k && |t.puts| == k && forall i :: 0 <= i < k ==> t.puts[i].len == 1
  {
    if k > 0 {
      SharedElement(Sge(1, 1), Ones(k - 1), n, total);
      OnesWalk(k - 1, n, total + 1);
    }
  }

  /** A read of more bytes than its lists hold, in more than eight elements of one byte. */
  lemma {:induction false} OnesNeverEnd(k: nat, n: nat, id: nat)
    requires BUNDLE < k < n <= WALK_LIMIT
    ensures var q := Request(Read, n, id, Ones(k), Ones(k));
            Sensible(q) && NeedsObject(q) && NeverEnds(q)
  {
    OnesTotal(k);
    OnesWalk(k, n, 0);
    var last := LastPuts(TraceOf(Request(Read, n, id, Ones(k), Ones(k))).puts);
    assert last != [] && PutTotal(last) == last[0].len + PutTotal(last[1..]);
  }
}
