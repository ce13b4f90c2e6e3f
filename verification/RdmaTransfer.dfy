/** The transfer routines of the data mover, run over lists in memory and an injection FIFO. */
module RdmaTransfer {
  import opened ScatterGather
  import opened RdmaWalk

  const EINVAL: int := -22

  /** Descriptors that fit the packet a read builds them in. */
  const BUNDLE: nat := 8

  /** A direct put and the byte counter the receiving node decrements for it. */
  datatype DirectPut = DirectPut(put: Put, counter: nat)

  /** What goes into an injection FIFO: a put, or a MUDM_DPUT message carrying puts for the other node. */
  datatype Descriptor = Direct(dp: DirectPut) | Dput(dps: seq<DirectPut>)

  /** The injection FIFO; descriptors offered while it is inactive are dropped. */
  class InjFifo {
    var active: bool
    var injected: seq<Descriptor>

    method Inject(d: Descriptor)
      modifies this`injected
      ensures injected == old(injected) + IfActive(active, [d])
    {
      if active {
        injected := injected + [d];
      }
    }
  }

  function IfActive(active: bool, ds: seq<Descriptor>): seq<Descriptor> {
    if active then ds else []
  }

  // ----- A cursor into a list in memory -----

  /** A walk for `n` bytes that has reached `total` never leaves this memory: it meets a null address or `n` first. */
  predicate Safe(list: seq<Sge>, n: nat, total: nat) {
    list != [] && (list[0].pa == 0 || Add32(total, list[0].len) >= n || Safe(list[1..], n, Add32(total, list[0].len)))
  }

  /** A list with a null address is safe for every request. */
  lemma {:induction false} TerminatedIsSafe(list: seq<Sge>, i: nat, n: nat, total: nat)
    requires i < |list| && list[i].pa == 0
    ensures Safe(list, n, total)
  {
    if i > 0 {
      TerminatedIsSafe(list[1..], i - 1, n, Add32(total, list[0].len));
    }
  }

  /** A list without one, as the verbs driver passes, is safe exactly when it covers the request. */
  lemma {:induction false} CoveringIsSafe(list: seq<Sge>, n: nat, total: nat)
    requires NonNull(list) && total < n <= WALK_LIMIT
    ensures Safe(list, n, total) <==> n - total <= Total(list)
  {
    if list != [] && total + list[0].len < n {
      CoveringIsSafe(list[1..], n, total + list[0].len);
    }
  }

  /** Element `i` of a list, consumed down to `len` bytes at `pa`. */
  datatype Cursor = Cursor(i: nat, pa: nat, len: Length)

  /** What is left of a list at a cursor. */
  ghost function View(list: seq<Sge>, c: Cursor): seq<Sge>
    requires c.i < |list|
  {
    [Sge(c.pa, c.len)] + list[c.i + 1..]
  }

  lemma {:induction false} SafeDrop(l: seq<Sge>, m: nat, n: nat, total: nat)
    requires !Ended(l) && m <= l[0].len && Safe(l, n, total) && total < U32 && Add32(total, m) < n
    ensures Safe(Drop(l, m), n, Add32(total, m))
  {
    if m < l[0].len {
      assert Drop(l, m)[1..] == l[1..];
    }
  }

  /** Consumes `m` bytes at a cursor, stepping to the next element when the current one is used up. */
  method Take(list: array<Sge>, c: Cursor, m: nat, ghost n: nat, ghost total: nat) returns (c': Cursor)
    requires c.i < list.Length && c.pa != 0 && m <= c.len && total < U32 && Add32(total, m) < n
    requires Safe(View(list[..], c), n, total)
    ensures c'.i < list.Length && c'.i == (if m == c.len then c.i + 1 else c.i)
    ensures View(list[..], c') == Drop(View(list[..], c), m)
    ensures Safe(View(list[..], c'), n, Add32(total, m))
  {
    ghost var l := View(list[..], c);
    assert l[1..] == list[..][c.i + 1..];
    SafeDrop(l, m, n, total);
    if m == c.len {
      c' := Cursor(c.i + 1, list[c.i + 1].pa, list[c.i + 1].len);
      assert l[1..] == [list[c'.i]] + list[..][c'.i + 1..];
    } else {
      c' := Cursor(c.i, c.pa + m, c.len - m);
    }
    assert View(list[..], c') == Drop(l, m);
  }

  /** Both cursors stand in their lists after `total` of the `n` bytes, and neither will run off its memory. */
  ghost predicate At(ls: seq<Sge>, rs: seq<Sge>, l: Cursor, r: Cursor, n: nat, total: nat) {
    && (total < n || total == n == 0) && total < U32 && l.i < |ls| && r.i < |rs|
    && Safe(View(ls, l), n, total) && Safe(View(rs, r), n, total)
  }

  /** The puts emitted so far and the walk still to do from the cursors make up the whole walk. */
  ghost predicate Walking(ls: seq<Sge>, rs: seq<Sge>, l: Cursor, r: Cursor, n: nat, total: nat, done: seq<Put>) {
    && At(ls, rs, l, r, n, total)
    && total <= n && Walk(ls, rs, n, 0)
       == Trace(done + Walk(View(ls, l), View(rs, r), n, total).puts, Walk(View(ls, l), View(rs, r), n, total).total)
  }

  method Begin(ls: array<Sge>, rs: array<Sge>, n: nat) returns (l: Cursor, r: Cursor)
    requires Safe(ls[..], n, 0) && Safe(rs[..], n, 0)
    ensures Walking(ls[..], rs[..], l, r, n, 0, [])
  {
    l, r := Cursor(0, ls[0].pa, ls[0].len), Cursor(0, rs[0].pa, rs[0].len);
    assert ls[..] == View(ls[..], l) && rs[..] == View(rs[..], r);
  }

  lemma {:induction false} AllWalked(ls: seq<Sge>, rs: seq<Sge>, l: Cursor, r: Cursor, n: nat, total: nat,
                                     done: seq<Put>)
    requires Walking(ls, rs, l, r, n, total, done) && (l.pa == 0 || r.pa == 0)
    ensures Walk(ls, rs, n, 0) == Trace(done, total)
  {
  }

  lemma {:induction false} WalkTurn(l: seq<Sge>, r: seq<Sge>, n: nat, total: nat, done: seq<Put>, p: Put)
    requires !Ended(l) && !Ended(r) && total <= n && p == Put(l[0].pa, r[0].pa, Min(l[0].len, r[0].len))
    ensures var t := Walk(l, r, n, total);
            var total' := Add32(total, p.len);
            && (total' >= n ==>
                 Trace(done + t.puts, t.total)
                 == Trace(done + [p.(len := if total' > n then n - total else p.len)], total'))
            && (total' < n ==> var t' := Walk(Drop(l, p.len), Drop(r, p.len), n, total');
                               Trace(done + t.puts, t.total) == Trace(done + [p] + t'.puts, t'.total))
  {
    var total' := Add32(total, p.len);
    if total' < n {
      var rest := Walk(Drop(l, p.len), Drop(r, p.len), n, total');
      assert done + ([p] + rest.puts) == done + [p] + rest.puts;
    }
  }

  /** One turn of the walk: the shorter current element is put whole and both cursors move past it. */
  method Step(ls: array<Sge>, rs: array<Sge>, l: Cursor, r: Cursor, n: nat, total: nat, ghost done: seq<Put>)
    returns (p: Put, total': nat, l': Cursor, r': Cursor)
    requires Walking(ls[..], rs[..], l, r, n, total, done) && l.pa != 0 && r.pa != 0
    ensures p == Put(l.pa, r.pa, Min(l.len, r.len)) && total' == Add32(total, p.len)
    ensures total' >= n ==>
      Walk(ls[..], rs[..], n, 0) == Trace(done + [p.(len := if total' > n then n - total else p.len)], total')
    ensures total' < n ==> Walking(ls[..], rs[..], l', r', n, total', done + [p]) && l'.i + r'.i > l.i + r.i
  {
    var m := if l.len <= r.len then l.len else r.len;
    p, total', l', r' := Put(l.pa, r.pa, m), Add32(total, m), l, r;
    WalkTurn(View(ls[..], l), View(rs[..], r), n, total, done, p);
    if total' < n {
      l' := Take(ls, l, m, n, total);
      r' := Take(rs, r, m, n, total);
    }
  }

  // ----- mudm_rdma_write -----

  /** The puts a write keeps: all of the walk's, without one that would pass the request. */
  ghost function Kept(t: Trace, n: nat): seq<Put> {
    if t.total > n && t.puts != [] then t.puts[..|t.puts| - 1] else t.puts
  }

  /** Puts aimed at one byte counter. */
  ghost function Aimed(puts: seq<Put>, counter: nat): seq<DirectPut> {
    seq(|puts|, i requires 0 <= i < |puts| => DirectPut(puts[i], counter))
  }

  ghost function Directs(dps: seq<DirectPut>): seq<Descriptor> {
    seq(|dps|, i requires 0 <= i < |dps| => Direct(dps[i]))
  }

  ghost function Puts(puts: seq<Put>, counter: nat): seq<Descriptor> {
    Directs(Aimed(puts, counter))
  }

  lemma {:induction false} PutsSnoc(puts: seq<Put>, p: Put, counter: nat)
    ensures Aimed(puts + [p], counter) == Aimed(puts, counter) + [DirectPut(p, counter)]
    ensures Puts(puts + [p], counter) == Puts(puts, counter) + [Direct(DirectPut(p, counter))]
  {
  }

  /** The loop of `mudm_rdma_write`: injects the kept puts one by one and leaves the total that decides the return
      code. */
  method InjectWalk(fifo: InjFifo, local: array<Sge>, remote: array<Sge>, n: nat, counter: nat) returns (total: nat)
    requires Safe(local[..], n, 0) && Safe(remote[..], n, 0)
    modifies fifo`injected
    ensures var t := Walk(local[..], remote[..], n, 0);
            && total == t.total
            && fifo.injected == old(fifo.injected) + IfActive(fifo.active, Puts(Kept(t, n), counter))
  {
    var l, r := Begin(local, remote, n);
    ghost var done: seq<Put> := [];
    total := 0;
    while l.pa != 0 && r.pa != 0
      invariant Walking(local[..], remote[..], l, r, n, total, done)
      invariant fifo.injected == old(fifo.injected) + IfActive(fifo.active, Puts(done, counter))
      decreases local.Length - l.i + remote.Length - r.i
    {
      var p: Put;
      p, total, l, r := Step(local, remote, l, r, n, total, done);
      if total > n {
        assert Kept(Walk(local[..], remote[..], n, 0), n) == done;
        return;
      }
      fifo.Inject(Direct(DirectPut(p, counter)));
      PutsSnoc(done, p, counter);
      done := done + [p];
      if total >= n {
        return;
      }
    }
    AllWalked(local[..], remote[..], l, r, n, total, done);
  }

  /** A write injects the walk's puts; a mismatch also injects a put of the error value into the remote error word. */
  method RdmaWrite(fifo: InjFifo, local: array?<Sge>, remote: array?<Sge>, n: nat, counter: nat, errorSource: nat)
    returns (rc: int)
    requires local != null ==> Safe(local[..], n, 0)
    requires remote != null ==> Safe(remote[..], n, 0)
    modifies fifo`injected
    ensures local == null || remote == null || n == 0 ==> rc == EINVAL && fifo.injected == old(fifo.injected)
    ensures local != null && remote != null && n > 0 ==>
      var t := Walk(local[..], remote[..], n, 0);
      var error := [Direct(DirectPut(Put(errorSource, counter + 8, 8), counter))];
      && rc == (if t.total == n then 0 else EINVAL)
      && fifo.injected == old(fifo.injected) +
         IfActive(fifo.active, Puts(Kept(t, n), counter)) + IfActive(fifo.active && t.total != n, error)
  {
    if local == null || remote == null || n == 0 {
      return EINVAL;
    }
    var total := InjectWalk(fifo, local, remote, n, counter);
    if total == n {
      return 0;
    }
    fifo.Inject(Direct(DirectPut(Put(errorSource, counter + 8, 8), counter)));
    rc := EINVAL;
  }

  // ----- mudm_rdma_read and multi_directput -----

  /** How a read ends: -EINPROGRESS, -EINVAL, or a spin on its own byte counter before reporting -EINVAL. */
  datatype Outcome = InProgress | Rejected | SpinsUntil(counter: nat)

  /** Groups of eight, the last one holding the one to eight puts that remain. */
  function Bundles(dps: seq<DirectPut>): seq<seq<DirectPut>> {
    if dps == [] then []
    else if |dps| <= BUNDLE then [dps]
    else [dps[..BUNDLE]] + Bundles(dps[BUNDLE..])
  }

  /** What the other node injects when it replays the messages one after the other. */
  function Concat(messages: seq<seq<DirectPut>>): seq<DirectPut> {
    if messages == [] then [] else messages[0] + Concat(messages[1..])
  }

  lemma {:induction false} BundlesRefine(dps: seq<DirectPut>)
    ensures Concat(Bundles(dps)) == dps
    ensures forall b :: b in Bundles(dps) ==> 1 <= |b| <= 8
    ensures forall i :: 0 <= i < |Bundles(dps)| - 1 ==> |Bundles(dps)[i]| == 8
  {
    if |dps| > BUNDLE {
      BundlesRefine(dps[BUNDLE..]);
      assert dps == dps[..BUNDLE] + dps[BUNDLE..];
    } else if dps != [] {
      assert Bundles(dps)[1..] == [];
    }
  }

  lemma {:induction false} BundlesOf(full: seq<seq<DirectPut>>, last: seq<DirectPut>)
    requires forall i :: 0 <= i < |full| ==> |full[i]| == BUNDLE
    requires 1 <= |last| <= BUNDLE
    ensures Bundles(Concat(full) + last) == full + [last]
  {
    if full != [] {
      var all := Concat(full) + last;
      BundlesOf(full[1..], last);
      assert all[BUNDLE..] == Concat(full[1..]) + last;
      assert all[..BUNDLE] == full[0];
    } else {
      assert Concat(full) + last == last;
    }
  }

  lemma {:induction false} ConcatSnoc(full: seq<seq<DirectPut>>, b: seq<DirectPut>)
    ensures Concat(full + [b]) == Concat(full) + b
  {
    if full == [] {
      assert full + [b] == [b] && Concat([b]) == b + Concat([]);
    } else {
      assert (full + [b])[1..] == full[1..] + [b];
      ConcatSnoc(full[1..], b);
    }
  }

  function Messages(bundles: seq<seq<DirectPut>>): seq<Descriptor> {
    seq(|bundles|, i requires 0 <= i < |bundles| => Dput(bundles[i]))
  }

  lemma {:induction false} AimedSnoc(full: seq<seq<DirectPut>>, pending: seq<DirectPut>, puts: seq<Put>, p: Put,
                                     counter: nat)
    requires Concat(full) + pending == Aimed(puts, counter)
    ensures Concat(full) + (pending + [DirectPut(p, counter)]) == Aimed(puts + [p], counter)
  {
    assert Concat(full) + (pending + [DirectPut(p, counter)]) == (Concat(full) + pending) + [DirectPut(p, counter)];
  }

  /** The bundles already sent and the puts waiting in the packet make up the puts of the walk so far. */
  ghost predicate Bundled(full: seq<seq<DirectPut>>, pending: seq<DirectPut>, puts: seq<Put>, counter: nat) {
    && (forall i :: 0 <= i < |full| ==> |full[i]| == BUNDLE)
    && (full != [] ==> pending != [])
    && Concat(full) + pending == Aimed(puts, counter)
  }

  lemma {:induction false} FlushBundle(full: seq<seq<DirectPut>>, pending: seq<DirectPut>, puts: seq<Put>, p: Put,
                                       counter: nat)
    requires Bundled(full, pending, puts, counter) && |pending| <= BUNDLE
    ensures |pending| < BUNDLE ==> Bundled(full, pending + [DirectPut(p, counter)], puts + [p], counter)
    ensures |pending| == BUNDLE ==> Bundled(full + [pending], [DirectPut(p, counter)], puts + [p], counter)
    ensures Messages(full + [pending]) == Messages(full) + [Dput(pending)]
  {
    AimedSnoc(full, pending, puts, p, counter);
    if |pending| == BUNDLE {
      ConcatSnoc(full, pending);
      assert Concat(full) + (pending + [DirectPut(p, counter)]) == Concat(full + [pending]) + [DirectPut(p, counter)];
    }
  }

  /** Stores one more put in the packet, sending the packet first when it already holds eight. */
  method AddToPacket(fifo: InjFifo, packet: array<DirectPut>, count: nat, sent: bool, p: Put, counter: nat,
                     ghost base: seq<Descriptor>, ghost full: seq<seq<DirectPut>>, ghost done: seq<Put>)
    returns (count': nat, sent': bool, ghost full': seq<seq<DirectPut>>)
    requires fifo.active && packet.Length == BUNDLE && count <= BUNDLE && Bundled(full, packet[..count], done, counter)
    requires fifo.injected == base + Messages(full) && sent == (full != [])
    modifies fifo`injected, packet
    ensures 0 < count' <= BUNDLE && Bundled(full', packet[..count'], done + [p], counter)
    ensures fifo.injected == base + Messages(full') && sent' == (full' != [])
  {
    FlushBundle(full, packet[..count], done, p, counter);
    ghost var pending := packet[..count];
    count', sent', full' := count, sent, full;
    if count == BUNDLE {
      fifo.Inject(Dput(packet[..]));
      full' := full + [pending];
      count', sent' := 0, true;
      assert packet[..] == pending;
    }
    packet[count'] := DirectPut(p, counter);
    count' := count' + 1;
    assert packet[..count'] == packet[..count' - 1] + [DirectPut(p, counter)];
  }

  /** The loop of `mudm_rdma_read`: fills the packet with puts and sends it whenever a ninth put needs the room. */
  method BundleWalk(fifo: InjFifo, packet: array<DirectPut>, local: array<Sge>, remote: array<Sge>, n: nat,
                    counter: nat)
    returns (total: nat, count: nat, sent: bool, ghost full: seq<seq<DirectPut>>)
    requires fifo.active && packet.Length == BUNDLE && Safe(local[..], n, 0) && Safe(remote[..], n, 0)
    modifies fifo`injected, packet
    ensures total == Walk(remote[..], local[..], n, 0).total && count <= BUNDLE && sent == (full != [])
    ensures Bundled(full, packet[..count], Walk(remote[..], local[..], n, 0).puts, counter)
    ensures fifo.injected == old(fifo.injected) + Messages(full)
  {
    var r, l := Begin(remote, local, n);
    ghost var done: seq<Put> := [];
    total, count, sent, full := 0, 0, false, [];
    while l.pa != 0 && r.pa != 0
      invariant Walking(remote[..], local[..], r, l, n, total, done)
      invariant count <= BUNDLE && sent == (full != []) && Bundled(full, packet[..count], done, counter)
      invariant fifo.injected == old(fifo.injected) + Messages(full)
      decreases local.Length - l.i + remote.Length - r.i
    {
      var p: Put;
      var before := total;
      p, total, r, l := Step(remote, local, r, l, n, total, done);
      if total > n {
        p := p.(len := n - before);
      }
      count, sent, full := AddToPacket(fifo, packet, count, sent, p, counter, old(fifo.injected), full, done);
      done := done + [p];
      if total >= n {
        return;
      }
    }
    AllWalked(remote[..], local[..], r, l, n, total, done);
  }

  /** How a read ends, given its walk. Nothing has been sent yet as long as at most eight puts were built. */
  function ReadOutcome(t: Trace, n: nat): Outcome {
    if t.total == n then InProgress
    else if |t.puts| <= BUNDLE then Rejected
    else if t.total > n then SpinsUntil(0)
    else SpinsUntil(n - t.total)
  }

  /** The messages a read sends, given its walk: a short walk never sends its last bundle. */
  ghost function ReadMessages(t: Trace, n: nat, counter: nat): seq<seq<DirectPut>> {
    var all := Bundles(Aimed(t.puts, counter));
    if ReadOutcome(t, n) == Rejected then []
    else if t.total < n && all != [] then all[..|all| - 1]
    else all
  }

  lemma {:induction false} ConcatLength(full: seq<seq<DirectPut>>)
    requires forall i :: 0 <= i < |full| ==> |full[i]| == BUNDLE
    ensures |Concat(full)| == BUNDLE * |full|
  {
    if full != [] {
      ConcatLength(full[1..]);
    }
  }

  lemma {:induction false} BundledMeans(full: seq<seq<DirectPut>>, pending: seq<DirectPut>, puts: seq<Put>,
                                        counter: nat)
    requires Bundled(full, pending, puts, counter) && |pending| <= BUNDLE
    ensures full == [] <==> |puts| <= BUNDLE
    ensures Bundles(Aimed(puts, counter)) == full + (if pending == [] then [] else [pending])
  {
    ConcatLength(full);
    if pending != [] {
      BundlesOf(full, pending);
    } else {
      assert puts == [] && Aimed(puts, counter) == [];
    }
  }

  method RdmaRead(fifo: InjFifo, packet: array<DirectPut>, local: array<Sge>, remote: array<Sge>, n: nat, counter: nat,
                  remoteObject: nat, errorSource: nat) returns (outcome: Outcome)
    requires fifo.active && packet.Length == BUNDLE && Safe(local[..], n, 0) && Safe(remote[..], n, 0)
    modifies fifo`injected, packet
    ensures var t := Walk(remote[..], local[..], n, 0);
            var error := [Direct(DirectPut(Put(errorSource, remoteObject + 8, 8), remoteObject))];
            && outcome == ReadOutcome(t, n)
            && fifo.injected == old(fifo.injected) + Messages(ReadMessages(t, n, counter)) +
               IfActive(outcome == Rejected && remoteObject != 0, error)
  {
    ghost var before := fifo.injected;
    ghost var t := Walk(remote[..], local[..], n, 0);
    var total, count, sent, full := BundleWalk(fifo, packet, local, remote, n, counter);
    ghost var pending := packet[..count];
    BundledMeans(full, pending, t.puts, counter);
    assert Messages(full + [pending]) == Messages(full) + [Dput(pending)];
    if total == n {
      if count > 0 {
        fifo.Inject(Dput(packet[..count]));
      }
      outcome := InProgress;
    } else if !sent {
      if remoteObject != 0 {
        fifo.Inject(Direct(DirectPut(Put(errorSource, remoteObject + 8, 8), remoteObject)));
      }
      outcome := Rejected;
    } else if total > n {
      if count > 0 {
        fifo.Inject(Dput(packet[..count]));
      }
      outcome := SpinsUntil(0);
    } else {
      outcome := SpinsUntil(n - total);
    }
  }

  /** The receiving node replays a MUDM_DPUT message; the header's size field counts 32-byte chunks after the first. */
  method MultiDirectput(fifo: InjFifo, message: array<DirectPut>, sizeField: nat)
    requires sizeField == (32 + 64 * message.Length) / 32 - 1
    modifies fifo`injected
    ensures fifo.injected == old(fifo.injected) + IfActive(fifo.active, Directs(message[..]))
  {
    var descriptors := sizeField / 2;
    var i := 0;
    while i < descriptors
      invariant i <= descriptors == message.Length
      invariant fifo.injected == old(fifo.injected) + IfActive(fifo.active, Directs(message[..i]))
    {
      fifo.Inject(Direct(message[i]));
      assert message[..i + 1] == message[..i] + [message[i]];
      i := i + 1;
    }
    assert message[..] == message[..i];
  }

  // ----- What the transfers achieve -----

  lemma {:induction false} CopiesPrefix(a: seq<Put>, b: seq<Put>, src: seq<nat>, dst: seq<nat>, n: nat)
    requires Copies(a + b, src, dst, n)
    ensures PutTotal(a) + PutTotal(b) == n
    ensures Copies(a, src, dst, PutTotal(a))
  {
    TransfersAppend(a, b);
    TransfersLength(a);
    TransfersLength(a + b);
    forall i | 0 <= i < PutTotal(a)
      ensures Transfers(a)[i] == (src[i], dst[i])
    {
      assert Transfers(a + b)[i] == Transfers(a)[i];
    }
  }

  /** A walk that passes the request ends in a put that still moves something. */
  lemma {:induction false} LastPutMoves(src: seq<Sge>, dst: seq<Sge>, n: nat, total: nat)
    requires total < n && Walk(src, dst, n, total).total > n
    ensures var puts := Walk(src, dst, n, total).puts; puts != [] && puts[|puts| - 1].len > 0
    decreases |src| + |dst|
  {
    var m := Min(src[0].len, dst[0].len);
    if Add32(total, m) < n {
      LastPutMoves(Drop(src, m), Drop(dst, m), n, Add32(total, m));
    }
  }

  /** A write succeeds exactly when both lists cover the request and it ends at a boundary of either. */
  lemma {:induction false} WriteSucceedsIff(local: seq<Sge>, remote: seq<Sge>, n: nat)
    requires 0 < n <= WALK_LIMIT
    ensures Walk(local, remote, n, 0).total == n
       <==> n <= Total(local) && n <= Total(remote) && (Boundary(local, n) || Boundary(remote, n))
  {
    WalkEnds(local, remote, n, 0);
  }

  /** A write copies from the start of one list to the start of the other: all of the request when it succeeds, less
      otherwise. */
  lemma {:induction false} WriteCopies(local: seq<Sge>, remote: seq<Sge>, n: nat)
    requires 0 < n <= WALK_LIMIT
    ensures var t := Walk(local, remote, n, 0);
            var moved := PutTotal(Kept(t, n));
            && Copies(Kept(t, n), Flatten(local), Flatten(remote), moved)
            && moved <= n && (t.total == n <==> moved == n)
  {
    var t := Walk(local, remote, n, 0);
    var kept := Kept(t, n);
    WalkEnds(local, remote, n, 0);
    WalkCopies(local, remote, n, 0);
    if t.total > n {
      LastPutMoves(local, remote, n, 0);
      var last := t.puts[|t.puts| - 1];
      assert t.puts == kept + [last];
      CopiesPrefix(kept, [last], Flatten(local), Flatten(remote), n);
      assert PutTotal([last]) == last.len + PutTotal([]);
    } else {
      TransfersLength(kept);
    }
  }

  /** The messages of a read whose walk does not fall short. */
  lemma {:induction false} MessagesReplay(t: Trace, n: nat, counter: nat)
    requires t.total >= n
    ensures var messages := ReadMessages(t, n, counter);
            && (ReadOutcome(t, n) != InProgress && |t.puts| <= BUNDLE ==> messages == [])
            && (ReadOutcome(t, n) == InProgress || |t.puts| > BUNDLE ==> Concat(messages) == Aimed(t.puts, counter))
            && (forall b :: b in messages ==> 1 <= |b| <= BUNDLE)
  {
    BundlesRefine(Aimed(t.puts, counter));
  }

  lemma {:induction false} CoveredWalk(src: seq<Sge>, dst: seq<Sge>, n: nat)
    requires 0 < n <= WALK_LIMIT && n <= Total(src) && n <= Total(dst)
    ensures var t := Walk(src, dst, n, 0);
            && Copies(t.puts, Flatten(src), Flatten(dst), n) && PutTotal(t.puts) == n
            && t.total >= n && (t.total == n <==> Boundary(src, n) || Boundary(dst, n))
  {
    WalkEnds(src, dst, n, 0);
    WalkCopies(src, dst, n, 0);
    TransfersLength(Walk(src, dst, n, 0).puts);
  }

  /** When both lists cover the request, what the other node replays is the plain walk and copies the request exactly;
      only an overshoot within the first eight puts sends nothing at all. */
  lemma {:induction false} ReadSendsAllOrNothing(local: seq<Sge>, remote: seq<Sge>, n: nat, counter: nat)
    requires 0 < n <= WALK_LIMIT && n <= Total(local) && n <= Total(remote)
    ensures var t := Walk(remote, local, n, 0);
            var messages := ReadMessages(t, n, counter);
            && Copies(t.puts, Flatten(remote), Flatten(local), n) && PutTotal(t.puts) == n
            && (ReadOutcome(t, n) == InProgress <==> Boundary(local, n) || Boundary(remote, n))
            && (ReadOutcome(t, n) != InProgress && |t.puts| <= BUNDLE ==> messages == [])
            && (ReadOutcome(t, n) == InProgress || |t.puts| > BUNDLE ==> Concat(messages) == Aimed(t.puts, counter))
            && (forall b :: b in messages ==> 1 <= |b| <= BUNDLE)
  {
    CoveredWalk(remote, local, n);
    MessagesReplay(Walk(remote, local, n, 0), n, counter);
  }

  function BytesOf(dps: seq<DirectPut>): nat {
    if dps == [] then 0 else dps[0].put.len + BytesOf(dps[1..])
  }

  lemma {:induction false} BytesOfAimed(puts: seq<Put>, counter: nat)
    ensures BytesOf(Aimed(puts, counter)) == PutTotal(puts)
  {
    if puts != [] {
      assert Aimed(puts, counter)[1..] == Aimed(puts[1..], counter);
      BytesOfAimed(puts[1..], counter);
    }
  }

  lemma {:induction false} ShortWalkTotal(src: seq<Sge>, dst: seq<Sge>, n: nat, total: nat)
    requires total < n <= WALK_LIMIT && Walk(src, dst, n, total).total < n
    ensures Walk(src, dst, n, total).total == total + PutTotal(Walk(src, dst, n, total).puts)
    decreases |src| + |dst|
  {
    if !Ended(src) && !Ended(dst) {
      var m, src', dst' := WalkOnce(src, dst, n, total);
      ShortWalkTotal(src', dst', n, total + m);
      PrependTotal(Put(src[0].pa, dst[0].pa, m), Walk(src', dst', n, total + m));
    }
  }

  lemma {:induction false} BytesOfAppend(a: seq<DirectPut>, b: seq<DirectPut>)
    ensures BytesOf(a + b) == BytesOf(a) + BytesOf(b)
  {
    if a == [] {
      assert a + b == b;
    } else {
      assert (a + b)[1..] == a[1..] + b;
      BytesOfAppend(a[1..], b);
    }
  }

  /** The bundle that a read fills last. */
  function LastBundle(dps: seq<DirectPut>): seq<DirectPut>
    requires dps != []
  {
    dps[BUNDLE * ((|dps| - 1) / BUNDLE)..]
  }

  lemma {:induction false} AllButLastBundle(dps: seq<DirectPut>)
    requires dps != []
    ensures var all := Bundles(dps);
            all != [] && Concat(all[..|all| - 1]) == dps[..BUNDLE * ((|dps| - 1) / BUNDLE)]
  {
    if |dps| > BUNDLE {
      var head, tail := dps[..BUNDLE], dps[BUNDLE..];
      AllButLastBundle(tail);
      var all, rest := Bundles(dps), Bundles(tail);
      assert all[..|all| - 1] == [head] + rest[..|rest| - 1];
      var k := BUNDLE * ((|tail| - 1) / BUNDLE);
      assert head + tail[..k] == dps[..BUNDLE + k];
    }
  }

  /** A read of more than eight puts whose lists fall short waits for the bytes of its whole walk, and never sends
      its last bundle: what its messages leave of the counter is the value it waits for if and only if that bundle
      carries nothing. */
  lemma {:induction false} ShortReadEndsIff(local: seq<Sge>, remote: seq<Sge>, n: nat, counter: nat, t: Trace)
    requires 0 < n <= WALK_LIMIT && (Total(local) < n || Total(remote) < n)
    requires t == Walk(remote, local, n, 0) && |t.puts| > BUNDLE
    ensures t.total < n && ReadOutcome(t, n) == SpinsUntil(n - t.total)
    ensures var left := n - BytesOf(Concat(ReadMessages(t, n, counter)));
            var last := LastBundle(Aimed(t.puts, counter));
            && left == ReadOutcome(t, n).counter + BytesOf(last)
            && (left == ReadOutcome(t, n).counter <==> BytesOf(last) == 0)
  {
    WalkEnds(remote, local, n, 0);
    ShortWalkTotal(remote, local, n, 0);
    AllButLastBytes(Aimed(t.puts, counter));
    BytesOfAimed(t.puts, counter);
  }

  lemma {:induction false} AllButLastBytes(dps: seq<DirectPut>)
    requires dps != []
    ensures var all := Bundles(dps);
            all != [] && BytesOf(Concat(all[..|all| - 1])) + BytesOf(LastBundle(dps)) == BytesOf(dps)
  {
    var k := BUNDLE * ((|dps| - 1) / BUNDLE);
    AllButLastBundle(dps);
    BytesOfAppend(dps[..k], LastBundle(dps));
    assert dps == dps[..k] + LastBundle(dps);
  }
}
