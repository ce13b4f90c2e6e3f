/** The flight recorder of `trace_impl.h`: the ring writer and the resumable decoder, on logs in memory. */
module FlightRecorder {
  import opened FlightMerge
  import opened Remainders

  /** How many logs one decode can merge. */
  const MAX_LOGS: nat := 8

  /** The slot of ticket `n`. */
  function Slot(n: nat, size: nat): (s: nat)
    requires size > 0
    ensures s < size
  {
    n % size
  }

  lemma {:induction false} NextSlot(n: nat, size: nat)
    requires size > 0
    ensures Slot(n + 1, size) == Next(Slot(n, size), size)
  {
    var q, r := n / size, n % size;
    assert n == size * q + r;
    if r + 1 == size {
      assert size * (q + 1) == size * q + size;
      Remainder(n + 1, q + 1, 0, size);
    } else {
      Remainder(n + 1, q, r + 1, size);
    }
  }

  /** Going `n` slots on from `base`, at most once round. */
  function Wrap(n: nat, size: nat): nat {
    if n < size then n else n - size
  }

  /** One log and its entry in the registry: `last...` remember where a decode stopped. */
  class FlightLog {
    const log: array<Entry>
    const ids: nat
    var lock: nat
    var lastSet: bool
    var lastState: nat
    var lastTotal: nat
    var lastOffset: nat

    constructor (size: nat, numIds: nat)
      requires size > 0
      ensures Valid() && fresh(log) && ids == numIds && lock == 0 && !lastSet
      ensures log[..] == seq(size, _ => BLANK)
    {
      log := new Entry[size](_ => BLANK);
      ids := numIds;
      lock, lastSet, lastState, lastTotal, lastOffset := 0, false, 0, 0, 0;
      new;
      assert log[..] == seq(size, _ => BLANK);
    }

    ghost predicate Valid()
      reads this
    {
      && log.Length > 0 && lastTotal <= log.Length
      && (lastSet ==> lastState == Wrap(Slot(lastOffset, log.Length) + lastTotal, log.Length))
    }

    /** The log all the way round from the slot to be written next. */
    ghost function Contents(): seq<Entry>
      requires Valid()
      reads this, log
    {
      Round(log[..], Slot(lock, log.Length))
    }

    /** What is left to decode: nothing decoded yet leaves out blank slots at the front. */
    ghost function Remaining(): Source
      requires Valid()
      reads this, log
    {
      if lastSet then Source(Round(log[..], Slot(lastOffset, log.Length))[lastTotal..], true, ids)
      else Source(DropBlank(Contents()), false, ids)
    }

    /** `Kernel_WriteFlightLog`: takes a ticket and fills its slot; the oldest entry makes room for the new one. */
    method Write(e: Entry) returns (slot: nat)
      requires Valid()
      modifies this`lock, log
      ensures Valid() && lock == old(lock) + 1
      ensures slot == Slot(old(lock), log.Length) && log[..] == old(log[..])[slot := e]
      ensures Contents() == old(Contents())[1..] + [e]
    {
      slot := Slot(lock, log.Length);
      NextSlot(lock, log.Length);
      lock := lock + 1;
      log[slot] := e;
    }

    /** A position in the log, `total` slots on from where the decode started, and what follows it. */
    ghost predicate At(count: nat, total: nat, left: seq<Entry>)
      requires Valid()
      reads this, log
    {
      && total <= log.Length && count == Wrap(Slot(lastOffset, log.Length) + total, log.Length)
      && left == Round(log[..], Slot(lastOffset, log.Length))[total..]
    }

    /** The log stands at a position with `s` still to decode. */
    ghost predicate Stands(s: Source, count: nat, total: nat)
      reads this, log
    {
      Valid() && Remaining() == s && At(count, total, s.left)
    }

    /** The start of a decode: a fresh one skips blank slots, a resumed one goes on where the last one stopped. */
    method Begin() returns (count: nat, total: nat)
      requires Valid()
      modifies this`lastOffset
      ensures Valid() && At(count, total, Remaining().left)
      ensures Remaining() == old(Remaining())
    {
      if lastSet {
        return lastState, lastTotal;
      }
      lastOffset := lock;
      count, total := Slot(lock, log.Length), 0;
      ghost var round := Contents();
      while total < log.Length
        invariant total <= log.Length && count == Wrap(Slot(lock, log.Length) + total, log.Length)
        invariant DropBlank(round[total..]) == DropBlank(round)
      {
        assert round[total..][0] == log[count] && round[total..][1..] == round[total + 1..];
        if log[count].id != 0 {
          return;
        }
        count := Next(count, log.Length);
        total := total + 1;
      }
      assert round[total..] == [];
    }

    /** Whether there is an entry left, and an earlier one than any seen so far. */
    method Earlier(count: nat, total: nat, nexttime: nat, ghost left: seq<Entry>) returns (found: bool, time: nat)
      requires Valid() && At(count, total, left)
      ensures found <==> left != [] && left[0].time < nexttime
      ensures time == if found then left[0].time else nexttime
    {
      found := total < log.Length && log[count].time < nexttime;
      time := if found then log[count].time else nexttime;
    }

    /** Takes the next entry and remembers how far the decode has come. */
    method Advance(count: nat, total: nat, ghost s: Source) returns (count': nat, total': nat, e: Entry, started: bool)
      requires Valid() && Remaining() == s && At(count, total, s.left) && s.left != []
      modifies this`lastSet, this`lastState, this`lastTotal
      ensures Valid() && e == s.left[0] && started == s.started
      ensures Remaining() == Source(s.left[1..], true, s.ids) && At(count', total', s.left[1..])
    {
      started := lastSet;
      e := log[count];
      count' := Next(count, log.Length);
      total' := total + 1;
      lastSet, lastState, lastTotal := true, count', total';
    }
  }

  // ----- Decoding several logs -----

  predicate Distinct(rings: seq<FlightLog>) {
    forall i, j :: 0 <= i < j < |rings| ==> rings[i] != rings[j]
  }

  /** What each log still has to decode. */
  ghost predicate Have(rings: seq<FlightLog>, ss: seq<Source>)
    reads rings, set r | r in rings :: r.log
  {
    |ss| == |rings| && forall i :: 0 <= i < |rings| ==> rings[i].Valid() && rings[i].Remaining() == ss[i]
  }

  /** The local positions of a decode, one per log. */
  ghost predicate Positions(rings: seq<FlightLog>, ss: seq<Source>, count: array<nat>, total: array<nat>)
    reads rings, set r | r in rings :: r.log
    reads count, total
  {
    && count.Length == total.Length == MAX_LOGS && |ss| == |rings| <= MAX_LOGS && count != total
    && forall i :: 0 <= i < |rings| ==> rings[i].Stands(ss[i], count[i], total[i])
  }

  /** The search for the earliest entry; `|rings|` when there is none. */
  method Select(rings: seq<FlightLog>, ghost ss: seq<Source>, count: array<nat>, total: array<nat>) returns (lsel: nat)
    requires Positions(rings, ss, count, total)
    ensures lsel == Pick(ss)
  {
    var nexttime: nat := NEVER;
    lsel := |rings|;
    var l := 0;
    ghost var best := 0;
    while l < |rings|
      invariant l <= |rings| && best == PickFrom(ss, l)
      invariant if best == l then lsel == |rings| && nexttime == NEVER
        else lsel == best && nexttime == ss[best].left[0].time
    {
      assert rings[l].Stands(ss[l], count[l], total[l]);
      var found: bool;
      found, nexttime := rings[l].Earlier(count[l], total[l], nexttime, ss[l].left);
      if found {
        lsel := l;
      }
      l := l + 1;
      best := PickFrom(ss, l);
    }
  }

  /** The first `l` logs have their positions, the others are as they were. */
  ghost predicate Begun(rings: seq<FlightLog>, ss: seq<Source>, count: array<nat>, total: array<nat>, l: nat)
    reads rings, set r | r in rings :: r.log
    reads count, total
  {
    && count.Length == total.Length == MAX_LOGS && |ss| == |rings| <= MAX_LOGS && count != total
    && (forall i :: l <= i < |rings| ==> rings[i].Valid() && rings[i].Remaining() == ss[i])
    && (forall i :: 0 <= i < l && i < |rings| ==> rings[i].Stands(ss[i], count[i], total[i]))
  }

  method BeginOne(rings: seq<FlightLog>, ghost ss: seq<Source>, count: array<nat>, total: array<nat>, l: nat)
    requires l < |rings| && Begun(rings, ss, count, total, l) && Distinct(rings)
    modifies rings[l], count, total
    ensures Begun(rings, ss, count, total, l + 1)
  {
    var r := rings[l];
    var c, t := r.Begin();
    count[l], total[l] := c, t;
    assert r.Stands(ss[l], count[l], total[l]);
  }

  /** The first part of a decode: finds out where each log starts. */
  method BeginAll(rings: seq<FlightLog>, ghost ss: seq<Source>, count: array<nat>, total: array<nat>)
    requires Have(rings, ss) && Distinct(rings) && |rings| <= MAX_LOGS && count.Length == total.Length == MAX_LOGS
      && count != total
    modifies rings, count, total
    ensures Positions(rings, ss, count, total)
  {
    var l := 0;
    while l < |rings|
      invariant l <= |rings| && Begun(rings, ss, count, total, l)
    {
      BeginOne(rings, ss, count, total, l);
      l := l + 1;
    }
  }

  /** Decodes the next entry of the selected log. */
  method DecodeOne(rings: seq<FlightLog>, ghost ss: seq<Source>, count: array<nat>, total: array<nat>, lsel: nat)
    returns (t: Token)
    requires Positions(rings, ss, count, total) && Distinct(rings)
    requires lsel < |rings| && ss[lsel].left != []
    modifies rings[lsel], count, total
    ensures t == TokenOf(ss, lsel)
    ensures Positions(rings, Take(ss, lsel), count, total)
  {
    var r := rings[lsel];
    assert r.Stands(ss[lsel], count[lsel], total[lsel]);
    var c, n, e, started := r.Advance(count[lsel], total[lsel], ss[lsel]);
    count[lsel], total[lsel] := c, n;
    var valid := e.id < r.ids;
    t := Token(lsel, e, valid, !started && valid);
    assert r.Stands(Take(ss, lsel)[lsel], c, n);
  }

  /** One turn of the decoding loop: emits a token, or stops because nothing or too little room is left. */
  method Turn(rings: seq<FlightLog>, ghost ss: seq<Source>, ghost rest: seq<Token>, count: array<nat>,
              total: array<nat>, room: nat)
    returns (more: nat, ts: seq<Token>, ghost left: seq<Source>, ghost rest': seq<Token>)
    requires Positions(rings, ss, count, total) && Distinct(rings) && rest == Merge(ss)
    modifies rings, count, total
    ensures Positions(rings, left, count, total) && rest' == Merge(left)
    ensures ts == [] ==> rest' == rest && if more == 0 then rest == [] else room < MIN_BUFFER
    ensures ts != [] ==>
      ts == [ts[0]] && rest == [ts[0]] + rest' && more != 0 && room >= MIN_BUFFER && Size(left) < Size(ss)
  {
    left, ts, rest' := ss, [], rest;
    var lsel := Select(rings, ss, count, total);
    if lsel == |rings| {
      more := 0;
      return;
    }
    more := rings[lsel].lastOffset + total[lsel] + lsel * 0x1_0000_0000_0000 + 1;
    if room < MIN_BUFFER {
      return;
    }
    var t := DecodeOne(rings, ss, count, total, lsel);
    TakeShrinks(ss, lsel);
    ts, left, rest' := [t], Take(ss, lsel), Merge(Take(ss, lsel));
  }

  /** The tokens of a call so far, all valid, those still to come, and the room left in the buffer. */
  ghost predicate EmittedSoFar(all: seq<Token>, bufferSize: nat, tokens: seq<Token>, rest: seq<Token>, room: nat) {
    && all == tokens + rest && room + TextSize(tokens) == bufferSize
    && forall i :: 0 <= i < |tokens| ==> tokens[i].valid
  }

  lemma {:induction false} EmitOne(all: seq<Token>, bufferSize: nat, tokens: seq<Token>, t: Token, rest: seq<Token>,
                                   room: nat)
    requires EmittedSoFar(all, bufferSize, tokens, [t] + rest, room) && room >= MIN_BUFFER
    ensures all == tokens + [t] + rest && room - t.entry.chars + TextSize(tokens + [t]) == bufferSize
    ensures t.valid ==> EmittedSoFar(all, bufferSize, tokens + [t], rest, room - t.entry.chars)
  {
    TextSizeSnoc(tokens, t);
    assert tokens + ([t] + rest) == tokens + [t] + rest;
  }

  /** A turn of the loop with its token added to what was emitted; it stops after an invalid token. */
  method TurnAndEmit(rings: seq<FlightLog>, ghost ss: seq<Source>, ghost all: seq<Token>, ghost rest: seq<Token>,
                     count: array<nat>, total: array<nat>, bufferSize: nat, tokens: seq<Token>, room: nat)
    returns (more: nat, stop: bool, tokens': seq<Token>, room': nat, ghost left: seq<Source>, ghost rest': seq<Token>)
    requires Positions(rings, ss, count, total) && Distinct(rings) && rest == Merge(ss)
    requires EmittedSoFar(all, bufferSize, tokens, rest, room)
    modifies rings, count, total
    ensures Positions(rings, left, count, total) && rest' == Merge(left)
    ensures !stop ==> EmittedSoFar(all, bufferSize, tokens', rest', room') && Size(left) < Size(ss)
    ensures stop ==> Stopped(all, bufferSize, tokens', rest', more)
  {
    var ts: seq<Token>;
    more, ts, left, rest' := Turn(rings, ss, rest, count, total, room);
    tokens', room', stop := tokens, room, true;
    if ts != [] {
      EmitOne(all, bufferSize, tokens, ts[0], rest', room);
      tokens' := tokens + [ts[0]];
      room' := room - ts[0].entry.chars;
      stop := !ts[0].valid;
    }
  }

  /** What a call has emitted when it stops, and why it stops. */
  ghost predicate Stopped(all: seq<Token>, bufferSize: nat, tokens: seq<Token>, rest: seq<Token>, more: nat) {
    && all == tokens + rest && TextSize(tokens) <= bufferSize
    && (forall i :: 0 <= i < |tokens| - 1 ==> tokens[i].valid)
    && if more == 0 then rest == []
       else bufferSize - TextSize(tokens) < MIN_BUFFER || (tokens != [] && !tokens[|tokens| - 1].valid)
  }

  /** The loop of a decode. */
  method DecodeFrom(rings: seq<FlightLog>, ghost ss: seq<Source>, ghost all: seq<Token>, count: array<nat>,
                    total: array<nat>, bufferSize: nat)
    returns (tokens: seq<Token>, more: nat, ghost left: seq<Source>, ghost rest: seq<Token>)
    requires Positions(rings, ss, count, total) && Distinct(rings) && all == Merge(ss)
    modifies rings, count, total
    ensures Positions(rings, left, count, total) && rest == Merge(left)
    ensures Stopped(all, bufferSize, tokens, rest, more)
  {
    var room: nat, stop: bool := bufferSize, false;
    tokens, left, rest, more := [], ss, all, 0;
    while !stop
      invariant Positions(rings, left, count, total) && rest == Merge(left)
      invariant if stop then Stopped(all, bufferSize, tokens, rest, more)
        else EmittedSoFar(all, bufferSize, tokens, rest, room)
      decreases !stop, Size(left)
    {
      more, stop, tokens, room, left,
        rest := TurnAndEmit(rings, left, all, rest, count, total, bufferSize, tokens, room);
    }
  }

  /** `Kernel_DecodeFlightLogs`. */
  method Decode(rings: seq<FlightLog>, ghost ss: seq<Source>, bufferSize: nat)
    returns (tokens: seq<Token>, more: nat, ghost left: seq<Source>)
    requires Have(rings, ss) && Distinct(rings) && |rings| <= MAX_LOGS
    modifies rings
    ensures Have(rings, left) && Decodes(ss, bufferSize, tokens, more != 0, left)
  {
    var count, total := new nat[MAX_LOGS], new nat[MAX_LOGS];
    BeginAll(rings, ss, count, total);
    ghost var rest;
    tokens, more, left, rest := DecodeFrom(rings, ss, Merge(ss), count, total, bufferSize);
    assert forall i :: 0 <= i < |rings| ==> rings[i].Stands(left[i], count[i], total[i]);
  }

  // ----- Round trip -----

  /** Tickets and slots agree. */
  lemma {:induction false} TicketSlot(k: nat, n: nat, size: nat)
    requires size > 0
    ensures SlotAfter(size, Slot(k, size), n) == Slot(k + n, size)
    decreases n
  {
    if n > 0 {
      NextSlot(k, size);
      TicketSlot(k + 1, n - 1, size);
    }
  }

  /** A blank log of some size after some writes, each of them as `Write` does it. */
  function LogAfter(size: nat, writes: seq<Entry>): seq<Entry>
    requires size > 0
  {
    Written(seq(size, _ => BLANK), 0, writes)
  }

  function Kept(size: nat, writes: seq<Entry>): seq<Entry> {
    if |writes| <= size then writes else Last(size, writes)
  }

  /** Writing to any number of blank logs and decoding them emits, of each log, exactly the last entries that fit,
      in the order they were written; and when timestamps never decrease within a log, everything by timestamp and
      then by log. */
  lemma {:induction false} RoundTrip(ss: seq<Source>, sizes: seq<nat>, writes: seq<seq<Entry>>)
    requires |ss| == |sizes| == |writes|
    requires forall l :: 0 <= l < |ss| ==> sizes[l] > 0 && |LogAfter(sizes[l], writes[l])| == sizes[l]
    requires forall l :: 0 <= l < |ss| ==>
      ss[l].left == DropBlank(Round(LogAfter(sizes[l], writes[l]), Slot(|writes[l]|, sizes[l])))
    requires forall l, i :: 0 <= l < |ss| && 0 <= i < |writes[l]| ==> writes[l][i].id != 0
    ensures forall l :: 0 <= l < |ss| ==> From(Merge(ss), l) == Kept(sizes[l], writes[l])
    ensures (forall l :: 0 <= l < |ss| ==> InOrder(writes[l])) ==> Ordered(Merge(ss))
  {
    forall l | 0 <= l < |ss| ensures From(Merge(ss), l) == ss[l].left == Kept(sizes[l], writes[l]) {
      LogDecodes(sizes[l], writes[l]);
      MergeKeepsLogs(ss, l);
    }
    if forall l :: 0 <= l < |ss| ==> InOrder(writes[l]) {
      forall l | 0 <= l < |ss| ensures InOrder(ss[l].left) {
        assert InOrder(writes[l]) && ss[l].left == Kept(sizes[l], writes[l]);
      }
      MergeInOrder(ss);
    }
  }

  lemma {:induction false} LogDecodes(size: nat, writes: seq<Entry>)
    requires size > 0 && forall i :: 0 <= i < |writes| ==> writes[i].id != 0
    ensures |LogAfter(size, writes)| == size
    ensures DropBlank(Round(LogAfter(size, writes), Slot(|writes|, size))) == Kept(size, writes)
  {
    BlankRingDecodes(size, writes);
    TicketSlot(0, |writes|, size);
  }
}
