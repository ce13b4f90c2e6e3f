/** The flight recorder from end to end on the heap: any number of writes to several logs, then a decode over as
    many calls as it takes. */
module FlightRuns {
  import opened FlightMerge
  import opened FlightRecorder

  /** An entry and the log it is written to. */
  datatype Write = Write(log: nat, entry: Entry)

  /** What is written to one log, in order. */
  function To(writes: seq<Write>, l: nat): seq<Entry> {
    if writes == [] then [] else To(writes[..|writes| - 1], l) + OneTo(writes[|writes| - 1], l)
  }

  function OneTo(w: Write, l: nat): seq<Entry> {
    if w.log == l then [w.entry] else []
  }

  /** Different logs in different memory. */
  ghost predicate Apart(rings: seq<FlightLog>) {
    forall i, j :: 0 <= i < j < |rings| ==> rings[i] != rings[j] && rings[i].log != rings[j].log
  }

  /** A log that started blank, was written to and never decoded. */
  ghost predicate Records(r: FlightLog, written: seq<Entry>)
    reads r, r.log
  {
    && r.Valid() && !r.lastSet
    && r.Contents() == Last(r.log.Length, seq(r.log.Length, _ => BLANK) + written)
  }

  ghost predicate Recorded(rings: seq<FlightLog>, writes: seq<Write>)
    reads rings, set r | r in rings :: r.log
  {
    forall i :: 0 <= i < |rings| ==> Records(rings[i], To(writes, i))
  }

  lemma {:induction false} ShiftIn(blank: seq<Entry>, written: seq<Entry>, e: Entry)
    requires blank != []
    ensures Last(|blank|, blank + written)[1..] + [e] == Last(|blank|, blank + (written + [e]))
  {
  }

  method WriteOne(r: FlightLog, e: Entry, ghost written: seq<Entry>)
    requires Records(r, written)
    modifies r`lock, r.log
    ensures Records(r, written + [e])
  {
    ShiftIn(seq(r.log.Length, _ => BLANK), written, e);
    var slot := r.Write(e);
  }

  method WriteTo(rings: seq<FlightLog>, w: Write, ghost before: seq<Write>)
    requires Apart(rings) && Recorded(rings, before) && w.log < |rings|
    modifies rings[w.log], rings[w.log].log
    ensures Recorded(rings, before + [w])
  {
    assert Records(rings[w.log], To(before, w.log));
    WriteOne(rings[w.log], w.entry, To(before, w.log));
    assert (before + [w])[..|before|] == before;
    forall i | 0 <= i < |rings| ensures Records(rings[i], To(before + [w], i)) {
      assert old(Records(rings[i], To(before, i)));
      assert i != w.log ==> To(before + [w], i) == To(before, i);
    }
  }

  method WriteNext(rings: seq<FlightLog>, writes: seq<Write>, k: nat)
    requires Apart(rings) && k < |writes| && writes[k].log < |rings| && Recorded(rings, writes[..k])
    modifies rings, set r | r in rings :: r.log
    ensures Recorded(rings, writes[..k + 1])
  {
    assert writes[..k + 1] == writes[..k] + [writes[k]];
    WriteTo(rings, writes[k], writes[..k]);
  }

  method WriteAll(rings: seq<FlightLog>, writes: seq<Write>)
    requires Apart(rings) && Recorded(rings, []) && forall k :: 0 <= k < |writes| ==> writes[k].log < |rings|
    modifies rings, set r | r in rings :: r.log
    ensures Recorded(rings, writes)
  {
    var k := 0;
    while k < |writes|
      invariant k <= |writes| && Recorded(rings, writes[..k])
    {
      WriteNext(rings, writes, k);
      k := k + 1;
    }
    assert writes[..k] == writes;
  }

  /** What such a log has to decode is the last entries that fit. */
  lemma {:induction false} LastThatFit(size: nat, written: seq<Entry>)
    requires size > 0 && forall i :: 0 <= i < |written| ==> written[i].id != 0
    ensures DropBlank(Last(size, seq(size, _ => BLANK) + written)) == Kept(size, written)
  {
    var blank := seq(size, _ => BLANK);
    if |written| <= size {
      assert Last(size, blank + written) == blank[|written|..] + written;
      DropBlankPrefix(blank[|written|..], written);
      assert DropBlank(written) == written;
    } else {
      assert Last(size, blank + written) == Last(size, written);
      assert Last(size, written)[0] == written[|written| - size];
    }
  }

  lemma {:induction false} CallEmits(ss: seq<Source>, bufferSize: nat, tokens: seq<Token>, more: bool,
                                     left: seq<Source>)
    requires Decodes(ss, bufferSize, tokens, more, left) && bufferSize >= MIN_BUFFER
    ensures Merge(ss) == tokens + Merge(left) && (if more then tokens != [] else Merge(left) == [])
  {
  }

  /** One call. */
  method DecodeCall(rings: seq<FlightLog>, ghost ss: seq<Source>, ghost rest: seq<Token>, bufferSize: nat)
    returns (tokens: seq<Token>, more: nat, ghost left: seq<Source>, ghost rest': seq<Token>)
    requires Have(rings, ss) && Distinct(rings) && |rings| <= MAX_LOGS && bufferSize >= MIN_BUFFER && rest == Merge(ss)
    modifies rings
    ensures Have(rings, left) && rest' == Merge(left) && rest == tokens + rest'
    ensures if more == 0 then rest' == [] else tokens != []
  {
    tokens, more, left := Decode(rings, ss, bufferSize);
    CallEmits(ss, bufferSize, tokens, more != 0, left);
    rest' := Merge(left);
  }

  lemma {:induction false} EmitsMore(all: seq<Token>, tokens: seq<Token>, rest: seq<Token>, ts: seq<Token>,
                                     rest': seq<Token>)
    requires all == tokens + rest && rest == ts + rest'
    ensures all == tokens + ts + rest' && (ts != [] ==> |rest'| < |rest|)
  {
  }

  /** A decode over several calls, the k-th with a buffer of `room(k)` characters, until nothing is left. */
  method DecodeAll(rings: seq<FlightLog>, ghost ss: seq<Source>, room: nat -> nat) returns (tokens: seq<Token>)
    requires Have(rings, ss) && Distinct(rings) && |rings| <= MAX_LOGS && forall k :: room(k) >= MIN_BUFFER
    modifies rings
    ensures tokens == Merge(ss)
  {
    ghost var left, rest := ss, Merge(ss);
    ghost var all := rest;
    var more: nat, k: nat := 1, 0;
    tokens := [];
    while more != 0
      invariant Have(rings, left) && rest == Merge(left) && all == tokens + rest && (more == 0 ==> rest == [])
      decreases more != 0, |rest|
    {
      var ts: seq<Token>;
      ghost var before := rest;
      ts, more, left, rest := DecodeCall(rings, left, rest, room(k));
      EmitsMore(all, tokens, before, ts, rest);
      tokens, k := tokens + ts, k + 1;
    }
  }

  ghost function SourceOf(r: FlightLog, written: seq<Entry>): Source {
    Source(Kept(r.log.Length, written), false, r.ids)
  }

  ghost function SourcesOf(rings: seq<FlightLog>, writes: seq<Write>): (ss: seq<Source>)
    ensures |ss| == |rings| && forall l :: 0 <= l < |rings| ==> ss[l] == SourceOf(rings[l], To(writes, l))
  {
    seq(|rings|, l requires 0 <= l < |rings| => SourceOf(rings[l], To(writes, l)))
  }

  lemma {:induction false} NoneBlank(writes: seq<Write>, l: nat)
    requires forall k :: 0 <= k < |writes| ==> writes[k].entry.id != 0
    ensures forall i :: 0 <= i < |To(writes, l)| ==> To(writes, l)[i].id != 0
    decreases |writes|
  {
    if writes != [] {
      NoneBlank(writes[..|writes| - 1], l);
    }
  }

  lemma {:induction false} RecordedHave(rings: seq<FlightLog>, writes: seq<Write>)
    requires Recorded(rings, writes) && forall k :: 0 <= k < |writes| ==> writes[k].entry.id != 0
    ensures Have(rings, SourcesOf(rings, writes))
  {
    forall i | 0 <= i < |rings|
      ensures rings[i].Valid() && rings[i].Remaining() == SourceOf(rings[i], To(writes, i))
    {
      assert Records(rings[i], To(writes, i));
      NoneBlank(writes, i);
      LastThatFit(rings[i].log.Length, To(writes, i));
    }
  }

  /** Writes to blank logs in any interleaving, and then a decode over any number of calls: of each log come the
      last entries that fit, in the order they were written; and when timestamps never decrease within a log,
      everything comes by timestamp and then by log. */
  method RecordAndDecode(rings: seq<FlightLog>, writes: seq<Write>, room: nat -> nat) returns (tokens: seq<Token>)
    requires Apart(rings) && Recorded(rings, []) && |rings| <= MAX_LOGS && forall k :: room(k) >= MIN_BUFFER
    requires forall k :: 0 <= k < |writes| ==> writes[k].log < |rings| && writes[k].entry.id != 0
    modifies rings, set r | r in rings :: r.log
    ensures forall l :: 0 <= l < |rings| ==> From(tokens, l) == Kept(rings[l].log.Length, To(writes, l))
    ensures (forall l :: 0 <= l < |rings| ==> InOrder(To(writes, l))) ==> Ordered(tokens)
  {
    WriteAll(rings, writes);
    RecordedHave(rings, writes);
    tokens := DecodeAll(rings, SourcesOf(rings, writes), room);
    AllRecorded(rings, writes);
  }

  lemma {:induction false} AllRecorded(rings: seq<FlightLog>, writes: seq<Write>)
    ensures forall l :: 0 <= l < |rings| ==>
      From(Merge(SourcesOf(rings, writes)), l) == Kept(rings[l].log.Length, To(writes, l))
    ensures (forall l :: 0 <= l < |rings| ==> InOrder(To(writes, l))) ==> Ordered(Merge(SourcesOf(rings, writes)))
  {
    var ss := SourcesOf(rings, writes);
    forall l | 0 <= l < |rings| ensures From(Merge(ss), l) == Kept(rings[l].log.Length, To(writes, l)) {
      MergeKeepsLogs(ss, l);
    }
    if forall l :: 0 <= l < |rings| ==> InOrder(To(writes, l)) {
      forall l | 0 <= l < |ss| ensures InOrder(ss[l].left) {
        assert InOrder(To(writes, l));
      }
      MergeInOrder(ss);
    }
  }

  /** New logs are such blank logs. */
  lemma {:induction false} NewLogRecords(r: FlightLog)
    requires r.Valid() && !r.lastSet && r.lock == 0 && r.log[..] == seq(r.log.Length, _ => BLANK)
    ensures Records(r, [])
  {
    var blank := seq(r.log.Length, _ => BLANK);
    assert blank + [] == blank && Last(|blank|, blank) == blank && Round(blank, 0) == blank;
  }
}
