/** The flight recorder's logs as sequences: what a ring keeps, and the merge that decoding performs. */
module FlightMerge {

  /** The initial value of the search for the earliest timestamp; no entry carries it. */
  const NEVER: nat := 0xffff_ffff_ffff_ffff

  type Time = t: nat | t < NEVER

  /** Text sizes: no decoded entry needs more than the smallest useful buffer. */
  const MIN_BUFFER: nat := 256

  type Chars = n: nat | n <= MIN_BUFFER

  /** A log slot. `id` 0 marks a slot that was never written; `chars` is the size of the text it decodes to. */
  datatype Entry = Entry(time: Time, id: nat, data: seq<nat>, chars: Chars)

  const BLANK := Entry(0, 0, [], 0)

  // ----- Rings -----

  /** The slots from `start` on, all the way round. */
  function Round(log: seq<Entry>, start: nat): seq<Entry>
    requires start <= |log|
  {
    log[start..] + log[..start]
  }

  function Next(slot: nat, size: nat): nat {
    if slot + 1 == size then 0 else slot + 1
  }

  /** The ring after some writes, the first of them going to slot `slot`. */
  function Written(log: seq<Entry>, slot: nat, writes: seq<Entry>): seq<Entry>
    requires slot < |log|
    decreases |writes|
  {
    if writes == [] then log else Written(log[slot := writes[0]], Next(slot, |log|), writes[1..])
  }

  function SlotAfter(size: nat, slot: nat, n: nat): nat
    requires slot < size
    decreases n
  {
    if n == 0 then slot else SlotAfter(size, Next(slot, size), n - 1)
  }

  /** The last `k` of a sequence. */
  function Last(k: nat, s: seq<Entry>): seq<Entry>
    requires k <= |s|
  {
    s[|s| - k..]
  }

  /** A ring is a shift register: read all the way round from the slot to be written next, it holds the last entries
      written. */
  lemma {:induction false} RingKeepsLast(log: seq<Entry>, slot: nat, writes: seq<Entry>)
    requires slot < |log|
    ensures |Written(log, slot, writes)| == |log|
    ensures SlotAfter(|log|, slot, |writes|) < |log|
    ensures Round(Written(log, slot, writes), SlotAfter(|log|, slot, |writes|))
      == Last(|log|, Round(log, slot) + writes)
    decreases |writes|
  {
    if writes != [] {
      var log', slot' := log[slot := writes[0]], Next(slot, |log|);
      RingKeepsLast(log', slot', writes[1..]);
      assert Round(log', slot') == Round(log, slot)[1..] + [writes[0]];
      assert Round(log', slot') + writes[1..] == (Round(log, slot) + writes)[1..];
    } else {
      assert Round(log, slot) + writes == Round(log, slot);
    }
  }

  /** Without the slots at the front that were never written. */
  function DropBlank(s: seq<Entry>): seq<Entry> {
    if s != [] && s[0].id == 0 then DropBlank(s[1..]) else s
  }

  lemma {:induction false} DropBlankPrefix(blanks: seq<Entry>, s: seq<Entry>)
    requires forall i :: 0 <= i < |blanks| ==> blanks[i].id == 0
    ensures DropBlank(blanks + s) == DropBlank(s)
  {
    if blanks == [] {
      assert blanks + s == s;
    } else {
      assert (blanks + s)[1..] == blanks[1..] + s;
      DropBlankPrefix(blanks[1..], s);
    }
  }

  /** A ring that started blank decodes to the last entries written to it, as many as fit,
      whenever no entry is written with identifier 0. */
  lemma {:induction false} BlankRingDecodes(size: nat, writes: seq<Entry>)
    requires size > 0 && forall i :: 0 <= i < |writes| ==> writes[i].id != 0
    ensures var blank := seq(size, _ => BLANK);
            && |Written(blank, 0, writes)| == size && SlotAfter(size, 0, |writes|) < size
            && DropBlank(Round(Written(blank, 0, writes), SlotAfter(size, 0, |writes|)))
               == if |writes| <= size then writes else Last(size, writes)
  {
    var blank := seq(size, _ => BLANK);
    RingKeepsLast(blank, 0, writes);
    assert Round(blank, 0) == blank;
    if |writes| <= size {
      assert Last(size, blank + writes) == blank[|writes|..] + writes;
      DropBlankPrefix(blank[|writes|..], writes);
      assert DropBlank(writes) == writes;
    } else {
      assert Last(size, blank + writes) == Last(size, writes);
      assert Last(size, writes)[0] == writes[|writes| - size];
    }
  }

  // ----- Merging -----

  /** What one log still has to decode, whether any of it was decoded before, and how many identifiers are valid. */
  datatype Source = Source(left: seq<Entry>, started: bool, ids: nat)

  /** A decoded entry: its log, whether its identifier is valid, and whether the line that opens a log precedes it. */
  datatype Token = Token(log: nat, entry: Entry, valid: bool, opens: bool)

  /** The log among the first `k` with the earliest next entry, the first one among equals; `k` when all are used up. */
  function PickFrom(ss: seq<Source>, k: nat): (l: nat)
    requires k <= |ss|
    ensures l <= k
    ensures l < k ==> ss[l].left != []
    ensures l == k ==> forall i :: 0 <= i < k ==> ss[i].left == []
    ensures l < k ==> forall i :: 0 <= i < k && ss[i].left != [] ==>
              ss[l].left[0].time < ss[i].left[0].time || (ss[l].left[0].time == ss[i].left[0].time && l <= i)
  {
    if k == 0 then 0
    else
      var l := PickFrom(ss, k - 1);
      if ss[k - 1].left == [] then if l == k - 1 then k else l
      else if l == k - 1 || ss[k - 1].left[0].time < ss[l].left[0].time then k - 1
      else l
  }

  function Pick(ss: seq<Source>): nat {
    PickFrom(ss, |ss|)
  }

  function TokenOf(ss: seq<Source>, l: nat): Token
    requires l < |ss| && ss[l].left != []
  {
    var e := ss[l].left[0];
    Token(l, e, e.id < ss[l].ids, !ss[l].started && e.id < ss[l].ids)
  }

  function Take(ss: seq<Source>, l: nat): seq<Source>
    requires l < |ss| && ss[l].left != []
  {
    ss[l := Source(ss[l].left[1..], true, ss[l].ids)]
  }

  function Size(ss: seq<Source>): nat {
    if ss == [] then 0 else |ss[0].left| + Size(ss[1..])
  }

  lemma {:induction false} TakeShrinks(ss: seq<Source>, l: nat)
    requires l < |ss| && ss[l].left != []
    ensures Size(Take(ss, l)) == Size(ss) - 1
  {
    if l == 0 {
      assert Take(ss, 0)[1..] == ss[1..];
    } else {
      assert Take(ss, l)[1..] == Take(ss[1..], l - 1);
      TakeShrinks(ss[1..], l - 1);
    }
  }

  /** The whole merge. */
  function Merge(ss: seq<Source>): seq<Token>
    decreases Size(ss)
  {
    var l := Pick(ss);
    if l == |ss| then []
    else
      TakeShrinks(ss, l);
      [TokenOf(ss, l)] + Merge(Take(ss, l))
  }

  /** The entries that came from one log. */
  function From(ts: seq<Token>, l: nat): seq<Entry> {
    if ts == [] then [] else (if ts[0].log == l then [ts[0].entry] else []) + From(ts[1..], l)
  }

  /** The merge emits exactly the entries of each log, once, in the log's order. */
  lemma {:induction false} MergeKeepsLogs(ss: seq<Source>, l: nat)
    requires l < |ss|
    ensures From(Merge(ss), l) == ss[l].left
    decreases Size(ss)
  {
    var k := Pick(ss);
    if k < |ss| {
      TakeShrinks(ss, k);
      MergeKeepsLogs(Take(ss, k), l);
    }
  }

  /** An entry is decoded as invalid exactly when its log does not know its identifier; and the line that opens a log
      precedes the first entry of one that nothing was decoded of before, unless that entry is invalid. */
  lemma {:induction false} MergeTells(ss: seq<Source>, k: nat)
    requires k < |Merge(ss)|
    ensures var t := Merge(ss)[k];
            && t.log < |ss|
            && (t.valid <==> t.entry.id < ss[t.log].ids)
            && (t.opens <==> t.valid && !ss[t.log].started && From(Merge(ss)[..k], t.log) == [])
    decreases Size(ss)
  {
    var l := Pick(ss);
    TakeShrinks(ss, l);
    if k > 0 {
      var t, rest := Merge(ss)[k], Merge(Take(ss, l));
      MergeTells(Take(ss, l), k - 1);
      assert Merge(ss)[..k][1..] == rest[..k - 1];
      assert From(Merge(ss)[..k], t.log)
        == (if l == t.log then [Merge(ss)[0].entry] else []) + From(rest[..k - 1], t.log);
    }
  }

  predicate InOrder(s: seq<Entry>) {
    forall i, j :: 0 <= i < j < |s| ==> s[i].time <= s[j].time
  }

  /** By timestamp, and by log among equal timestamps. */
  predicate Before(a: Token, b: Token) {
    a.entry.time < b.entry.time || (a.entry.time == b.entry.time && a.log <= b.log)
  }

  predicate Ordered(ts: seq<Token>) {
    forall i, j :: 0 <= i < j < |ts| ==> Before(ts[i], ts[j])
  }

  predicate NotBefore(ss: seq<Source>, t: Token) {
    forall i, k :: 0 <= i < |ss| && 0 <= k < |ss[i].left| ==> Before(t, Token(i, ss[i].left[k], true, true))
  }

  lemma {:induction false} MergeNotBefore(ss: seq<Source>, t: Token)
    requires NotBefore(ss, t)
    ensures forall j :: 0 <= j < |Merge(ss)| ==> Before(t, Merge(ss)[j])
    decreases Size(ss)
  {
    var l := Pick(ss);
    if l < |ss| {
      TakeShrinks(ss, l);
      var ss' := Take(ss, l);
      assert forall i, k :: 0 <= i < |ss'| && 0 <= k < |ss'[i].left| ==>
        ss'[i].left[k] == ss[i].left[if i == l then k + 1 else k];
      MergeNotBefore(ss', t);
      assert Before(t, Token(l, ss[l].left[0], true, true));
    }
  }

  /** When the entries of every log are in time order, so is the merge, with equal timestamps in log order. */
  lemma {:induction false} MergeInOrder(ss: seq<Source>)
    requires forall i :: 0 <= i < |ss| ==> InOrder(ss[i].left)
    ensures Ordered(Merge(ss))
    decreases Size(ss)
  {
    var l := Pick(ss);
    if l < |ss| {
      TakeShrinks(ss, l);
      var ss' := Take(ss, l);
      forall i | 0 <= i < |ss'| ensures InOrder(ss'[i].left) {
        assert InOrder(ss[i].left);
      }
      MergeInOrder(ss');
      PickNotBefore(ss, l);
      MergeNotBefore(ss', TokenOf(ss, l));
    }
  }

  lemma {:induction false} PickNotBefore(ss: seq<Source>, l: nat)
    requires l == Pick(ss) < |ss| && forall i :: 0 <= i < |ss| ==> InOrder(ss[i].left)
    ensures NotBefore(Take(ss, l), TokenOf(ss, l))
  {
    var ss' := Take(ss, l);
    forall i, k | 0 <= i < |ss'| && 0 <= k < |ss'[i].left|
      ensures Before(TokenOf(ss, l), Token(i, ss'[i].left[k], true, true))
    {
      assert InOrder(ss[i].left);
      assert i == l ==> ss'[i].left[k] == ss[i].left[k + 1];
      assert ss[i].left[0].time <= ss'[i].left[k].time;
    }
  }

  // ----- One call of the decoder -----

  /** The text size of some tokens. */
  function TextSize(ts: seq<Token>): nat {
    if ts == [] then 0 else ts[0].entry.chars + TextSize(ts[1..])
  }

  lemma {:induction false} TextSizeSnoc(ts: seq<Token>, t: Token)
    ensures TextSize(ts + [t]) == TextSize(ts) + t.entry.chars
  {
    if ts == [] {
      assert ts + [t] == [t] && TextSize([t]) == t.entry.chars + TextSize([]);
    } else {
      assert (ts + [t])[1..] == ts[1..] + [t];
      TextSizeSnoc(ts[1..], t);
    }
  }

  /** A call emits the next tokens of the merge, up to an invalid one or as many as the buffer has room for;
      it reports that nothing is left only when that is so. */
  ghost predicate Decodes(ss: seq<Source>, bufferSize: nat, tokens: seq<Token>, more: bool, ss': seq<Source>) {
    && Merge(ss) == tokens + Merge(ss')
    && TextSize(tokens) <= bufferSize
    && (forall i :: 0 <= i < |tokens| - 1 ==> tokens[i].valid)
    && (!more ==> Merge(ss') == [])
    && (more ==> (tokens != [] && !tokens[|tokens| - 1].valid) || bufferSize - TextSize(tokens) < MIN_BUFFER)
  }

  /** A call of the decoder: the buffer it was given, what it emitted and what it left. */
  datatype Call = Call(bufferSize: nat, tokens: seq<Token>, more: bool, left: seq<Source>)

  ghost predicate Resumed(ss: seq<Source>, calls: seq<Call>)
    decreases |calls|
  {
    calls == [] || (Decodes(ss, calls[0].bufferSize, calls[0].tokens, calls[0].more, calls[0].left)
                    && Resumed(calls[0].left, calls[1..]))
  }

  function Emitted(calls: seq<Call>): seq<Token> {
    if calls == [] then [] else calls[0].tokens + Emitted(calls[1..])
  }

  /** However the buffers are sized, the calls of a decode together emit the merge, once the last one says that
      nothing is left. */
  lemma {:induction false} ResumedCallsMerge(ss: seq<Source>, calls: seq<Call>)
    requires Resumed(ss, calls) && calls != [] && !calls[|calls| - 1].more
    ensures Emitted(calls) == Merge(ss)
    decreases |calls|
  {
    if |calls| == 1 {
      assert Emitted(calls) == calls[0].tokens + Emitted(calls[1..]);
    } else {
      ResumedCallsMerge(calls[0].left, calls[1..]);
    }
  }

  /** Every call with a buffer of at least 256 characters makes progress, so a decode needs at most one call more
      than there are entries. */
  lemma {:induction false} CallsMakeProgress(ss: seq<Source>, calls: seq<Call>)
    requires Resumed(ss, calls) && forall i :: 0 <= i < |calls| ==> calls[i].bufferSize >= 256 && calls[i].more
    ensures |calls| <= |Merge(ss)|
    decreases |calls|
  {
    if calls != [] {
      assert calls[0].tokens != [];
      CallsMakeProgress(calls[0].left, calls[1..]);
    }
  }
}
