/** The pools of RDMA objects and of packet descriptors: intrusive lists that are detached, partitioned, reported and
    spliced back. Both pools run the same routines; they differ in what makes an entry done. */
module Pools {

  const ECANCELED: int := -125

  /** Request identifiers handed to one status callback at most. */
  const NUM_REFID: nat := 8

  /** An RDMA object, with its byte counter at address `pa`, error word and the originator's object `remote`; or a
      packet descriptor, with its descriptor count in `counter` and no `remote`. */
  class Entry {
    var next: Entry?
    var prev: Entry?
    var pa: nat
    var counter: nat
    var error: int
    var id: nat
    var remote: nat
  }

  /** What a poll looks at in an entry. */
  datatype Word = Word(counter: nat, error: int, id: nat, remote: nat)

  datatype Report = Report(id: nat, error: int)

  /** The put that tells the originator's object `remote` how its read ended. */
  datatype CompletionPut = CompletionPut(remote: nat, error: int)

  ghost function WordOf(x: Entry): Word
    reads x
  {
    Word(x.counter, x.error, x.id, x.remote)
  }

  ghost predicate Holds(s: seq<Entry>, words: seq<Word>)
    reads s
  {
    |s| == |words| && forall i :: 0 <= i < |s| ==> WordOf(s[i]) == words[i]
  }

  // ----- Linked lists -----

  function After(s: seq<Entry>, i: nat): Entry? {
    if i + 1 < |s| then s[i + 1] else null
  }

  /** Following `next` from `head` visits exactly these objects. */
  ghost predicate Chain(head: Entry?, s: seq<Entry>)
    reads s
  {
    && head == (if s == [] then null else s[0])
    && forall i {:trigger s[i].next} :: 0 <= i < |s| ==> s[i].next == After(s, i)
  }

  predicate NoDup(s: seq<Entry>) {
    forall i, j :: 0 <= i < j < |s| ==> s[i] != s[j]
  }

  predicate Apart(a: seq<Entry>, b: seq<Entry>) {
    forall x :: x in a ==> x !in b
  }

  /** Links a list in front of another one. */
  method Splice(first: Entry, last: Entry, ghost a: seq<Entry>, rest: Entry?, ghost b: seq<Entry>)
    requires a != [] && last == a[|a| - 1] && Chain(first, a) && NoDup(a)
    requires Chain(rest, b) && Apart(a, b)
    modifies last`next
    ensures Chain(first, a + b)
  {
    last.next := rest;
    forall i | 0 <= i < |a + b| ensures (a + b)[i].next == After(a + b, i) {
      if i >= |a| {
        assert b[i - |a|] in b && last in a;
      } else if i + 1 < |a| {
        assert a[i] != last;
      }
    }
  }

  /** The object whose link changes when `x` is appended. */
  function LastOf(head: Entry?, last: Entry?, x: Entry): Entry? {
    if head == null then x else last
  }

  /** Appends an object to a private list and gives what followed it before. */
  method Enqueue(head: Entry?, last: Entry?, ghost a: seq<Entry>, x: Entry)
    returns (head': Entry, last': Entry, next: Entry?)
    requires Chain(head, a) && NoDup(a) && x !in a && (a != [] ==> last == a[|a| - 1])
    modifies x`next, x`prev, LastOf(head, last, x)`next
    ensures Chain(head', a + [x]) && last' == x && next == old(x.next)
    ensures x.prev == if a == [] then null else a[|a| - 1]
  {
    if head != null {
      last.next := x;
      x.prev := last;
      head' := head;
    } else {
      head' := x;
      x.prev := null;
    }
    next := x.next;
    last' := x;
    last'.next := null;
  }

  /** A private list with its first and last object. */
  ghost predicate Private(head: Entry?, last: Entry?, a: seq<Entry>)
    reads a
  {
    Chain(head, a) && NoDup(a) && (a != [] ==> last == a[|a| - 1])
  }

  // ----- What a poll does, as functions -----

  /** What a poll looks for: an RDMA object whose counter is zero or whose error word is set, or a packet descriptor
      that is not beyond the `injected` descriptors the hardware has processed. */
  datatype Test = CounterDone | PacketDone(injected: nat)

  predicate Done(t: Test, w: Word) {
    match t
    case CounterDone => w.counter == 0 || w.error != 0
    case PacketDone(injected) => injected >= w.counter
  }

  /** The objects whose word is done, in list order, or those whose word is not. */
  function Those(t: Test, done: bool, s: seq<Entry>, words: seq<Word>): seq<Entry>
    requires |s| == |words|
  {
    if s == [] then []
    else (if Done(t, words[0]) == done then [s[0]] else []) + Those(t, done, s[1..], words[1..])
  }

  /** The words of those that are not done. */
  function KeptWords(t: Test, words: seq<Word>): seq<Word> {
    if words == [] then [] else (if Done(t, words[0]) then [] else [words[0]]) + KeptWords(t, words[1..])
  }

  ghost predicate Cleared(s: seq<Entry>)
    reads s
  {
    forall i :: 0 <= i < |s| ==> s[i].id == 0
  }

  /** What there is to report: the request identifiers of the done objects, in list order; 0 stands for none. */
  function Reports(t: Test, words: seq<Word>): seq<Report> {
    if words == [] then []
    else
      (if Done(t, words[0]) && words[0].id != 0 then [Report(words[0].id, words[0].error)] else []) +
      Reports(t, words[1..])
  }

  /** The completion puts that a poll sends. */
  function Puts(t: Test, words: seq<Word>): seq<CompletionPut> {
    if words == [] then []
    else
      (if Done(t, words[0]) && words[0].remote != 0 then [CompletionPut(words[0].remote, words[0].error)] else []) +
      Puts(t, words[1..])
  }

  /** What a poll returns: the entries it puts back, among packet descriptors only those with a request identifier. */
  function StillWaiting(t: Test, words: seq<Word>): nat {
    if words == [] then 0
    else (if !Done(t, words[0]) && (t.CounterDone? || words[0].id != 0) then 1 else 0) + StillWaiting(t, words[1..])
  }

  /** Status callbacks: a full batch is sent as soon as it has eight entries. */
  function Batches(batch: seq<Report>, rest: seq<Report>): seq<seq<Report>>
    requires |batch| < NUM_REFID
    decreases |rest|
  {
    if rest == [] then if batch == [] then [] else [batch]
    else if |batch| + 1 == NUM_REFID then [batch + [rest[0]]] + Batches([], rest[1..])
    else Batches(batch + [rest[0]], rest[1..])
  }

  /** What a flush reports. */
  function Cancels(words: seq<Word>): seq<seq<Report>> {
    if words == [] then []
    else (if words[0].id != 0 then [[Report(words[0].id, ECANCELED)]] else []) + Cancels(words[1..])
  }

  lemma {:induction false} CancelsStep(words: seq<Word>, k: nat, calls: seq<seq<Report>>)
    requires k < |words|
    ensures calls + Cancels(words[k..])
         == calls + (if words[k].id != 0 then [[Report(words[k].id, ECANCELED)]] else []) + Cancels(words[k + 1..])
  {
    assert words[k..][1..] == words[k + 1..];
  }

  /** Where a poll stands: reports waiting for a full batch, callbacks and completion puts made, done objects still held
      back, the free list, and the objects to be polled again. */
  datatype Progress = Progress(batch: seq<Report>, calls: seq<seq<Report>>, puts: seq<CompletionPut>,
                               held: seq<Entry>, free: seq<Entry>, kept: seq<Entry>)

  /** What looking at one more object does. */
  function Advance(t: Test, p: Progress, x: Entry, w: Word): Progress {
    if !Done(t, w) then p.(kept := p.kept + [x])
    else
      var batch := p.batch + (if w.id != 0 then [Report(w.id, w.error)] else []);
      var puts := p.puts + (if w.remote != 0 then [CompletionPut(w.remote, w.error)] else []);
      if |batch| == NUM_REFID then Progress([], p.calls + [batch], puts, [], p.held + [x] + p.free, p.kept)
      else Progress(batch, p.calls, puts, p.held + [x], p.free, p.kept)
  }

  function AdvanceAll(t: Test, p: Progress, s: seq<Entry>, words: seq<Word>): Progress
    requires |s| == |words|
    decreases |s|
  {
    if s == [] then p else AdvanceAll(t, Advance(t, p, s[0], words[0]), s[1..], words[1..])
  }

  /** A poll of `l` from `p0` has come to `p`, with `todo` to look at, `pending` entries counted, and the words `stay`
      and the entries `done` behind it. */
  ghost predicate Halfway(t: Test, p0: Progress, l: seq<Entry>, words: seq<Word>, p: Progress, todo: seq<Entry>,
                          left: seq<Word>, pending: nat, stay: seq<Word>, done: seq<Entry>)
    requires |l| == |words|
  {
    && |todo| == |left|
    && AdvanceAll(t, p, todo, left) == AdvanceAll(t, p0, l, words)
    && pending + StillWaiting(t, left) == StillWaiting(t, words)
    && stay + KeptWords(t, left) == KeptWords(t, words)
    && done + Those(t, true, todo, left) == Those(t, true, l, words)
  }

  lemma {:induction false} HalfwayOn(t: Test, p0: Progress, l: seq<Entry>, words: seq<Word>, p: Progress,
                                     todo: seq<Entry>, left: seq<Word>, pending: nat, stay: seq<Word>, done: seq<Entry>)
    requires |l| == |words| && Halfway(t, p0, l, words, p, todo, left, pending, stay, done) && todo != []
    ensures Halfway(t, p0, l, words, Advance(t, p, todo[0], left[0]), todo[1..], left[1..],
                    pending + (if !Done(t, left[0]) && (t.CounterDone? || left[0].id != 0) then 1 else 0),
                    if Done(t, left[0]) then stay else stay + [left[0]],
                    if Done(t, left[0]) then done + [todo[0]] else done)
  {
  }

  lemma {:induction false} HalfwayEnd(t: Test, p0: Progress, l: seq<Entry>, words: seq<Word>, p: Progress,
                                      pending: nat, stay: seq<Word>, done: seq<Entry>)
    requires |l| == |words| && Halfway(t, p0, l, words, p, [], [], pending, stay, done)
    ensures p == AdvanceAll(t, p0, l, words) && pending == StillWaiting(t, words)
    ensures stay == KeptWords(t, words) && done == Those(t, true, l, words)
  {
  }

  /** No object is on two lists of a poll, or among those it still has to look at. */
  predicate Separate(p: Progress, todo: seq<Entry>) {
    && NoDup(todo)
    && Apart(p.held, p.free) && Apart(p.held, p.kept) && Apart(p.free, p.kept)
    && Apart(todo, p.held) && Apart(todo, p.free) && Apart(todo, p.kept)
  }

  lemma {:induction false} AdvanceSeparate(t: Test, p: Progress, todo: seq<Entry>, w: Word)
    requires Separate(p, todo) && todo != []
    ensures Separate(Advance(t, p, todo[0], w), todo[1..])
  {
    forall y | y in todo[1..] ensures y in todo && y != todo[0] {
    }
  }

  predicate Within(a: seq<Entry>, b: seq<Entry>) {
    forall x :: x in a ==> x in b
  }

  lemma {:induction false} LastIsIn(a: seq<Entry>, head: Entry?, last: Entry?, x: Entry, l: seq<Entry>)
    requires Private(head, last, a) && Within(a, l) && x in l
    ensures LastOf(head, last, x) in l
  {
  }

  lemma {:induction false} LastNotIn(a: seq<Entry>, head: Entry?, last: Entry?, todo: seq<Entry>)
    requires Private(head, last, a) && Apart(todo, a) && todo != [] && NoDup(todo)
    ensures LastOf(head, last, todo[0]) !in todo[1..]
  {
    forall y | y in todo[1..] ensures y in todo && y != todo[0] {
    }
  }

  lemma {:induction false} ChainTail(x: Entry, s: seq<Entry>, words: seq<Word>)
    requires s != [] && x == s[0] && Chain(x, s) && NoDup(s) && Holds(s, words)
    ensures Chain(x.next, s[1..]) && Holds(s[1..], words[1..]) && x !in s[1..]
    ensures forall y :: y in s[1..] ==> y in s
  {
  }

  /** The last object of a private list, if it has one. */
  function Ends(first: Entry?, last: Entry?): set<Entry> {
    if first == null || last == null then {} else {last}
  }

  /** The test as the loop of a poll makes it. */
  predicate Finished(t: Test, x: Entry)
    reads x
    ensures Finished(t, x) == Done(t, WordOf(x))
  {
    match t
    case CounterDone => x.counter == 0 || x.error != 0
    case PacketDone(injected) => injected >= x.counter
  }

  class Pool {
    var free: Entry?
    var list: Entry?
    var puts: seq<CompletionPut>
    var calls: seq<seq<Report>>

    constructor () {
      free, list, puts, calls := null, null, [], [];
    }

    /** Pops the head of the free list. */
    method Allocate(ghost f: seq<Entry>) returns (x: Entry?)
      requires Chain(free, f) && NoDup(f)
      modifies this`free, if f == [] then {} else {f[0]}
      ensures x == if f == [] then null else f[0]
      ensures Chain(free, if f == [] then [] else f[1..])
      ensures x != null ==> x.id == 0 && x.remote == 0 && x.counter == old(x.counter) && x.error == old(x.error)
    {
      x := free;
      if x != null {
        free := x.next;
        x.id, x.remote := 0, 0;
      }
    }

    /** Puts an object in front of the list that polls will look at. */
    method ReleaseToPoll(x: Entry, ghost l: seq<Entry>)
      requires Chain(list, l) && x !in l
      modifies this`list, x`next, x`prev, LastOf(list, list, x)`prev
      ensures Chain(list, [x] + l)
      ensures forall y :: y in l ==> y.prev == if y == l[0] then x else old(y.prev)
    {
      x.prev := null;
      x.next := list;
      if list != null {
        list.prev := x;
      }
      list := x;
    }

    method Free(x: Entry, ghost f: seq<Entry>)
      requires Chain(free, f) && x !in f
      modifies this`free, x`next
      ensures Chain(free, [x] + f)
    {
      x.next := free;
      free := x;
    }

    /** The first locked section of a poll: takes the whole list away. */
    method Detach(ghost l: seq<Entry>) returns (head: Entry?)
      requires Chain(list, l)
      modifies this`list
      ensures list == null && Chain(head, l)
    {
      head := list;
      list := null;
    }

    /** Puts a finished private list in front of the free list. */
    method SpliceFree(first: Entry, last: Entry, ghost d: seq<Entry>, ghost f: seq<Entry>)
      requires d != [] && last == d[|d| - 1] && Chain(first, d) && NoDup(d) && Chain(free, f) && Apart(d, f)
      modifies this`free, last`next
      ensures Chain(free, d + f)
    {
      Splice(first, last, d, free, f);
      free := first;
    }

    /** Completion put and report of a done object. */
    method Record(x: Entry, refs: array<Report>, n: nat) returns (n': nat)
      requires refs.Length == NUM_REFID && n < NUM_REFID
      modifies this`puts, refs, x`id, x`error
      ensures x.id == 0
      ensures puts == old(puts) + (if x.remote != 0 then [CompletionPut(x.remote, old(x.error))] else [])
      ensures n' <= NUM_REFID && refs[..n']
        == old(refs[..n]) + (if old(x.id) != 0 then [Report(old(x.id), old(x.error))] else [])
    {
      if x.remote != 0 {
        puts := puts + [CompletionPut(x.remote, x.error)];
      }
      n' := n;
      ghost var batch := refs[..n];
      if x.id != 0 {
        refs[n] := Report(x.id, x.error);
        x.id, x.error := 0, 0;
        n' := n + 1;
        assert refs[..n'] == batch + [refs[n]];
      }
    }

    /** A full batch of reports sends the done objects to the free list before it goes to the status callback. */
    method Flush(refs: array<Report>, n: nat, fh: Entry, fl: Entry, ghost d: seq<Entry>, ghost f: seq<Entry>)
      returns (n': nat, fh': Entry?)
      requires refs.Length == NUM_REFID && n <= NUM_REFID && Chain(free, f) && Apart(d, f)
      requires Chain(fh, d) && NoDup(d) && d != [] && fl == d[|d| - 1]
      modifies this`free, this`calls, fl`next
      ensures if n == NUM_REFID then calls == old(calls) + [refs[..]] && n' == 0 && fh' == null && Chain(free, d + f)
              else calls == old(calls) && n' == n && fh' == fh && Chain(fh, d) && Chain(free, f) && free == old(free)
    {
      n', fh' := n, fh;
      if n == NUM_REFID {
        SpliceFree(fh, fl, d, f);
        calls := calls + [refs[..]];
        n', fh' := 0, null;
      }
    }

    /** The reports, callbacks, puts, held objects and free list of a poll. */
    ghost predicate Sends(p: Progress, refs: array<Report>, n: nat, fh: Entry?, fl: Entry?)
      reads this, refs, p.held, p.free
    {
      && calls == p.calls && puts == p.puts
      && refs.Length == NUM_REFID && n == |p.batch| < NUM_REFID && refs[..n] == p.batch
      && Private(fh, fl, p.held) && Chain(free, p.free)
    }

    /** Holds a done object back, and lets a full batch go. */
    method Hold(x: Entry, refs: array<Report>, n: nat, fh: Entry?, fl: Entry?, ghost d: seq<Entry>, ghost f: seq<Entry>)
      returns (n': nat, fh': Entry?, fl': Entry, next: Entry?)
      requires refs.Length == NUM_REFID && n <= NUM_REFID
      requires Private(fh, fl, d) && Chain(free, f) && x !in d && Apart(d + [x], f)
      modifies this`free, this`calls, x`next, x`prev, LastOf(fh, fl, x)`next
      ensures next == old(x.next)
      ensures if n == NUM_REFID
        then calls == old(calls) + [refs[..]] && n' == 0 && fh' == null && Chain(free, d + [x] + f)
              else calls == old(calls) && n' == n && Private(fh', fl', d + [x]) && Chain(free, f)
    {
      assert x in d + [x] && LastOf(fh, fl, x) in d + [x];
      fh', fl', next := Enqueue(fh, fl, d, x);
      n', fh' := Flush(refs, n, fh', fl', d + [x], f);
    }

    /** What a poll does with a done object. */
    method TakeDone(ghost t: Test, ghost p: Progress, ghost w: Word, x: Entry, refs: array<Report>, n: nat, fh: Entry?,
                    fl: Entry?)
      returns (n': nat, fh': Entry?, fl': Entry?, next: Entry?)
      requires Sends(p, refs, n, fh, fl) && WordOf(x) == w && Done(t, w) && x !in p.held && Apart(p.held + [x], p.free)
      modifies this`free, this`puts, this`calls, refs, x`id, x`error, x`next, x`prev, LastOf(fh, fl, x)`next
      ensures next == old(x.next) && x.id == 0
      ensures Sends(Advance(t, p, x, w), refs, n', fh', fl')
    {
      assert x in p.held + [x] && x !in p.free;
      n' := Record(x, refs, n);
      ghost var batch := refs[..n'];
      assert Private(fh, fl, p.held) && Chain(free, p.free);
      n', fh', fl', next := Hold(x, refs, n', fh, fl, p.held, p.free);
      assert |batch| == NUM_REFID ==> refs[..] == batch;
    }

    /** The lists of a poll are well formed and share no object, with each other or with what it still has to look
        at. */
    ghost predicate Tracks(p: Progress, todo: seq<Entry>, refs: array<Report>, n: nat,
                           fh: Entry?, fl: Entry?, rh: Entry?, rl: Entry?)
      reads this, refs, p.held, p.free, p.kept
    {
      Sends(p, refs, n, fh, fl) && Private(rh, rl, p.kept) && Separate(p, todo)
    }

    method TurnDone(ghost t: Test, ghost p: Progress, ghost todo: seq<Entry>, ghost w: Word, x: Entry,
                    refs: array<Report>, n: nat, fh: Entry?, fl: Entry?, ghost rh: Entry?, ghost rl: Entry?)
      returns (n': nat, fh': Entry?, fl': Entry?, next: Entry?)
      requires Tracks(p, todo, refs, n, fh, fl, rh, rl) && todo != [] && x == todo[0] && WordOf(x) == w && Done(t, w)
      modifies this`free, this`puts, this`calls, refs, x`id, x`error, x`next, x`prev, LastOf(fh, fl, x)`next
      ensures Tracks(Advance(t, p, x, w), todo[1..], refs, n', fh', fl', rh, rl)
      ensures next == old(x.next) && x.id == 0
    {
      AdvanceSeparate(t, p, todo, w);
      assert x in todo && x !in p.held && x !in p.free && x !in p.kept && LastOf(fh, fl, x) !in p.kept;
      n', fh', fl', next := TakeDone(t, p, w, x, refs, n, fh, fl);
    }

    method TurnKept(ghost t: Test, ghost p: Progress, ghost todo: seq<Entry>, ghost w: Word, x: Entry,
                    ghost refs: array<Report>, ghost n: nat, ghost fh: Entry?, ghost fl: Entry?, rh: Entry?, rl: Entry?)
      returns (rh': Entry, rl': Entry, next: Entry?)
      requires Tracks(p, todo, refs, n, fh, fl, rh, rl) && todo != [] && x == todo[0] && WordOf(x) == w && !Done(t, w)
      modifies x`next, x`prev, LastOf(rh, rl, x)`next
      ensures Tracks(Advance(t, p, x, w), todo[1..], refs, n, fh, fl, rh', rl')
      ensures next == old(x.next)
    {
      assert x in todo && LastOf(rh, rl, x) in p.kept + [x];
      AdvanceSeparate(t, p, todo, w);
      rh', rl', next := Enqueue(rh, rl, p.kept, x);
    }

    /** One turn of the loop for a done object; `rest` is what follows it. */
    method LookDone(ghost t: Test, ghost p: Progress, ghost todo: seq<Entry>, ghost w: Word, ghost rest: seq<Entry>,
                    ghost words: seq<Word>, x: Entry, refs: array<Report>, n: nat, fh: Entry?, fl: Entry?,
                    ghost rh: Entry?, ghost rl: Entry?, ghost stay: seq<Word>, ghost done: seq<Entry>)
      returns (n': nat, fh': Entry?, fl': Entry?, next: Entry?)
      requires Tracks(p, todo, refs, n, fh, fl, rh, rl) && todo != [] && x == todo[0] && rest == todo[1..]
      requires Holds(p.kept, stay) && Cleared(done)
      requires WordOf(x) == w && Done(t, w)
      requires Chain(x.next, rest) && Holds(rest, words) && x !in rest && LastOf(fh, fl, x) !in rest
      modifies this`free, this`puts, this`calls, refs, x`id, x`error, x`next, x`prev, LastOf(fh, fl, x)`next
      ensures Tracks(Advance(t, p, x, w), rest, refs, n', fh', fl', rh, rl) && Chain(next, rest) && Holds(rest, words)
      ensures Holds(p.kept, stay) && Cleared(done + [x])
    {
      assert x !in p.kept;
      n', fh', fl', next := TurnDone(t, p, todo, w, x, refs, n, fh, fl, rh, rl);
    }

    method LookKept(ghost t: Test, ghost p: Progress, ghost todo: seq<Entry>, ghost w: Word, ghost rest: seq<Entry>,
                    ghost words: seq<Word>, x: Entry, ghost refs: array<Report>, ghost n: nat, ghost fh: Entry?,
                    ghost fl: Entry?, rh: Entry?, rl: Entry?, ghost stay: seq<Word>, ghost done: seq<Entry>)
      returns (rh': Entry, rl': Entry, next: Entry?)
      requires Tracks(p, todo, refs, n, fh, fl, rh, rl) && todo != [] && x == todo[0] && rest == todo[1..]
      requires Holds(p.kept, stay) && Cleared(done)
      requires WordOf(x) == w && !Done(t, w)
      requires Chain(x.next, rest) && Holds(rest, words) && x !in rest && LastOf(rh, rl, x) !in rest
      modifies x`next, x`prev, LastOf(rh, rl, x)`next
      ensures Tracks(Advance(t, p, x, w), rest, refs, n, fh, fl, rh', rl') && Chain(next, rest) && Holds(rest, words)
      ensures Holds(p.kept + [x], stay + [w]) && Cleared(done)
    {
      rh', rl', next := TurnKept(t, p, todo, w, x, refs, n, fh, fl, rh, rl);
    }

    /** The poll has the objects `todo` still to look at. */
    ghost predicate Looking(p: Progress, mro: Entry?, todo: seq<Entry>, words: seq<Word>, refs: array<Report>, n: nat,
                            fh: Entry?, fl: Entry?, rh: Entry?, rl: Entry?)
      reads this, refs, p.held, p.free, p.kept, todo
    {
      Chain(mro, todo) && Holds(todo, words) && Tracks(p, todo, refs, n, fh, fl, rh, rl)
    }

    /** What stays keeps its word, what is done has no identifier any more. */
    ghost predicate Kept(p: Progress, stay: seq<Word>, done: seq<Entry>)
      reads p.kept, done
    {
      Holds(p.kept, stay) && Cleared(done)
    }

    /** One turn of the loop. */
    method Look(t: Test, ghost p: Progress, ghost todo: seq<Entry>, ghost words: seq<Word>, x: Entry, pending: nat,
                refs: array<Report>, n: nat, fh: Entry?, fl: Entry?, rh: Entry?, rl: Entry?,
                ghost stay: seq<Word>, ghost done: seq<Entry>, ghost l: seq<Entry>)
      returns (pending': nat, n': nat, fh': Entry?, fl': Entry?, rh': Entry?, rl': Entry?, next: Entry?)
      requires Looking(p, x, todo, words, refs, n, fh, fl, rh, rl) && Kept(p, stay, done)
      requires Within(todo, l) && Within(p.held, l) && Within(p.kept, l)
      modifies this`free, this`puts, this`calls, refs, l`next, l`prev, l`id, l`error
      ensures Looking(Advance(t, p, x, words[0]), next, todo[1..], words[1..], refs, n', fh', fl', rh', rl')
      ensures pending' == pending + (if !Done(t, words[0]) && (t.CounterDone? || words[0].id != 0) then 1 else 0)
      ensures if Done(t, words[0]) then Kept(Advance(t, p, x, words[0]), stay, done + [x])
              else Kept(Advance(t, p, x, words[0]), stay + [words[0]], done)
      ensures Within(todo[1..], l) && Within(Advance(t, p, x, words[0]).held, l)
        && Within(Advance(t, p, x, words[0]).kept, l)
    {
      n', fh', fl', rh', rl', pending' := n, fh, fl, rh, rl, pending;
      ChainTail(x, todo, words);
      LastNotIn(p.held, fh, fl, todo);
      LastNotIn(p.kept, rh, rl, todo);
      LastIsIn(p.held, fh, fl, x, l);
      LastIsIn(p.kept, rh, rl, x, l);
      if Finished(t, x) {
        n', fh', fl', next := LookDone(t, p, todo, words[0], todo[1..], words[1..], x, refs, n, fh, fl, rh, rl, stay,
                                       done);
      } else {
        pending' := if t.CounterDone? || x.id != 0 then pending + 1 else pending;
        rh', rl', next := LookKept(t, p, todo, words[0], todo[1..], words[1..], x, refs, n, fh, fl, rh, rl, stay, done);
      }
    }

    /** Everything that the loop of a poll keeps. */
    ghost predicate Going(t: Test, p0: Progress, l: seq<Entry>, words: seq<Word>, p: Progress, mro: Entry?,
                          todo: seq<Entry>, left: seq<Word>, pending: nat, stay: seq<Word>, done: seq<Entry>,
                          refs: array<Report>, n: nat, fh: Entry?, fl: Entry?, rh: Entry?, rl: Entry?)
      requires |l| == |words|
      reads this, refs, p.held, p.free, p.kept, todo, done
    {
      && Looking(p, mro, todo, left, refs, n, fh, fl, rh, rl) && Kept(p, stay, done)
      && Halfway(t, p0, l, words, p, todo, left, pending, stay, done)
      && Within(todo, l) && Within(p.held, l) && Within(p.kept, l)
    }

    method Turn(t: Test, ghost p0: Progress, ghost l: seq<Entry>, ghost words: seq<Word>, ghost p: Progress, x: Entry,
                ghost todo: seq<Entry>, ghost left: seq<Word>, pending: nat, ghost stay: seq<Word>,
                ghost done: seq<Entry>, refs: array<Report>, n: nat, fh: Entry?, fl: Entry?, rh: Entry?, rl: Entry?)
      returns (ghost p': Progress, next: Entry?, pending': nat, ghost stay': seq<Word>, ghost done': seq<Entry>,
               n': nat, fh': Entry?, fl': Entry?, rh': Entry?, rl': Entry?)
      requires |l| == |words|
      requires Going(t, p0, l, words, p, x, todo, left, pending, stay, done, refs, n, fh, fl, rh, rl)
      modifies this`free, this`puts, this`calls, refs, l`next, l`prev, l`id, l`error
      ensures todo != [] && left != []
      ensures Going(t, p0, l, words, p', next, todo[1..], left[1..], pending', stay', done', refs, n', fh', fl', rh',
                    rl')
    {
      HalfwayOn(t, p0, l, words, p, todo, left, pending, stay, done);
      stay', done' := if Done(t, left[0]) then stay else stay + [left[0]], if Done(t, left[0]) then done + [x]
        else done;
      p' := Advance(t, p, x, left[0]);
      pending', n', fh', fl', rh', rl', next := Look(t, p, todo, left, x, pending, refs, n, fh, fl, rh, rl, stay, done,
                                                     l);
    }

    /** The loop of a poll: looks at every object of the detached list. */
    method Partition(t: Test, head: Entry?, ghost l: seq<Entry>, ghost words: seq<Word>, ghost p0: Progress,
                     refs: array<Report>)
      returns (ghost p: Progress, pending: nat, n: nat, fh: Entry?, fl: Entry?, rh: Entry?, rl: Entry?)
      requires Looking(p0, head, l, words, refs, 0, null, null, null, null) && p0.held == p0.kept == []
      modifies this`free, this`puts, this`calls, refs, l`next, l`prev, l`id, l`error
      ensures p == AdvanceAll(t, p0, l, words) && pending == StillWaiting(t, words)
      ensures Tracks(p, [], refs, n, fh, fl, rh, rl) && Within(p.held, l) && Within(p.kept, l)
      ensures Kept(p, KeptWords(t, words), Those(t, true, l, words))
    {
      var mro := head;
      p, pending, n := p0, 0, 0;
      fh, fl, rh, rl := null, null, null, null;
      ghost var todo, left := l, words;
      ghost var stay: seq<Word>, done: seq<Entry> := [], [];
      while mro != null
        invariant Going(t, p0, l, words, p, mro, todo, left, pending, stay, done, refs, n, fh, fl, rh, rl)
        decreases |todo|
      {
        p, mro, pending, stay, done, n, fh, fl, rh, rl :=
          Turn(t, p0, l, words, p, mro, todo, left, pending, stay, done, refs, n, fh, fl, rh, rl);
        todo, left := todo[1..], left[1..];
      }
      HalfwayEnd(t, p0, l, words, p, pending, stay, done);
    }

    /** Frees what a poll still holds back. */
    method FreeHeld(first: Entry?, last: Entry?, ghost d: seq<Entry>, ghost f: seq<Entry>)
      requires Private(first, last, d) && Chain(free, f) && Apart(d, f)
      modifies this`free, Ends(first, last)`next
      ensures Chain(free, d + f)
    {
      if first != null {
        SpliceFree(first, last, d, f);
      } else {
        assert d + f == f;
      }
    }

    /** The last locked section of a poll: what is not done goes ahead of what was released meanwhile. */
    method Repost(first: Entry?, last: Entry?, ghost kept: seq<Entry>, ghost l: seq<Entry>)
      requires Private(first, last, kept) && Chain(list, l) && Apart(kept, l)
      modifies this`list, Ends(first, last)`next
      ensures Chain(list, kept + l)
    {
      if first != null {
        Splice(first, last, kept, list, l);
        list := first;
      } else {
        assert kept + l == l;
      }
    }

    /** The end of a poll, on lists that share no object; `released` is what has come meanwhile. */
    method PutBack(fh: Entry?, fl: Entry?, rh: Entry?, rl: Entry?,
                   ghost held: seq<Entry>, ghost f: seq<Entry>, ghost kept: seq<Entry>, ghost released: seq<Entry>)
      requires Private(fh, fl, held) && Private(rh, rl, kept) && Chain(free, f) && Chain(list, released)
      requires Apart(held, f) && Apart(held, kept) && Apart(f, kept) && Apart(held, released) && Apart(kept, released)
      modifies this`free, this`list, Ends(fh, fl)`next, Ends(rh, rl)`next
      ensures Chain(free, held + f) && Chain(list, kept + released)
    {
      ghost var freed := held + f;
      assert fh != null ==> fl in held && fl !in kept && fl !in released;
      assert rh != null ==> rl in kept && rl !in freed;
      FreeHeld(fh, fl, held, f);
      Repost(rh, rl, kept, released);
    }

    method Finish(ghost p: Progress, refs: array<Report>, n: nat, fh: Entry?, fl: Entry?, rh: Entry?, rl: Entry?,
                  ghost released: seq<Entry>, ghost stay: seq<Word>, ghost done: seq<Entry>)
      requires Tracks(p, [], refs, n, fh, fl, rh, rl) && Chain(list, released) && Kept(p, stay, done)
      requires Apart(p.held, released) && Apart(p.kept, released)
      modifies this`free, this`list, this`calls, Ends(fh, fl)`next, Ends(rh, rl)`next
      ensures Chain(free, p.held + p.free) && Chain(list, p.kept + released) && puts == p.puts
      ensures calls == AllCalls(p) && Kept(p, stay, done)
    {
      PutBack(fh, fl, rh, rl, p.held, p.free, p.kept, released);
      if n != 0 {
        calls := calls + [refs[..n]];
      }
    }

    /** A poll of `head` as a fold over its entries. */
    method Run(t: Test, head: Entry?, ghost l: seq<Entry>, ghost words: seq<Word>, ghost f: seq<Entry>,
               ghost released: seq<Entry>) returns (pending: nat, ghost p: Progress)
      requires Chain(head, l) && Holds(l, words) && NoDup(l) && Chain(free, f) && Apart(l, f)
      requires Chain(list, released) && Apart(l, released)
      modifies this, l`next, l`prev, l`id, l`error
      ensures p == AdvanceAll(t, Progress([], old(calls), old(puts), [], f, []), l, words)
      ensures Chain(free, p.held + p.free) && Chain(list, p.kept + released)
      ensures pending == StillWaiting(t, words) && calls == AllCalls(p) && puts == p.puts
      ensures Kept(p, KeptWords(t, words), Those(t, true, l, words))
    {
      var refs := new Report[NUM_REFID](_ => Report(0, 0));
      var n: nat;
      var fh: Entry?, fl: Entry?, rh: Entry?, rl: Entry?;
      p, pending, n, fh, fl, rh, rl := Sweep(t, head, l, words, f, released, refs);
      Finish(p, refs, n, fh, fl, rh, rl, released, KeptWords(t, words), Those(t, true, l, words));
    }

    /** The loop, beside a list of entries that are not its own. */
    method Sweep(t: Test, head: Entry?, ghost l: seq<Entry>, ghost words: seq<Word>, ghost f: seq<Entry>,
                 ghost released: seq<Entry>, refs: array<Report>)
      returns (ghost p: Progress, pending: nat, n: nat, fh: Entry?, fl: Entry?, rh: Entry?, rl: Entry?)
      requires Chain(head, l) && Holds(l, words) && NoDup(l) && Chain(free, f) && Apart(l, f)
      requires Chain(list, released) && Apart(l, released) && refs.Length == NUM_REFID
      modifies this`free, this`puts, this`calls, refs, l`next, l`prev, l`id, l`error
      ensures p == AdvanceAll(t, Progress([], old(calls), old(puts), [], f, []), l, words)
      ensures pending == StillWaiting(t, words) && Tracks(p, [], refs, n, fh, fl, rh, rl)
      ensures Kept(p, KeptWords(t, words), Those(t, true, l, words))
      ensures Chain(list, released) && Apart(p.held, released) && Apart(p.kept, released)
      ensures Ends(fh, fl) <= (set x | x in l) && Ends(rh, rl) <= (set x | x in l)
    {
      assert refs[..0] == [];
      assert forall i :: 0 <= i < |released| ==> released[i] in released && released[i] !in l;
      p, pending, n, fh, fl, rh, rl := Partition(t, head, l, words, Progress([], calls, puts, [], f, []), refs);
      assert forall i :: 0 <= i < |released| ==> released[i].next == old(released[i].next);
    }

    /** A poll from its first locked section on, when `released` has come since: what is put back goes ahead of it. */
    method PollDetached(t: Test, head: Entry?, ghost l: seq<Entry>, ghost words: seq<Word>, ghost f: seq<Entry>,
                        ghost released: seq<Entry>) returns (pending: nat, ghost p: Progress)
      requires Chain(head, l) && Holds(l, words) && NoDup(l) && Chain(free, f) && Apart(l, f)
      requires Chain(list, released) && Apart(l, released)
      modifies this, l`next, l`prev, l`id, l`error
      ensures p == AdvanceAll(t, Progress([], old(calls), old(puts), [], f, []), l, words)
      ensures Chain(free, AllFree(p)) && Chain(list, p.kept + released)
      ensures TakesTheFinished(t, l, words, p.kept, pending, old(calls), calls, old(puts), puts)
      ensures FreesTheRest(l, p.kept, f, AllFree(p))
      ensures Kept(p, KeptWords(t, words), Those(t, true, l, words))
    {
      PollTakes(t, l, words, f, calls, puts);
      PollFreesRest(t, l, words, f, calls, puts);
      pending, p := Run(t, head, l, words, f, released);
    }

    /** `rdma_poll_rdma_counter` and `poll_pkt_message`, when nothing is released meanwhile. */
    method Poll(t: Test, ghost l: seq<Entry>, ghost words: seq<Word>, ghost f: seq<Entry>)
      returns (pending: nat, ghost p: Progress)
      requires Chain(list, l) && Holds(l, words) && NoDup(l) && Chain(free, f) && Apart(l, f)
      modifies this, l`next, l`prev, l`id, l`error
      ensures p == AdvanceAll(t, Progress([], old(calls), old(puts), [], f, []), l, words)
      ensures Chain(free, AllFree(p)) && Chain(list, p.kept) && FreesTheRest(l, p.kept, f, AllFree(p))
      ensures TakesTheFinished(t, l, words, p.kept, pending, old(calls), calls, old(puts), puts)
      ensures Kept(p, KeptWords(t, words), Those(t, true, l, words))
    {
      var head := Detach(l);
      pending, p := PollDetached(t, head, l, words, f, []);
      assert p.kept + [] == p.kept;
    }

    /** The first `k` entries are cancelled and the others as they were. */
    ghost predicate Cancelling(l: seq<Entry>, words: seq<Word>, k: nat, rdma: bool)
      requires |l| == |words|
      reads l
    {
      && (forall i :: k <= i < |l| ==> l[i].id == words[i].id && l[i].counter == words[i].counter)
      && (forall i :: 0 <= i < k && i < |l| ==> l[i].id == 0 && l[i].counter == if rdma then 0 else words[i].counter)
    }

    /** Cancels the request of one entry. */
    method Cancel(x: Entry, rdma: bool, ghost head: Entry?, ghost l: seq<Entry>, ghost words: seq<Word>, ghost k: nat)
      requires |l| == |words| && NoDup(l) && k < |l| && x == l[k] && Cancelling(l, words, k, rdma) && Chain(head, l)
      modifies this`calls, x`counter, x`id
      ensures calls + Cancels(words[k + 1..]) == old(calls) + Cancels(words[k..])
      ensures Cancelling(l, words, k + 1, rdma) && Chain(head, l)
    {
      CancelsStep(words, k, calls);
      var request := x.id;
      if rdma {
        x.counter := 0;
      }
      x.id := 0;
      if request != 0 {
        calls := calls + [[Report(request, ECANCELED)]];
      }
    }

    /** The loop of a flush: cancels every request of the detached list, with one callback each. */
    method CancelAll(head: Entry, rdma: bool, ghost l: seq<Entry>, ghost words: seq<Word>) returns (last: Entry)
      requires l != [] && Chain(head, l) && NoDup(l) && Holds(l, words)
      modifies this`calls, l`counter, l`id
      ensures last == l[|l| - 1] && calls == old(calls) + Cancels(words)
      ensures Chain(head, l) && Cancelling(l, words, |l|, rdma)
    {
      var x: Entry? := head;
      last := head;
      ghost var k := 0;
      assert words[0..] == words;
      while x != null
        invariant k <= |l| && x == (if k < |l| then l[k] else null) && (k > 0 ==> last == l[k - 1])
        invariant calls + Cancels(words[k..]) == old(calls) + Cancels(words)
        invariant Cancelling(l, words, k, rdma) && Chain(head, l)
        decreases |l| - k
      {
        last := x;
        Cancel(last, rdma, head, l, words, k);
        x := last.next;
        assert x == After(l, k);
        k := k + 1;
      }
    }

    /** A flush of a detached list. */
    method CancelDetached(head: Entry, rdma: bool, ghost l: seq<Entry>, ghost words: seq<Word>, ghost f: seq<Entry>)
      requires l != [] && Chain(head, l) && NoDup(l) && Holds(l, words) && Chain(free, f) && Apart(l, f)
      modifies this`free, this`calls, l`next, l`id, l`counter
      ensures Chain(free, l + f) && calls == old(calls) + Cancels(words)
      ensures Cancelling(l, words, |l|, rdma)
    {
      var last := CancelAll(head, rdma, l, words);
      assert last in l && last !in f;
      Splice(head, last, l, free, f);
      free := head;
    }

    /** `flush_rdma_counter_reqid` and `flush_pkt_reqid`. */
    method CancelList(rdma: bool, ghost l: seq<Entry>, ghost words: seq<Word>, ghost f: seq<Entry>)
      requires Chain(list, l) && NoDup(l) && Holds(l, words) && Chain(free, f) && Apart(l, f)
      modifies this, l`next, l`id, l`counter
      ensures list == null && Chain(free, l + f) && puts == old(puts)
      ensures Extends(calls, old(calls)) && Cancelled(words, calls[|old(calls)|..])
      ensures Cancelling(l, words, |l|, rdma)
    {
      CancelsPicked(words);
      if list == null {
        assert l + f == f;
        assert calls[|calls|..] == Cancels(words);
        return;
      }
      var head := Detach(l);
      CancelDetached(head, rdma, l, words, f);
      assert calls[|old(calls)|..] == Cancels(words);
    }
  }

  // ----- What a poll achieves -----

  lemma {:induction false} BatchesOfEight(batch: seq<Report>, rest: seq<Report>)
    requires |batch| < NUM_REFID
    ensures Concat(Batches(batch, rest)) == batch + rest
    ensures InEights(Batches(batch, rest))
    decreases |rest|
  {
    if rest == [] {
      assert batch + rest == batch;
      if batch != [] {
        assert Concat([batch]) == batch + Concat([]);
      }
    } else {
      var more := batch + [rest[0]];
      assert batch + rest == more + rest[1..];
      if |more| == NUM_REFID {
        BatchesOfEight([], rest[1..]);
        EightInFront(more, Batches([], rest[1..]));
      } else {
        BatchesOfEight(more, rest[1..]);
      }
    }
  }

  /** One to eight reports in each, and eight in all but the last. */
  predicate InEights(batches: seq<seq<Report>>) {
    forall i :: 0 <= i < |batches| ==>
      1 <= |batches[i]| <= 8 && (i < |batches| - 1 ==> |batches[i]| == 8)
  }

  lemma {:induction false} EightInFront(first: seq<Report>, batches: seq<seq<Report>>)
    requires |first| == NUM_REFID && InEights(batches)
    ensures InEights([first] + batches) && Concat([first] + batches) == first + Concat(batches)
  {
    assert ([first] + batches)[1..] == batches;
  }

  function Concat(batches: seq<seq<Report>>): seq<Report> {
    if batches == [] then [] else batches[0] + Concat(batches[1..])
  }

  /** The callbacks of a finished poll. */
  function AllCalls(p: Progress): seq<seq<Report>> {
    p.calls + (if p.batch == [] then [] else [p.batch])
  }

  /** A poll is a filter: entries that are not done stay, in order, and the completion puts are those of the done
      ones, in order. */
  lemma {:induction false} PollFilters(t: Test, p: Progress, s: seq<Entry>, words: seq<Word>)
    requires |s| == |words|
    ensures AdvanceAll(t, p, s, words).kept == p.kept + Those(t, false, s, words)
    ensures AdvanceAll(t, p, s, words).puts == p.puts + Puts(t, words)
    decreases |s|
  {
    if s != [] {
      PollFilters(t, Advance(t, p, s[0], words[0]), s[1..], words[1..]);
    }
  }

  lemma {:induction false} BatchesStep(batch: seq<Report>, r: Report, rest: seq<Report>)
    requires |batch| < NUM_REFID
    ensures Batches(batch, [r] + rest)
         == if |batch| + 1 == NUM_REFID then [batch + [r]] + Batches([], rest) else Batches(batch + [r], rest)
  {
    assert ([r] + rest)[1..] == rest;
  }

  /** The callbacks of a poll carry the request identifiers of the done entries, in order, in batches of eight. */
  lemma {:induction false} PollReports(t: Test, p: Progress, s: seq<Entry>, words: seq<Word>)
    requires |s| == |words| && |p.batch| < NUM_REFID
    ensures AllCalls(AdvanceAll(t, p, s, words)) == p.calls + Batches(p.batch, Reports(t, words))
    decreases |s|
  {
    if s != [] {
      var w := words[0];
      var p' := Advance(t, p, s[0], w);
      var rest := Reports(t, words[1..]);
      PollReports(t, p', s[1..], words[1..]);
      if Done(t, w) && w.id != 0 {
        BatchesStep(p.batch, Report(w.id, w.error), rest);
        assert p.calls + ([p.batch + [Report(w.id, w.error)]] + Batches([], rest))
            == (p.calls + [p.batch + [Report(w.id, w.error)]]) + Batches([], rest);
      } else {
        assert Reports(t, words) == rest && p'.batch == p.batch;
      }
    }
  }

  /** The free list of a finished poll. */
  function AllFree(p: Progress): seq<Entry> {
    p.held + p.free
  }

  predicate EndsWith(s: seq<Entry>, tail: seq<Entry>) {
    |tail| <= |s| && s[|s| - |tail|..] == tail
  }

  lemma {:induction false} EndsWithTransitive(a: seq<Entry>, b: seq<Entry>, c: seq<Entry>)
    requires EndsWith(a, b) && EndsWith(b, c)
    ensures EndsWith(a, c)
  {
    assert a[|a| - |c|..] == a[|a| - |b|..][|b| - |c|..];
  }

  lemma {:induction false} AdvanceFrees(t: Test, p: Progress, x: Entry, w: Word)
    ensures EndsWith(Advance(t, p, x, w).free, p.free)
    ensures multiset(AllFree(Advance(t, p, x, w)))
      == multiset(AllFree(p)) + (if Done(t, w) then multiset{x} else multiset{})
  {
  }

  /** The free list gains exactly the done entries. */
  lemma {:induction false} PollFreesDone(t: Test, p: Progress, s: seq<Entry>, words: seq<Word>)
    requires |s| == |words|
    ensures multiset(AllFree(AdvanceAll(t, p, s, words))) == multiset(AllFree(p)) + multiset(Those(t, true, s, words))
    decreases |s|
  {
    if s != [] {
      var rest := Those(t, true, s[1..], words[1..]);
      AdvanceFrees(t, p, s[0], words[0]);
      PollFreesDone(t, Advance(t, p, s[0], words[0]), s[1..], words[1..]);
      if Done(t, words[0]) {
        assert Those(t, true, s, words) == [s[0]] + rest;
      } else {
        assert Those(t, true, s, words) == rest;
      }
    }
  }

  /** They go to its front: what was on the free list stays at its end. */
  lemma {:induction false} PollFreesInFront(t: Test, p: Progress, s: seq<Entry>, words: seq<Word>)
    requires |s| == |words|
    ensures EndsWith(AllFree(AdvanceAll(t, p, s, words)), p.free)
    decreases |s|
  {
    if s != [] {
      var p' := Advance(t, p, s[0], words[0]);
      PollFreesInFront(t, p', s[1..], words[1..]);
      AdvanceFrees(t, p, s[0], words[0]);
      EndsWithTransitive(AllFree(AdvanceAll(t, p', s[1..], words[1..])), p'.free, p.free);
    }
  }

  // ----- Which entries a poll takes -----

  /** How many of the first `k` words have property `p`. */
  function Counted(p: Word -> bool, words: seq<Word>, k: nat): nat
    requires k <= |words|
  {
    if k == 0 then 0 else (if p(words[0]) then 1 else 0) + Counted(p, words[1..], k - 1)
  }

  /** `out` has, in order, what `all` has at the places of the words with property `p`, and nothing else. */
  ghost predicate Picks<A>(out: seq<A>, all: seq<A>, words: seq<Word>, p: Word -> bool)
    requires |all| == |words|
  {
    && |out| == Counted(p, words, |words|)
    && forall i :: 0 <= i < |words| && p(words[i]) ==>
         Counted(p, words, i) < |out| && out[Counted(p, words, i)] == all[i]
  }

  lemma {:induction false} PicksFirst<A>(out: seq<A>, all: seq<A>, words: seq<Word>, p: Word -> bool)
    requires |all| == |words| > 0 && Picks(out, all[1..], words[1..], p)
    ensures Picks((if p(words[0]) then [all[0]] else []) + out, all, words, p)
  {
    var out' := (if p(words[0]) then [all[0]] else []) + out;
    forall i | 0 <= i < |words| && p(words[i])
      ensures Counted(p, words, i) < |out'| && out'[Counted(p, words, i)] == all[i]
    {
      if i > 0 {
        assert words[1..][i - 1] == words[i] && all[1..][i - 1] == all[i];
      }
    }
  }

  lemma {:induction false} ThosePicked(t: Test, done: bool, s: seq<Entry>, words: seq<Word>, p: Word -> bool)
    requires |s| == |words| && forall w :: p(w) <==> Done(t, w) == done
    ensures Picks(Those(t, done, s, words), s, words, p)
  {
    if s != [] {
      ThosePicked(t, done, s[1..], words[1..], p);
      PicksFirst(Those(t, done, s[1..], words[1..]), s, words, p);
    }
  }

  lemma {:induction false} ReportsPicked(t: Test, words: seq<Word>, all: seq<Report>, p: Word -> bool)
    requires |all| == |words| && forall i :: 0 <= i < |words| ==> all[i] == Report(words[i].id, words[i].error)
    requires forall w :: p(w) <==> Done(t, w) && w.id != 0
    ensures Picks(Reports(t, words), all, words, p)
  {
    if words != [] {
      ReportsPicked(t, words[1..], all[1..], p);
      PicksFirst(Reports(t, words[1..]), all, words, p);
    }
  }

  lemma {:induction false} PutsPicked(t: Test, words: seq<Word>, all: seq<CompletionPut>, p: Word -> bool)
    requires |all| == |words|
    requires forall i :: 0 <= i < |words| ==> all[i] == CompletionPut(words[i].remote, words[i].error)
    requires forall w :: p(w) <==> Done(t, w) && w.remote != 0
    ensures Picks(Puts(t, words), all, words, p)
  {
    if words != [] {
      PutsPicked(t, words[1..], all[1..], p);
      PicksFirst(Puts(t, words[1..]), all, words, p);
    }
  }

  lemma {:induction false} WaitingCounted(t: Test, words: seq<Word>, p: Word -> bool)
    requires forall w :: p(w) <==> !Done(t, w) && (t.CounterDone? || w.id != 0)
    ensures StillWaiting(t, words) == Counted(p, words, |words|)
  {
    if words != [] {
      WaitingCounted(t, words[1..], p);
    }
  }

  /** An RDMA object stays on the list while its counter is positive and its error word is 0; a packet descriptor while
      its count is beyond the `injected` ones of the hardware. */
  ghost predicate Keeps(t: Test, l: seq<Entry>, words: seq<Word>, kept: seq<Entry>)
    requires |l| == |words|
  {
    exists busy: Word -> bool ::
      && Picks(kept, l, words, busy)
      && forall w :: busy(w) <==> if t.CounterDone? then w.counter > 0 && w.error == 0 else w.counter > t.injected
  }

  /** The poll returns how many stay, of packet descriptors those with an identifier. */
  ghost predicate Returns(t: Test, words: seq<Word>, pending: nat) {
    exists busy: Word -> bool ::
      && pending == Counted(busy, words, |words|)
      && forall w :: busy(w) <==> if t.CounterDone? then w.counter > 0 && w.error == 0
                                  else w.counter > t.injected && w.id != 0
  }

  /** All others with an identifier are reported, each with its error, in order. */
  ghost predicate Tells(t: Test, words: seq<Word>, reports: seq<Report>) {
    exists told: Word -> bool, all: seq<Report> ::
      && |all| == |words| && (forall i :: 0 <= i < |all| ==> all[i] == Report(words[i].id, words[i].error))
      && Picks(reports, all, words, told)
      && forall w :: told(w) <==> w.id != 0 && if t.CounterDone? then w.counter == 0 || w.error != 0
                                               else w.counter <= t.injected
  }

  /** All others with a remote object send it their error, in order. */
  ghost predicate Answers(t: Test, words: seq<Word>, puts: seq<CompletionPut>) {
    exists sent: Word -> bool, all: seq<CompletionPut> ::
      && |all| == |words| && (forall i :: 0 <= i < |all| ==> all[i] == CompletionPut(words[i].remote, words[i].error))
      && Picks(puts, all, words, sent)
      && forall w :: sent(w) <==> w.remote != 0 && if t.CounterDone? then w.counter == 0 || w.error != 0
                                                   else w.counter <= t.injected
  }

  lemma {:induction false} PollKeeps(t: Test, l: seq<Entry>, words: seq<Word>)
    requires |l| == |words|
    ensures Keeps(t, l, words, Those(t, false, l, words))
  {
    var busy := (w: Word) => if t.CounterDone? then w.counter > 0 && w.error == 0 else w.counter > t.injected;
    ThosePicked(t, false, l, words, busy);
  }

  lemma {:induction false} PollReturns(t: Test, words: seq<Word>)
    ensures Returns(t, words, StillWaiting(t, words))
  {
    var busy := (w: Word) => if t.CounterDone? then w.counter > 0 && w.error == 0
      else w.counter > t.injected && w.id != 0;
    WaitingCounted(t, words, busy);
  }

  lemma {:induction false} PollTells(t: Test, words: seq<Word>)
    ensures Tells(t, words, Reports(t, words))
  {
    var told := (w: Word) => w.id != 0 && if t.CounterDone? then w.counter == 0 || w.error != 0
                                          else w.counter <= t.injected;
    var all := seq(|words|, i requires 0 <= i < |words| => Report(words[i].id, words[i].error));
    ReportsPicked(t, words, all, told);
  }

  lemma {:induction false} PollSends(t: Test, words: seq<Word>)
    ensures Answers(t, words, Puts(t, words))
  {
    var sent := (w: Word) => w.remote != 0 && if t.CounterDone? then w.counter == 0 || w.error != 0
                                              else w.counter <= t.injected;
    var all := seq(|words|, i requires 0 <= i < |words| => CompletionPut(words[i].remote, words[i].error));
    PutsPicked(t, words, all, sent);
  }

  /** A flush calls back each request of the list, one by one and in order, and says that it was cancelled. */
  ghost predicate Cancelled(words: seq<Word>, calls: seq<seq<Report>>) {
    exists owned: Word -> bool, all: seq<seq<Report>> ::
      && |all| == |words| && (forall i :: 0 <= i < |all| ==> all[i] == [Report(words[i].id, ECANCELED)])
      && Picks(calls, all, words, owned) && forall w :: owned(w) <==> w.id != 0
  }

  lemma {:induction false} CancelsEach(words: seq<Word>, all: seq<seq<Report>>, owned: Word -> bool)
    requires |all| == |words| && forall i :: 0 <= i < |all| ==> all[i] == [Report(words[i].id, ECANCELED)]
    requires forall w :: owned(w) <==> w.id != 0
    ensures Picks(Cancels(words), all, words, owned)
  {
    if words != [] {
      CancelsEach(words[1..], all[1..], owned);
      PicksFirst(Cancels(words[1..]), all, words, owned);
    }
  }

  lemma {:induction false} CancelsPicked(words: seq<Word>)
    ensures Cancelled(words, Cancels(words))
  {
    var all := seq(|words|, i requires 0 <= i < |words| => [Report(words[i].id, ECANCELED)]);
    CancelsEach(words, all, (w: Word) => w.id != 0);
  }

  predicate Extends<A(==)>(s: seq<A>, before: seq<A>) {
    |before| <= |s| && s[..|before|] == before
  }

  /** The outcome of a poll, on the words of its entries: what stays, what it returns, the reports it makes, in full
      batches of eight but the last, and the completion puts it sends. */
  ghost predicate TakesTheFinished(t: Test, l: seq<Entry>, words: seq<Word>, kept: seq<Entry>, pending: nat,
                                   calls: seq<seq<Report>>, calls': seq<seq<Report>>,
                                   puts: seq<CompletionPut>, puts': seq<CompletionPut>)
    requires |l| == |words|
  {
    && Keeps(t, l, words, kept) && Returns(t, words, pending)
    && Extends(calls', calls) && InEights(calls'[|calls|..]) && Tells(t, words, Concat(calls'[|calls|..]))
    && Extends(puts', puts) && Answers(t, words, puts'[|puts|..])
  }

  lemma {:induction false} PollTakes(t: Test, l: seq<Entry>, words: seq<Word>, f: seq<Entry>, calls: seq<seq<Report>>,
                                     puts: seq<CompletionPut>)
    requires |l| == |words|
    ensures var p := AdvanceAll(t, Progress([], calls, puts, [], f, []), l, words);
            TakesTheFinished(t, l, words, p.kept, StillWaiting(t, words), calls, AllCalls(p), puts, p.puts)
  {
    var p0 := Progress([], calls, puts, [], f, []);
    var p := AdvanceAll(t, p0, l, words);
    PollFilters(t, p0, l, words);
    PollReports(t, p0, l, words);
    BatchesOfEight([], Reports(t, words));
    PollKeeps(t, l, words);
    PollReturns(t, words);
    PollTells(t, words);
    PollSends(t, words);
    assert [] + Reports(t, words) == Reports(t, words);
    assert AllCalls(p)[|calls|..] == Batches([], Reports(t, words));
    assert p.puts[|puts|..] == Puts(t, words);
    assert p.kept == Those(t, false, l, words);
  }

  /** What does not stay on the list is free, in front of what was free before. */
  ghost predicate FreesTheRest(l: seq<Entry>, kept: seq<Entry>, free: seq<Entry>, free': seq<Entry>) {
    EndsWith(free', free) && multiset(free') + multiset(kept) == multiset(free) + multiset(l)
  }

  lemma {:induction false} PollFreesRest(t: Test, l: seq<Entry>, words: seq<Word>, f: seq<Entry>,
                                         calls: seq<seq<Report>>, puts: seq<CompletionPut>)
    requires |l| == |words|
    ensures var p := AdvanceAll(t, Progress([], calls, puts, [], f, []), l, words);
            FreesTheRest(l, p.kept, f, AllFree(p))
  {
    var p0 := Progress([], calls, puts, [], f, []);
    PollFreesDone(t, p0, l, words);
    PollFreesInFront(t, p0, l, words);
    PollFilters(t, p0, l, words);
    PartitionIsWhole(t, l, words);
    assert AllFree(p0) == f && [] + Those(t, false, l, words) == Those(t, false, l, words);
  }

  /** With fewer than eight reports, the done entries reach the front of the free list in order. */
  lemma {:induction false} FewReportsKeepOrder(t: Test, p: Progress, s: seq<Entry>, words: seq<Word>)
    requires |s| == |words| && |p.batch| + |Reports(t, words)| < NUM_REFID
    ensures AdvanceAll(t, p, s, words).held == p.held + Those(t, true, s, words)
    ensures AdvanceAll(t, p, s, words).free == p.free
    decreases |s|
  {
    if s != [] {
      FewReportsKeepOrder(t, Advance(t, p, s[0], words[0]), s[1..], words[1..]);
    }
  }

  /** Every entry of the list is done or not done, and none is lost. */
  lemma {:induction false} PartitionIsWhole(t: Test, s: seq<Entry>, words: seq<Word>)
    requires |s| == |words|
    ensures multiset(Those(t, true, s, words)) + multiset(Those(t, false, s, words)) == multiset(s)
  {
    if s != [] {
      PartitionIsWhole(t, s[1..], words[1..]);
      FrontOf(s[0], s[1..]);
      assert s == [s[0]] + s[1..];
      if Done(t, words[0]) {
        FrontOf(s[0], Those(t, true, s[1..], words[1..]));
        assert Those(t, false, s, words) == Those(t, false, s[1..], words[1..]);
      } else {
        FrontOf(s[0], Those(t, false, s[1..], words[1..]));
        assert Those(t, true, s, words) == Those(t, true, s[1..], words[1..]);
      }
    }
  }

  lemma {:induction false} FrontOf(x: Entry, s: seq<Entry>)
    ensures multiset([x] + s) == multiset{x} + multiset(s)
  {
  }
}
