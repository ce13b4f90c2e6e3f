/** A poll on the heap is a run of the pool's protocol: what one thread does between its locked sections. */
module PollRuns {
  import Pools
  import opened PoolProtocol
  import opened PoolRuns

  function Ids(reports: seq<Pools.Report>): (ids: seq<nat>)
    ensures |ids| == |reports| && forall i :: 0 <= i < |ids| ==> ids[i] == reports[i].id
  {
    seq(|reports|, i requires 0 <= i < |reports| => reports[i].id)
  }

  /** Thread `k` of the protocol stands where a poll does: the same entries held back and put by, the same
      identifiers in its buffer, the same free list; and since `reported` it has reported the identifiers of the
      poll's callbacks. */
  ghost predicate Mirrors(s: Pool<Pools.Entry>, k: nat, p: Pools.Progress, reported: seq<nat>) {
    && k < |s.pollers| && !s.pollers[k].flush && s.free == p.free
    && Objs(s.pollers[k].held) == p.held && Objs(s.pollers[k].kept) == p.kept
    && s.pollers[k].refs == Ids(p.batch)
    && s.reported == reported + Ids(Pools.Concat(p.calls))
  }

  ghost predicate Words(items: seq<Item<Pools.Entry>>, words: seq<Pools.Word>) {
    |items| == |words| && forall i :: 0 <= i < |items| ==> items[i].id == words[i].id
  }

  lemma {:induction false} ConcatSnoc(calls: seq<seq<Pools.Report>>, batch: seq<Pools.Report>)
    ensures Pools.Concat(calls + [batch]) == Pools.Concat(calls) + batch
  {
    if calls == [] {
      assert calls + [batch] == [batch] && Pools.Concat([batch]) == batch + Pools.Concat([]);
    } else {
      assert (calls + [batch])[1..] == calls[1..] + [batch];
      ConcatSnoc(calls[1..], batch);
    }
  }

  /** The thread after it has looked, before it frees anything. */
  lemma {:induction false} LookMirrors(s: Pool<Pools.Entry>, k: nat, t: Pools.Test, p: Pools.Progress, w: Pools.Word,
                                       reported: seq<nat>)
    requires Mirrors(s, k, p, reported) && s.pollers[k].todo != [] && s.pollers[k].todo[0].id == w.id
    requires |p.batch| < Pools.NUM_REFID
    ensures Enabled(s, Look(k, Pools.Done(t, w)))
    ensures var s' := Apply(s, Look(k, Pools.Done(t, w)));
            var x := s.pollers[k].todo[0].obj;
            && |s'.pollers| == |s.pollers| && s'.pollers[k].todo == s.pollers[k].todo[1..] && s'.list == s.list
            && !s'.pollers[k].flush && s'.free == s.free && s'.reported == s.reported
            && Objs(s'.pollers[k].held) == (if Pools.Done(t, w) then p.held + [x] else p.held)
            && Objs(s'.pollers[k].kept) == (if Pools.Done(t, w) then p.kept else p.kept + [x])
            && s'.pollers[k].refs
               == Ids(p.batch + if Pools.Done(t, w) && w.id != 0 then [Pools.Report(w.id, w.error)] else [])
  {
  }

  lemma {:induction false} FlushMirrors(s: Pool<Pools.Entry>, k: nat, held: seq<Pools.Entry>, batch: seq<Pools.Report>,
                                        calls: seq<seq<Pools.Report>>, reported: seq<nat>)
    requires k < |s.pollers| && Objs(s.pollers[k].held) == held && s.pollers[k].refs == Ids(batch)
    requires |batch| == Pools.NUM_REFID && s.reported == reported + Ids(Pools.Concat(calls))
    ensures Runs([Splice(k), Report(k)], s)
    ensures var s' := After([Splice(k), Report(k)], s);
            && |s'.pollers| == |s.pollers| && s'.list == s.list && s'.free == held + s.free
            && s'.pollers[k] == s.pollers[k].(held := [], refs := [])
            && s'.reported == reported + Ids(Pools.Concat(calls + [batch]))
  {
    var s1 := Apply(s, Splice(k));
    var s2 := Apply(s1, Report(k));
    Prefixed(Report(k), [], s1);
    Prefixed(Splice(k), [Report(k)], s);
    ConcatSnoc(calls, batch);
    assert Ids(Pools.Concat(calls) + batch) == Ids(Pools.Concat(calls)) + Ids(batch);
  }

  /** One turn of a poll's loop is one turn of the protocol's thread. */
  lemma {:induction false} TurnMirrors(s: Pool<Pools.Entry>, k: nat, t: Pools.Test, p: Pools.Progress, w: Pools.Word,
                                       reported: seq<nat>)
    returns (steps: seq<Step<Pools.Entry>>)
    requires Mirrors(s, k, p, reported) && s.pollers[k].todo != [] && s.pollers[k].todo[0].id == w.id
    requires |p.batch| < Pools.NUM_REFID
    ensures Runs(steps, s)
    ensures var s' := After(steps, s);
            var p' := Pools.Advance(t, p, s.pollers[k].todo[0].obj, w);
            && Mirrors(s', k, p', reported) && |p'.batch| < Pools.NUM_REFID
            && s'.pollers[k].todo == s.pollers[k].todo[1..] && s'.list == s.list
  {
    var done := Pools.Done(t, w);
    var look := Look(k, done);
    var s1 := Apply(s, look);
    var batch := p.batch + if done && w.id != 0 then [Pools.Report(w.id, w.error)] else [];
    LookMirrors(s, k, t, p, w, reported);
    if done && |batch| == Pools.NUM_REFID {
      FlushMirrors(s1, k, Objs(s1.pollers[k].held), batch, p.calls, reported);
      steps := [look] + [Splice(k), Report(k)];
      assert steps[1..] == [Splice(k), Report(k)];
    } else {
      steps := [look];
      assert steps[1..] == [];
      assert Runs([], s1) && After([], s1) == s1;
      assert p.batch + [] == p.batch;
    }
  }

  lemma {:induction false} RunsAppend(a: seq<Step<Pools.Entry>>, b: seq<Step<Pools.Entry>>, s: Pool<Pools.Entry>)
    requires Runs(a, s) && Runs(b, After(a, s))
    ensures Runs(a + b, s) && After(a + b, s) == After(b, After(a, s))
    decreases |a|
  {
    if a == [] {
      assert a + b == b;
    } else {
      assert (a + b)[1..] == a[1..] + b;
      RunsAppend(a[1..], b, Apply(s, a[0]));
    }
  }

  /** The loop of a poll is a run of the thread's own steps. */
  lemma {:induction false} LoopIsRun(s: Pool<Pools.Entry>, k: nat, t: Pools.Test, p: Pools.Progress,
                                     words: seq<Pools.Word>, reported: seq<nat>)
    returns (steps: seq<Step<Pools.Entry>>)
    requires Mirrors(s, k, p, reported) && Words(s.pollers[k].todo, words) && |p.batch| < Pools.NUM_REFID
    ensures Runs(steps, s)
    ensures var s' := After(steps, s);
            var p' := Pools.AdvanceAll(t, p, Objs(s.pollers[k].todo), words);
            && Mirrors(s', k, p', reported) && s'.pollers[k].todo == [] && s'.list == s.list
    decreases |words|
  {
    var todo := s.pollers[k].todo;
    if todo == [] {
      steps := [];
    } else {
      var first := TurnMirrors(s, k, t, p, words[0], reported);
      var s' := After(first, s);
      assert Objs(todo)[1..] == Objs(todo[1..]);
      var rest := LoopIsRun(s', k, t, Pools.Advance(t, p, todo[0].obj, words[0]), words[1..], reported);
      RunsAppend(first, rest, s);
      steps := first + rest;
    }
  }

  /** The last sections of a poll. */
  lemma {:induction false} EndIsRun(s: Pool<Pools.Entry>, k: nat, p: Pools.Progress, reported: seq<nat>)
    returns (steps: seq<Step<Pools.Entry>>)
    requires Mirrors(s, k, p, reported) && s.pollers[k].todo == []
    ensures Runs(steps, s)
    ensures var s' := After(steps, s);
            && k < |s'.pollers| && Idle(s'.pollers[k]) && s'.free == Pools.AllFree(p)
            && Objs(s'.list) == p.kept + Objs(s.list)
            && s'.reported == reported + Ids(Pools.Concat(Pools.AllCalls(p)))
  {
    steps := [Splice(k), Report(k), Repost(k)];
    var s1 := Apply(s, Splice(k));
    var s2 := Apply(s1, Report(k));
    var s3 := Apply(s2, Repost(k));
    Prefixed(Repost(k), [], s2);
    Prefixed(Report(k), [Repost(k)], s1);
    Prefixed(Splice(k), [Report(k), Repost(k)], s);
    if p.batch == [] {
      assert Pools.AllCalls(p) == p.calls && s.pollers[k].refs == [];
    } else {
      ConcatSnoc(p.calls, p.batch);
      assert Ids(Pools.Concat(p.calls) + p.batch) == Ids(Pools.Concat(p.calls)) + Ids(p.batch);
    }
  }

  /** A whole poll of an idle thread, with nobody else at work: the run that detaches the list and looks at every entry
      leaves the free list, the list to be polled and the reported identifiers as the poll on the heap does. */
  lemma {:induction false} PollIsRun(s: Pool<Pools.Entry>, k: nat, t: Pools.Test, words: seq<Pools.Word>)
    returns (steps: seq<Step<Pools.Entry>>)
    requires k < |s.pollers| && Idle(s.pollers[k]) && Words(s.list, words)
    ensures Runs(steps, s)
    ensures var s' := After(steps, s);
            var p := Pools.AdvanceAll(t, Pools.Progress([], [], [], [], s.free, []), Objs(s.list), words);
            && k < |s'.pollers| && Idle(s'.pollers[k])
            && s'.free == Pools.AllFree(p) && Objs(s'.list) == p.kept
            && s'.reported == s.reported + Ids(Pools.Concat(Pools.AllCalls(p)))
  {
    var p0 := Pools.Progress([], [], [], [], s.free, []);
    var s1 := Apply(s, Detach(k, false));
    var detach: seq<Step<Pools.Entry>> := [Detach(k, false)];
    assert detach[1..] == [];
    assert Runs([], s1) && After([], s1) == s1;
    assert Runs(detach, s) && After(detach, s) == s1;
    assert Mirrors(s1, k, p0, s.reported);
    var loop := LoopIsRun(s1, k, t, p0, words, s.reported);
    var s2 := After(loop, s1);
    var p := Pools.AdvanceAll(t, p0, Objs(s.list), words);
    var last := EndIsRun(s2, k, p, s.reported);
    RunsAppend(detach, loop, s);
    RunsAppend(detach + loop, last, s);
    steps := detach + loop + last;
    assert p.kept + [] == p.kept;
  }

  // ----- A flush -----

  lemma {:induction false} CancelsAreRun(s: Pool<Pools.Entry>, k: nat, words: seq<Pools.Word>)
    returns (steps: seq<Step<Pools.Entry>>)
    requires k < |s.pollers| && s.pollers[k].flush && Words(s.pollers[k].todo, words)
    ensures Runs(steps, s)
    ensures var s' := After(steps, s);
            && k < |s'.pollers| && s'.free == s.free && s'.list == s.list
            && s'.pollers[k] == s.pollers[k].(todo := [], held := s.pollers[k].held + s.pollers[k].todo)
            && s'.reported == s.reported + Ids(Pools.Concat(Pools.Cancels(words)))
    decreases |words|
  {
    var p := s.pollers[k];
    if words == [] {
      steps := [];
      assert p.held + [] == p.held && s.reported + [] == s.reported;
    } else {
      var s1 := Apply(s, Cancel(k));
      assert Words(s1.pollers[k].todo, words[1..]);
      var rest := CancelsAreRun(s1, k, words[1..]);
      Prefixed(Cancel(k), rest, s);
      steps := [Cancel(k)] + rest;
      assert p.held + [p.todo[0]] + p.todo[1..] == p.held + p.todo;
      CancelIds(s.reported, words);
    }
  }

  lemma {:induction false} CancelIds(before: seq<nat>, words: seq<Pools.Word>)
    requires words != []
    ensures before + Ids(Pools.Concat(Pools.Cancels(words)))
         == before + Named(words[0].id) + Ids(Pools.Concat(Pools.Cancels(words[1..])))
  {
    var rest := Pools.Cancels(words[1..]);
    assert before + Named(words[0].id) + Ids(Pools.Concat(rest))
      == before + (Named(words[0].id) + Ids(Pools.Concat(rest)));
    if words[0].id != 0 {
      var first := [Pools.Report(words[0].id, Pools.ECANCELED)];
      assert ([first] + rest)[1..] == rest;
      assert Ids(first + Pools.Concat(rest)) == [words[0].id] + Ids(Pools.Concat(rest));
    } else {
      assert [] + rest == rest;
    }
  }

  /** A flush of an idle thread likewise: everything on the list is free, and each identifier has been reported. */
  lemma {:induction false} FlushIsRun(s: Pool<Pools.Entry>, k: nat, words: seq<Pools.Word>)
    returns (steps: seq<Step<Pools.Entry>>)
    requires k < |s.pollers| && Idle(s.pollers[k]) && Words(s.list, words)
    ensures Runs(steps, s)
    ensures var s' := After(steps, s);
            && k < |s'.pollers| && Idle(s'.pollers[k]) && s'.free == Objs(s.list) + s.free && s'.list == []
            && s'.reported == s.reported + Ids(Pools.Concat(Pools.Cancels(words)))
  {
    var s1 := Apply(s, Detach(k, true));
    var cancels := CancelsAreRun(s1, k, words);
    var s2 := After(cancels, s1);
    assert [] + s.list == s.list;
    Prefixed(Splice(k), [], s2);
    RunsAppend(cancels, [Splice(k)], s1);
    Prefixed(Detach(k, true), cancels + [Splice(k)], s);
    steps := [Detach(k, true)] + (cancels + [Splice(k)]);
  }
}
