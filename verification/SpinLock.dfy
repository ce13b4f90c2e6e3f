/** The spin lock built on load-reserved and store-conditional, for any number of threads and any interleaving. */
module SpinLock {

  /** Where a thread is: outside, about to load the lock word, about to store it, spinning, or between lock and
      unlock. */
  datatype Pc = Outside | Loading | Storing | Spinning | Holding

  /** A thread with its reservation on the lock word and its local copy of the value it expects there. */
  datatype Thread = Thread(pc: Pc, reserved: bool, expected: nat)

  datatype State = State(word: nat, threads: seq<Thread>)

  datatype Step =
    | Lock(i: nat)
    | LoadReserved(i: nat)
    | StoreConditional(i: nat)
    | LoseReservation(i: nat)
    | Spin(i: nat)
    | Unlock(i: nat)

  const OUTSIDE := Thread(Outside, false, 0)

  function Init(n: nat): State {
    State(0, seq(n, _ => OUTSIDE))
  }

  /** The value that marks the lock as held by a thread. */
  function Mark(i: nat): nat {
    i + 1
  }

  predicate Enabled(s: State, step: Step) {
    step.i < |s.threads| &&
    match step
    case Lock(i) => s.threads[i].pc.Outside?
    case LoadReserved(i) => s.threads[i].pc.Loading?
    case StoreConditional(i) => s.threads[i].pc.Storing?
    case LoseReservation(i) => s.threads[i].reserved
    case Spin(i) => s.threads[i].pc.Spinning?
    case Unlock(i) => s.threads[i].pc.Holding?
  }

  /** Any store to the lock word ends every reservation on it. */
  function ClearAll(ts: seq<Thread>): (r: seq<Thread>)
    ensures |r| == |ts| && forall i :: 0 <= i < |ts| ==> r[i] == ts[i].(reserved := false)
  {
    seq(|ts|, i requires 0 <= i < |ts| => ts[i].(reserved := false))
  }

  function Set(s: State, i: nat, t: Thread): State
    requires i < |s.threads|
  {
    s.(threads := s.threads[i := t])
  }

  function StoreWord(s: State, i: nat, word: nat, pc: Pc): State
    requires i < |s.threads|
  {
    State(word, ClearAll(s.threads)[i := Thread(pc, false, s.threads[i].expected)])
  }

  function Apply(s: State, step: Step): State
    requires Enabled(s, step)
  {
    match step
    case Lock(i) => Set(s, i, Thread(Loading, s.threads[i].reserved, 0))
    case LoadReserved(i) =>
      if s.threads[i].expected == s.word then Set(s, i, Thread(Storing, true, s.word))
      else Set(s, i, Thread(Spinning, true, s.word))
    case StoreConditional(i) =>
      if s.threads[i].reserved then StoreWord(s, i, Mark(i), Holding)
      else Set(s, i, s.threads[i].(pc := Loading))
    case LoseReservation(i) => Set(s, i, s.threads[i].(reserved := false))
    case Spin(i) => if s.word != 0 then s else Set(s, i, s.threads[i].(pc := Loading, expected := 0))
    case Unlock(i) => StoreWord(s, i, 0, Outside)
  }

  predicate Runs(steps: seq<Step>, s: State)
    decreases |steps|
  {
    steps == [] || (Enabled(s, steps[0]) && Runs(steps[1..], Apply(s, steps[0])))
  }

  function After(steps: seq<Step>, s: State): State
    requires Runs(steps, s)
    decreases |steps|
  {
    if steps == [] then s else After(steps[1..], Apply(s, steps[0]))
  }

  /** A holder's mark is in the lock word; a thread about to store expects 0, and its reservation means that 0 is
      still there. */
  predicate ThreadOk(word: nat, i: nat, t: Thread) {
    && (t.pc.Holding? <==> word == Mark(i))
    && (t.pc.Loading? || t.pc.Storing? ==> t.expected == 0)
    && (t.pc.Storing? && t.reserved ==> word == 0)
  }

  predicate Inv(s: State) {
    && s.word <= |s.threads|
    && forall i :: 0 <= i < |s.threads| ==> ThreadOk(s.word, i, s.threads[i])
  }

  lemma {:induction false} StepKeeps(s: State, step: Step)
    requires Inv(s) && Enabled(s, step)
    ensures Inv(Apply(s, step)) && |Apply(s, step).threads| == |s.threads|
  {
    var s' := Apply(s, step);
    assert ThreadOk(s.word, step.i, s.threads[step.i]);
    forall j | 0 <= j < |s'.threads| ensures ThreadOk(s'.word, j, s'.threads[j]) {
      assert ThreadOk(s.word, j, s.threads[j]);
    }
  }

  lemma {:induction false} RunKeeps(steps: seq<Step>, s: State)
    requires Runs(steps, s) && Inv(s)
    ensures Inv(After(steps, s)) && |After(steps, s).threads| == |s.threads|
    decreases |steps|
  {
    if steps != [] {
      StepKeeps(s, steps[0]);
      RunKeeps(steps[1..], Apply(s, steps[0]));
    }
  }

  predicate Holds(s: State, i: nat) {
    i < |s.threads| && s.threads[i].pc.Holding?
  }

  /** Over every run, at most one thread is between lock and unlock; the lock word is 0 exactly when none is,
      and otherwise names the one that is. */
  lemma {:induction false} MutualExclusion(n: nat, steps: seq<Step>, s: State)
    requires Runs(steps, Init(n)) && s == After(steps, Init(n))
    ensures forall i: nat, j: nat :: Holds(s, i) && Holds(s, j) ==> i == j
    ensures s.word == 0 <==> forall i :: 0 <= i < n ==> !Holds(s, i)
    ensures forall i: nat :: Holds(s, i) <==> i < n && s.word == Mark(i)
  {
    RunKeeps(steps, Init(n));
    forall i: nat ensures Holds(s, i) <==> i < n && s.word == Mark(i) {
      assert i < n ==> ThreadOk(s.word, i, s.threads[i]);
    }
    if s.word != 0 {
      assert Holds(s, s.word - 1);
    }
  }

  /** A store that succeeds finds the lock free, and a thread never waits for its own mark. */
  lemma {:induction false} AcquiredOnlyWhenFree(n: nat, steps: seq<Step>, s: State, i: nat)
    requires Runs(steps, Init(n)) && s == After(steps, Init(n)) && Enabled(s, StoreConditional(i))
      && s.threads[i].reserved
    ensures s.word == 0 && forall j: nat :: !Holds(s, j)
    ensures Holds(Apply(s, StoreConditional(i)), i)
  {
    RunKeeps(steps, Init(n));
    assert ThreadOk(s.word, i, s.threads[i]);
    forall j: nat ensures !Holds(s, j) {
      assert j < |s.threads| ==> ThreadOk(s.word, j, s.threads[j]);
    }
  }

  /** Whenever the lock is free, a waiting thread can take it within three steps of its own. */
  lemma {:induction false} FreeLockCanBeTaken(s: State, i: nat)
    requires Inv(s) && s.word == 0 && i < |s.threads| && s.threads[i].pc.Spinning?
    ensures var steps := [Spin(i), LoadReserved(i), StoreConditional(i)];
            Runs(steps, s) && Holds(After(steps, s), i)
  {
    var s1 := Apply(s, Spin(i));
    var s2 := Apply(s1, LoadReserved(i));
    var s3 := Apply(s2, StoreConditional(i));
    assert Runs([], s3) && After([], s3) == s3;
    assert [StoreConditional(i)][1..] == [] && [LoadReserved(i), StoreConditional(i)][1..] == [StoreConditional(i)];
    assert Runs([StoreConditional(i)], s2) && After([StoreConditional(i)], s2) == s3;
    assert [Spin(i), LoadReserved(i), StoreConditional(i)][1..] == [LoadReserved(i), StoreConditional(i)];
  }

  // ----- Compare and swap in memory -----

  lemma {:induction false} RunsSnoc(steps: seq<Step>, s: State, step: Step)
    requires Runs(steps, s) && Enabled(After(steps, s), step)
    ensures Runs(steps + [step], s) && After(steps + [step], s) == Apply(After(steps, s), step)
    decreases |steps|
  {
    if steps == [] {
      assert steps + [step] == [step] && [step][1..] == [];
    } else {
      assert (steps + [step])[1..] == steps[1..] + [step];
      RunsSnoc(steps[1..], Apply(s, steps[0]), step);
    }
  }

  /** What may happen outside a thread's own code: steps of other threads, and the loss of its reservation. */
  predicate Foreign(i: nat, step: Step) {
    step.i != i || step.LoseReservation?
  }

  class SharedLock {
    /** The lock word, its reservations, and where all threads are. */
    var s: State

    ghost predicate Reached(start: State, steps: seq<Step>)
      reads this
    {
      Runs(steps, start) && s == After(steps, start) && Inv(s)
    }

    method Take(step: Step, ghost start: State, ghost steps: seq<Step>) returns (ghost steps': seq<Step>)
      requires Reached(start, steps) && Enabled(s, step)
      modifies this
      ensures Reached(start, steps') && steps' == steps + [step] && s == Apply(old(s), step)
    {
      RunsSnoc(steps, start, step);
      StepKeeps(s, step);
      s := Apply(s, step);
      steps' := steps + [step];
    }

    /** Other threads get ahead; of what they try, the steps that are possible happen. */
    method Elsewhere(i: nat, tries: seq<Step>, ghost start: State, ghost steps: seq<Step>)
      returns (ghost steps': seq<Step>)
      requires Reached(start, steps) && i < |s.threads|
      modifies this
      ensures Reached(start, steps') && |s.threads| == |old(s).threads|
      ensures s.threads[i].pc == old(s).threads[i].pc && s.threads[i].expected == old(s).threads[i].expected
      ensures tries == [] ==> s == old(s) && steps' == steps
    {
      steps' := steps;
      var k := 0;
      while k < |tries|
        invariant k <= |tries| && Reached(start, steps') && |s.threads| == |old(s).threads|
        invariant s.threads[i].pc == old(s).threads[i].pc && s.threads[i].expected == old(s).threads[i].expected
        invariant k == 0 ==> s == old(s) && steps' == steps
      {
        if Enabled(s, tries[k]) && Foreign(i, tries[k]) {
          steps' := Take(tries[k], start, steps');
        }
        k := k + 1;
      }
    }

    /** `comp_and_swap` of the lock word, from the load on, for as long as `elsewhere` says what other threads try
        before each of its loads and stores. It ends with the thread's mark stored, and the word was free right
        before, or with a value seen that is not the free one; a store that fails, because another thread has stored
        or for no reason, is tried again. */
    method CompareAndSwap(i: nat, elsewhere: seq<seq<Step>>)
      returns (ended: bool, swapped: bool, ghost steps: seq<Step>)
      requires Inv(s) && i < |s.threads| && s.threads[i].pc.Loading?
      modifies this
      ensures Reached(old(s), steps) && |s.threads| == |old(s).threads|
      ensures ended && swapped ==>
        && steps != [] && steps[|steps| - 1] == StoreConditional(i) && Runs(steps[..|steps| - 1], old(s))
        && After(steps[..|steps| - 1], old(s)).word == 0 && s.word == Mark(i) && Holds(s, i)
      ensures ended && !swapped ==>
        && steps != [] && steps[|steps| - 1] == LoadReserved(i)
        && s.threads[i].pc.Spinning? && s.threads[i].expected == s.word != 0
      ensures !ended ==> s.threads[i].pc.Loading?
      ensures |elsewhere| >= 2 && elsewhere[0] == elsewhere[1] == [] ==> ended && (swapped <==> old(s).word == 0)
    {
      ghost var start := s;
      assert Runs([], start) && After([], start) == start;
      steps := [];
      var turn := 0;
      while turn + 1 < |elsewhere|
        invariant Reached(start, steps) && |s.threads| == |start.threads| && s.threads[i].pc.Loading?
        invariant turn == 0 ==> s == start && steps == []
        invariant turn > 0 ==> |elsewhere| >= 2 && (elsewhere[0] != [] || elsewhere[1] != [])
        decreases |elsewhere| - turn
      {
        steps := Elsewhere(i, elsewhere[turn], start, steps);
        assert ThreadOk(s.word, i, s.threads[i]);
        steps := Take(LoadReserved(i), start, steps);
        if s.threads[i].pc.Spinning? {
          return true, false, steps;
        }
        steps := Elsewhere(i, elsewhere[turn + 1], start, steps);
        assert ThreadOk(s.word, i, s.threads[i]);
        ghost var before := steps;
        steps := Take(StoreConditional(i), start, steps);
        if s.threads[i].pc.Holding? {
          assert steps[..|steps| - 1] == before;
          return true, true, steps;
        }
        turn := turn + 2;
      }
      ended, swapped := false, false;
    }
  }
}
