/** Allocation of injection FIFOs over the registers that the subgroups of a group share. */
module InjFifos {

  const EAGAIN: int := 11

  const SUBGROUPS: nat := 4
  const FIFOS: nat := 8

  datatype Attributes = Attributes(priority: bool, remoteGet: bool, system: bool)

  /** The start address that marks a FIFO as taken. */
  const TAKEN: nat := 0x40

  predicate Valid(ids: seq<nat>) {
    forall i :: 0 <= i < |ids| ==> ids[i] < FIFOS
  }

  predicate Distinct(ids: seq<nat>) {
    forall i, j :: 0 <= i < j < |ids| ==> ids[i] != ids[j]
  }

  /** The register bit of a FIFO of a subgroup. */
  function Bit(sg: nat, id: nat): nat {
    sg * FIFOS + id
  }

  /** The bits of the FIFOs whose flag has this value. */
  function Mask(sg: nat, ids: seq<nat>, flags: seq<bool>, value: bool): set<nat>
    requires |flags| == |ids|
  {
    set i | 0 <= i < |ids| && flags[i] == value :: Bit(sg, ids[i])
  }

  function Priorities(attrs: seq<Attributes>): (fs: seq<bool>)
    ensures |fs| == |attrs| && forall i :: 0 <= i < |attrs| ==> fs[i] == attrs[i].priority
  {
    seq(|attrs|, i requires 0 <= i < |attrs| => attrs[i].priority)
  }

  function RemoteGets(attrs: seq<Attributes>): (fs: seq<bool>)
    ensures |fs| == |attrs| && forall i :: 0 <= i < |attrs| ==> fs[i] == attrs[i].remoteGet
  {
    seq(|attrs|, i requires 0 <= i < |attrs| => attrs[i].remoteGet)
  }

  function Systems(attrs: seq<Attributes>): (fs: seq<bool>)
    ensures |fs| == |attrs| && forall i :: 0 <= i < |attrs| ==> fs[i] == attrs[i].system
  {
    seq(|attrs|, i requires 0 <= i < |attrs| => attrs[i].system)
  }

  /** A register's bits for the requested FIFOs become their flags; all other bits stay. */
  ghost predicate BitsTaken(before: set<nat>, after: set<nat>, sg: nat, ids: seq<nat>, flags: seq<bool>)
    requires |flags| == |ids|
  {
    && (forall i :: 0 <= i < |ids| ==> (Bit(sg, ids[i]) in after <==> flags[i]))
    && (forall b: nat :: b !in Bits(sg, ids) ==> (b in after <==> b in before))
  }

  function Bits(sg: nat, ids: seq<nat>): set<nat> {
    set i | 0 <= i < |ids| :: Bit(sg, ids[i])
  }

  /** Turning the off-mask's bits off and the on-mask's bits on, in either order, gives the requested FIFOs their flags
      when no FIFO is requested twice. */
  lemma {:induction false} MasksTakeBits(before: set<nat>, sg: nat, ids: seq<nat>, flags: seq<bool>)
    requires |flags| == |ids| && Distinct(ids)
    ensures BitsTaken(before, before - Mask(sg, ids, flags, false) + Mask(sg, ids, flags, true), sg, ids, flags)
    ensures BitsTaken(before, before + Mask(sg, ids, flags, true) - Mask(sg, ids, flags, false), sg, ids, flags)
  {
    var on, off := Mask(sg, ids, flags, true), Mask(sg, ids, flags, false);
    MasksLeaveBits(before, sg, ids, flags);
    forall i | 0 <= i < |ids|
      ensures Bit(sg, ids[i]) in on <==> flags[i]
      ensures Bit(sg, ids[i]) in off <==> !flags[i]
    {
      if Bit(sg, ids[i]) in on {
        var j :| 0 <= j < |ids| && flags[j] && Bit(sg, ids[j]) == Bit(sg, ids[i]);
        assert ids[i] == ids[j];
      }
      if Bit(sg, ids[i]) in off {
        var j :| 0 <= j < |ids| && !flags[j] && Bit(sg, ids[j]) == Bit(sg, ids[i]);
        assert ids[i] == ids[j];
      }
    }
  }

  /** Whatever is requested, the other FIFOs' bits stay. */
  lemma {:induction false} MasksLeaveBits(before: set<nat>, sg: nat, ids: seq<nat>, flags: seq<bool>)
    requires |flags| == |ids|
    ensures forall b: nat :: b !in Bits(sg, ids) ==>
      b !in Mask(sg, ids, flags, false) && b !in Mask(sg, ids, flags, true)
  {
  }

  lemma {:induction false} MaskStep(sg: nat, ids: seq<nat>, flags: seq<bool>, value: bool, k: nat)
    requires |flags| == |ids| && k < |ids|
    ensures Mask(sg, ids[..k + 1], flags[..k + 1], value)
         == Mask(sg, ids[..k], flags[..k], value) + (if flags[k] == value then {Bit(sg, ids[k])} else {})
  {
    var m := Mask(sg, ids[..k + 1], flags[..k + 1], value);
    var n := Mask(sg, ids[..k], flags[..k], value);
    forall b | b in m
      ensures b in n || (flags[k] == value && b == Bit(sg, ids[k]))
    {
      var i :| 0 <= i < k + 1 && flags[..k + 1][i] == value && b == Bit(sg, ids[..k + 1][i]);
      if i < k {
        assert flags[..k][i] == value && b == Bit(sg, ids[..k][i]);
      }
    }
    forall b | b in n ensures b in m {
      var i :| 0 <= i < k && flags[..k][i] == value && b == Bit(sg, ids[..k][i]);
      assert flags[..k + 1][i] == value && b == Bit(sg, ids[..k + 1][i]);
    }
    if flags[k] == value {
      assert flags[..k + 1][k] == value && Bit(sg, ids[..k + 1][k]) == Bit(sg, ids[k]);
    }
  }

  /** The loop that collects the bits to turn on and off for one attribute. */
  method Collect(sg: nat, ids: seq<nat>, flags: seq<bool>) returns (on: set<nat>, off: set<nat>)
    requires |flags| == |ids|
    ensures on == Mask(sg, ids, flags, true) && off == Mask(sg, ids, flags, false)
  {
    on, off := {}, {};
    var k := 0;
    while k < |ids|
      invariant k <= |ids| && on == Mask(sg, ids[..k], flags[..k], true) && off == Mask(sg, ids[..k], flags[..k], false)
    {
      MaskStep(sg, ids, flags, true, k);
      MaskStep(sg, ids, flags, false, k);
      if flags[k] {
        on := on + {Bit(sg, ids[k])};
      } else {
        off := off + {Bit(sg, ids[k])};
      }
      k := k + 1;
    }
    assert ids[..k] == ids && flags[..k] == flags;
  }

  method CollectAll(sg: nat, ids: seq<nat>) returns (mask: set<nat>)
    ensures mask == Bits(sg, ids)
  {
    mask := {};
    var k := 0;
    while k < |ids|
      invariant k <= |ids| && mask == Bits(sg, ids[..k])
    {
      BitsStep(sg, ids, k);
      mask := mask + {Bit(sg, ids[k])};
      k := k + 1;
    }
    assert ids[..k] == ids;
  }

  function AllBits(n: nat): (bs: set<nat>)
    ensures forall b: nat :: b in bs <==> b < n
  {
    if n == 0 then {} else AllBits(n - 1) + {n - 1}
  }

  /** Distinct identifiers that all occur in a list are no more than the list is long. */
  lemma {:induction false} DistinctFit(ids: seq<nat>, free: seq<nat>)
    requires Distinct(ids) && forall i :: 0 <= i < |ids| ==> ids[i] in free
    ensures |ids| <= |free|
    decreases |ids|
  {
    if ids != [] {
      var k :| 0 <= k < |free| && free[k] == ids[0];
      var rest := free[..k] + free[k + 1..];
      forall i | 0 <= i < |ids[1..]| ensures ids[1..][i] in rest {
        var m :| 0 <= m < |free| && free[m] == ids[i + 1];
        assert m != k;
        assert rest[if m < k then m else m - 1] == free[m];
      }
      DistinctFit(ids[1..], rest);
    }
  }

  /** Whether every requested identifier is among the free ones. */
  method AllAmong(ids: seq<nat>, free: seq<nat>) returns (ok: bool)
    ensures ok <==> forall i :: 0 <= i < |ids| ==> ids[i] in free
  {
    var i := 0;
    while i < |ids|
      invariant i <= |ids| && forall k :: 0 <= k < i ==> ids[k] in free
    {
      var found, j := false, 0;
      while j < |free| && !found
        invariant j <= |free| && (found <==> ids[i] in free[..j])
      {
        found := ids[i] == free[j];
        j := j + 1;
        assert free[..j] == free[..j - 1] + [free[j - 1]];
      }
      assert !found ==> free[..j] == free;
      if !found {
        return false;
      }
      i := i + 1;
    }
    ok := true;
  }

  /** The registers of a group: the start address of every FIFO, 0 while it is free, and the bits that are on. */
  class Group {
    const start: array<nat>
    var priority: set<nat>
    var remoteGet: set<nat>
    var system: set<nat>

    constructor ()
      ensures Reset() && fresh(start) && forall i :: 0 <= i < start.Length ==> start[i] == 0
    {
      start := new nat[SUBGROUPS * FIFOS](_ => 0);
      priority, remoteGet := {}, {};
      system := AllBits(SUBGROUPS * FIFOS);
    }

    predicate IsFree(sg: nat, id: nat)
      requires start.Length == SUBGROUPS * FIFOS && sg < SUBGROUPS && id < FIFOS
      reads start
    {
      start[Bit(sg, id)] == 0
    }

    /** Every free FIFO has its bits as the hardware resets them: normal, not for remote get, system. */
    predicate Reset()
      reads this, start
    {
      && start.Length == SUBGROUPS * FIFOS
      && forall b :: 0 <= b < SUBGROUPS * FIFOS && start[b] == 0 ==> b !in priority && b !in remoteGet && b in system
    }

    /** `Kernel_QueryInjFifos`: exactly the free FIFOs of the subgroup, each once. */
    method Query(sg: nat) returns (free: seq<nat>)
      requires start.Length == SUBGROUPS * FIFOS && sg < SUBGROUPS
      ensures Valid(free) && Distinct(free) && forall id :: 0 <= id < FIFOS ==> (id in free <==> IsFree(sg, id))
    {
      free := [];
      var i := 0;
      while i < FIFOS
        invariant i <= FIFOS && Distinct(free) && forall j :: 0 <= j < |free| ==> free[j] < i
        invariant forall id :: 0 <= id < i ==> (id in free <==> IsFree(sg, id))
      {
        if start[Bit(sg, i)] == 0 {
          free := free + [i];
        }
        i := i + 1;
      }
    }

    /** The last loop: every requested FIFO gets a start address. */
    method SetStarts(sg: nat, ids: seq<nat>, value: nat)
      requires start.Length == SUBGROUPS * FIFOS && sg < SUBGROUPS && Valid(ids)
      modifies start
      ensures forall b :: 0 <= b < start.Length ==> start[b] == if b in Bits(sg, ids) then value else old(start[b])
    {
      var k := 0;
      while k < |ids|
        invariant k <= |ids|
        invariant forall b :: 0 <= b < start.Length ==> start[b] == if b in Bits(sg, ids[..k]) then value
          else old(start[b])
      {
        BitsStep(sg, ids, k);
        start[Bit(sg, ids[k])] := value;
        k := k + 1;
      }
      assert ids[..k] == ids;
    }

    predicate AllFree(sg: nat, ids: seq<nat>)
      requires start.Length == SUBGROUPS * FIFOS && sg < SUBGROUPS && Valid(ids)
      reads start
    {
      forall i :: 0 <= i < |ids| ==> IsFree(sg, ids[i])
    }

    /** `Kernel_AllocateInjFifos`: all of the requested FIFOs or none. */
    method Allocate(sg: nat, ids: seq<nat>, attrs: seq<Attributes>) returns (rc: int)
      requires Reset() && sg < SUBGROUPS && Valid(ids) && |attrs| == |ids|
      modifies this, start
      ensures rc in {0, EAGAIN} && (rc == 0 ==> old(AllFree(sg, ids)))
      ensures Distinct(ids) && old(AllFree(sg, ids)) ==> rc == 0
      ensures rc != 0 ==>
        start[..] == old(start[..]) && priority == old(priority) && remoteGet == old(remoteGet) && system == old(system)
      ensures rc == 0 ==> forall b :: 0 <= b < start.Length ==> start[b] == if b in Bits(sg, ids) then TAKEN
        else old(start[b])
      ensures rc == 0 && Distinct(ids) ==> BitsTaken(old(priority), priority, sg, ids, Priorities(attrs))
      ensures rc == 0 && Distinct(ids) ==> BitsTaken(old(remoteGet), remoteGet, sg, ids, RemoteGets(attrs))
      ensures rc == 0 && Distinct(ids) ==> BitsTaken(old(system), system, sg, ids, Systems(attrs))
      ensures Reset()
    {
      var free := Query(sg);
      if |free| < |ids| {
        if Distinct(ids) && AllFree(sg, ids) {
          DistinctFit(ids, free);
        }
        return EAGAIN;
      }
      var ok := AllAmong(ids, free);
      if !ok {
        return EAGAIN;
      }
      Take(sg, ids, attrs);
      rc := 0;
    }

    method Take(sg: nat, ids: seq<nat>, attrs: seq<Attributes>)
      requires Reset() && sg < SUBGROUPS && Valid(ids) && |attrs| == |ids|
      modifies this, start
      ensures forall b :: 0 <= b < start.Length ==> start[b] == if b in Bits(sg, ids) then TAKEN else old(start[b])
      ensures Distinct(ids) ==> BitsTaken(old(priority), priority, sg, ids, Priorities(attrs))
      ensures Distinct(ids) ==> BitsTaken(old(remoteGet), remoteGet, sg, ids, RemoteGets(attrs))
      ensures Distinct(ids) ==> BitsTaken(old(system), system, sg, ids, Systems(attrs))
      ensures Reset()
    {
      var on, off := Collect(sg, ids, Priorities(attrs));
      MasksLeaveBits(priority, sg, ids, Priorities(attrs));
      if Distinct(ids) {
        MasksTakeBits(priority, sg, ids, Priorities(attrs));
      }
      priority := priority - off + on;
      on, off := Collect(sg, ids, RemoteGets(attrs));
      MasksLeaveBits(remoteGet, sg, ids, RemoteGets(attrs));
      if Distinct(ids) {
        MasksTakeBits(remoteGet, sg, ids, RemoteGets(attrs));
      }
      remoteGet := remoteGet - off + on;
      on, off := Collect(sg, ids, Systems(attrs));
      MasksLeaveBits(system, sg, ids, Systems(attrs));
      if Distinct(ids) {
        MasksTakeBits(system, sg, ids, Systems(attrs));
      }
      system := system + on - off;
      SetStarts(sg, ids, TAKEN);
    }

    /** `Kernel_DeallocateInjFifos`: the FIFOs are free again, and their bits are as the hardware resets them. */
    method Deallocate(sg: nat, ids: seq<nat>)
      requires Reset() && sg < SUBGROUPS && Valid(ids)
      modifies this, start
      ensures forall b :: 0 <= b < start.Length ==> start[b] == if b in Bits(sg, ids) then 0 else old(start[b])
      ensures priority == old(priority) - Bits(sg, ids) && remoteGet == old(remoteGet) - Bits(sg, ids)
      ensures system == old(system) + Bits(sg, ids)
      ensures Reset()
    {
      var mask := CollectAll(sg, ids);
      SetStarts(sg, ids, 0);
      priority, remoteGet, system := priority - mask, remoteGet - mask, system + mask;
    }
  }

  /** Freeing what was just allocated leaves every register as it was before the allocation. */
  lemma {:induction false} DeallocateUndoes(before: set<nat>, after: set<nat>, sg: nat, ids: seq<nat>, flags: seq<bool>)
    requires |flags| == |ids| && BitsTaken(before, after, sg, ids, flags)
    ensures before !! Bits(sg, ids) ==> after - Bits(sg, ids) == before
    ensures Bits(sg, ids) <= before ==> after + Bits(sg, ids) == before
  {
    if before !! Bits(sg, ids) {
      assert forall b: nat :: b in after - Bits(sg, ids) <==> b in before;
    }
    if Bits(sg, ids) <= before {
      assert forall b: nat :: b in after + Bits(sg, ids) <==> b in before;
    }
  }

  lemma {:induction false} BitsStep(sg: nat, ids: seq<nat>, k: nat)
    requires k < |ids|
    ensures Bits(sg, ids[..k + 1]) == Bits(sg, ids[..k]) + {Bit(sg, ids[k])}
  {
    forall b | b in Bits(sg, ids[..k + 1]) ensures b in Bits(sg, ids[..k]) || b == Bit(sg, ids[k]) {
      var i :| 0 <= i < k + 1 && b == Bit(sg, ids[..k + 1][i]);
      assert i < k ==> b == Bit(sg, ids[..k][i]);
    }
    forall b | b in Bits(sg, ids[..k]) ensures b in Bits(sg, ids[..k + 1]) {
      var i :| 0 <= i < k && b == Bit(sg, ids[..k][i]);
      assert b == Bit(sg, ids[..k + 1][i]);
    }
    assert Bit(sg, ids[..k + 1][k]) in Bits(sg, ids[..k + 1]);
  }
}
