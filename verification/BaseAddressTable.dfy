/** Allocation of base-address-table entries: each subgroup's entries are all for system use or all for user use. */
module BaseAddressTable {
  import opened InjFifos

  const EACCES: int := 13

  /** 17 groups of 4 subgroups; the first 64 subgroups have their mode bits in one register, the last 4 in another. */
  const ALL_SUBGROUPS: nat := 68
  const FIRST_MODE: nat := 64

  /** All 37 address bits on: the entry is free. */
  const FREE: nat := 0x1F_FFFF_FFFF

  /** A request's bits are its subgroup's, at its identifiers. */
  lemma {:induction false} BitsOfSubgroup(sg: nat, ids: seq<nat>)
    requires Valid(ids)
    ensures forall g: nat, id: nat :: id < FIFOS ==> (Bit(g, id) in Bits(sg, ids) <==> g == sg && id in ids)
  {
    forall g: nat, id: nat | id < FIFOS
      ensures Bit(g, id) in Bits(sg, ids) <==> g == sg && id in ids
    {
      if Bit(g, id) in Bits(sg, ids) {
        var i :| 0 <= i < |ids| && Bit(sg, ids[i]) == Bit(g, id);
        assert g == sg && id == ids[i];
      }
      if g == sg && id in ids {
        var i :| 0 <= i < |ids| && ids[i] == id;
        assert Bit(sg, ids[i]) in Bits(sg, ids);
      }
    }
  }

  ghost function Asked(asked: seq<bool>, bits: set<nat>, system: bool): (a: seq<bool>)
    ensures |a| == |asked| && forall b :: 0 <= b < |asked| ==> a[b] == if b in bits then system else asked[b]
  {
    seq(|asked|, b requires 0 <= b < |asked| => if b in bits then system else asked[b])
  }

  class Table {
    const bat: array<nat>
    var mode0: set<nat>
    var mode1: set<nat>
    ghost var asked: seq<bool>

    constructor ()
      ensures Consistent() && fresh(bat) && forall i :: 0 <= i < bat.Length ==> bat[i] == FREE
    {
      bat := new nat[ALL_SUBGROUPS * FIFOS](_ => FREE);
      mode0, mode1 := AllBits(FIRST_MODE), AllBits(ALL_SUBGROUPS - FIRST_MODE);
      asked := seq(ALL_SUBGROUPS * FIFOS, _ => true);
    }

    /** The mode bit of a subgroup, as allocation reads it. */
    predicate SystemBit(sg: nat)
      reads this
    {
      if sg <= 63 then sg in mode0 else sg - 64 in mode1
    }

    predicate IsFree(sg: nat, id: nat)
      requires bat.Length == ALL_SUBGROUPS * FIFOS && sg < ALL_SUBGROUPS && id < FIFOS
      reads bat
    {
      bat[Bit(sg, id)] == FREE
    }

    predicate NoneTaken(sg: nat)
      requires bat.Length == ALL_SUBGROUPS * FIFOS && sg < ALL_SUBGROUPS
      reads bat
    {
      forall id :: 0 <= id < FIFOS ==> IsFree(sg, id)
    }

    predicate AllFree(sg: nat, ids: seq<nat>)
      requires bat.Length == ALL_SUBGROUPS * FIFOS && sg < ALL_SUBGROUPS && Valid(ids)
      reads bat
    {
      forall i :: 0 <= i < |ids| ==> IsFree(sg, ids[i])
    }

    /** What a subgroup's owners asked for, `asked`, is what its mode bit says; and with no owner the bit is on. */
    ghost predicate SubgroupOk(sg: nat)
      requires bat.Length == |asked| == ALL_SUBGROUPS * FIFOS && sg < ALL_SUBGROUPS
      reads this, bat
    {
      && (forall id :: 0 <= id < FIFOS && !IsFree(sg, id) ==> asked[Bit(sg, id)] == SystemBit(sg))
      && (NoneTaken(sg) ==> SystemBit(sg))
    }

    ghost predicate Consistent()
      reads this, bat
    {
      bat.Length == |asked| == ALL_SUBGROUPS * FIFOS && forall sg :: 0 <= sg < ALL_SUBGROUPS ==> SubgroupOk(sg)
    }

    /** `Kernel_QueryBaseAddressTable`. */
    method Query(sg: nat) returns (free: seq<nat>)
      requires bat.Length == ALL_SUBGROUPS * FIFOS && sg < ALL_SUBGROUPS
      ensures Valid(free) && Distinct(free) && |free| <= FIFOS && (|free| == FIFOS <==> NoneTaken(sg))
      ensures forall id :: 0 <= id < FIFOS ==> (id in free <==> IsFree(sg, id))
    {
      free := [];
      var i := 0;
      ghost var all := true;
      while i < FIFOS
        invariant i <= FIFOS && Distinct(free) && |free| <= i && forall j :: 0 <= j < |free| ==> free[j] < i
        invariant forall id :: 0 <= id < i ==> (id in free <==> IsFree(sg, id))
        invariant if all then |free| == i && forall id :: 0 <= id < i ==> IsFree(sg, id)
                  else |free| < i && exists id :: 0 <= id < i && !IsFree(sg, id)
      {
        all := all && IsFree(sg, i);
        assert IsFree(sg, i) <==> bat[Bit(sg, i)] == FREE;
        if bat[Bit(sg, i)] == FREE {
          free := free + [i];
        }
        i := i + 1;
      }
    }

    /** Sets the mode bit of one subgroup, in the register that has it. */
    method SetMode(sg: nat, system: bool)
      requires sg < ALL_SUBGROUPS
      modifies this`mode0, this`mode1
      ensures SystemBit(sg) == system
      ensures forall other :: 0 <= other < ALL_SUBGROUPS && other != sg ==> SystemBit(other) == old(SystemBit(other))
    {
      if sg < FIRST_MODE {
        mode0 := if system then mode0 + {sg} else mode0 - {sg};
      } else {
        mode1 := if system then mode1 + {sg - FIRST_MODE} else mode1 - {sg - FIRST_MODE};
      }
    }

    method Fill(sg: nat, ids: seq<nat>, value: nat)
      requires bat.Length == ALL_SUBGROUPS * FIFOS && sg < ALL_SUBGROUPS && Valid(ids)
      modifies bat
      ensures forall b :: 0 <= b < bat.Length ==> bat[b] == if b in Bits(sg, ids) then value else old(bat[b])
    {
      var k := 0;
      while k < |ids|
        invariant k <= |ids|
        invariant forall b :: 0 <= b < bat.Length ==> bat[b] == if b in Bits(sg, ids[..k]) then value else old(bat[b])
      {
        BitsStep(sg, ids, k);
        bat[Bit(sg, ids[k])] := value;
        k := k + 1;
      }
      assert ids[..k] == ids;
    }

    /** `Kernel_AllocateBaseAddressTable`: all of the requested entries or none, and only in the mode the subgroup
        is in. */
    method Allocate(sg: nat, ids: seq<nat>, system: bool) returns (rc: int)
      requires Consistent() && sg < ALL_SUBGROUPS && Valid(ids) && 0 < |ids| <= FIFOS
      modifies this, bat
      ensures rc in {0, EAGAIN, EACCES}
      ensures Distinct(ids) ==>
        (rc == 0 <==> old(AllFree(sg, ids)) && (old(NoneTaken(sg)) || old(SystemBit(sg)) == system))
      ensures rc == EACCES ==> !old(NoneTaken(sg)) && old(SystemBit(sg)) != system
      ensures rc != 0 ==> bat[..] == old(bat[..]) && mode0 == old(mode0) && mode1 == old(mode1)
      ensures rc == 0 ==> SystemBit(sg) == system
                          && forall b :: 0 <= b < bat.Length ==> bat[b] == if b in Bits(sg, ids) then 0 else old(bat[b])
      ensures forall other :: 0 <= other < ALL_SUBGROUPS && other != sg ==> SystemBit(other) == old(SystemBit(other))
      ensures Consistent()
    {
      var free := Query(sg);
      if |free| < |ids| {
        if Distinct(ids) && AllFree(sg, ids) {
          DistinctFit(ids, free);
        }
        return EAGAIN;
      }
      var status := system;
      if |free| < FIFOS {
        status := SystemBit(sg);
      }
      if system != status {
        return EACCES;
      }
      var ok := AllAmong(ids, free);
      if !ok {
        return EAGAIN;
      }
      Take(sg, ids, system);
      rc := 0;
    }

    method Take(sg: nat, ids: seq<nat>, system: bool)
      requires Consistent() && sg < ALL_SUBGROUPS && Valid(ids) && 0 < |ids| <= FIFOS
      requires NoneTaken(sg) || SystemBit(sg) == system
      modifies this, bat
      ensures SystemBit(sg) == system
      ensures forall b :: 0 <= b < bat.Length ==> bat[b] == if b in Bits(sg, ids) then 0 else old(bat[b])
      ensures forall other :: 0 <= other < ALL_SUBGROUPS && other != sg ==> SystemBit(other) == old(SystemBit(other))
      ensures Consistent()
    {
      SetMode(sg, system);
      Fill(sg, ids, 0);
      asked := Asked(asked, Bits(sg, ids), system);
      BitsOfSubgroup(sg, ids);
      assert !IsFree(sg, ids[0]);
      forall g | 0 <= g < ALL_SUBGROUPS ensures SubgroupOk(g) {
        assert old(SubgroupOk(g));
        assert g != sg ==> forall id :: 0 <= id < FIFOS ==> IsFree(g, id) == old(IsFree(g, id));
        forall id | 0 <= id < FIFOS && !IsFree(g, id) ensures asked[Bit(g, id)] == SystemBit(g) {
          if g == sg && id !in ids {
            assert !old(IsFree(sg, id));
            assert old(SystemBit(sg)) == system;
          }
        }
      }
    }

    /** `Kernel_DeallocateBaseAddressTable`: the entries are free, and when they were the last ones the mode bit is
        on again. */
    method Deallocate(sg: nat, ids: seq<nat>)
      requires Consistent() && sg < ALL_SUBGROUPS && Valid(ids) && 0 < |ids| <= FIFOS
      modifies this, bat
      ensures forall b :: 0 <= b < bat.Length ==> bat[b] == if b in Bits(sg, ids) then FREE else old(bat[b])
      ensures SystemBit(sg) == (NoneTaken(sg) || old(SystemBit(sg)))
      ensures forall other :: 0 <= other < ALL_SUBGROUPS && other != sg ==> SystemBit(other) == old(SystemBit(other))
      ensures Consistent()
    {
      Fill(sg, ids, FREE);
      var free := Query(sg);
      if |free| == FIFOS {
        SetMode(sg, true);
      }
      BitsOfSubgroup(sg, ids);
      forall g | 0 <= g < ALL_SUBGROUPS ensures SubgroupOk(g) {
        assert old(SubgroupOk(g));
        assert g != sg ==> forall id :: 0 <= id < FIFOS ==> IsFree(g, id) == old(IsFree(g, id));
      }
    }
  }
}
