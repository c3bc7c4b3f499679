/** Releasing CPUs in return mode when a process may hold CPUs that it also counts as lost, as after inheriting with
    expansion (src/LB_comm/shmem_procinfo.c): which CPUs are dropped from the table, and when the partition survives. */
module ProcinfoReturn {
  import opened Codes
  import opened ProcinfoSpec
  import opened ProcinfoInvariant
  import opened ProcinfoSetMask
  import opened ProcinfoOps

  /** The free mask and the future masks partition the system, and clean processes have equal masks. Nothing is said
      of the lists of lost CPUs. */
  ghost predicate Loose(s: Shared) {
    Bounds(s) && Partition(s) && CleanOk(s)
  }

  lemma ValidIsLoose(s: Shared)
    requires Valid(s)
    ensures Loose(s)
  {
    SlotsAreClean(s);
    hide SlotsOk, CleanOk, Partition;
  }

  /** The owner is the first loser of no CPU of the mask. */
  ghost predicate Returns(s: Shared, owner: nat, mask: Mask)
    requires s.num <= |s.procs|
  {
    forall c :: c in mask ==> Home(s, c) != owner
  }

  // ---------------------------------------------------------------- one release

  lemma PlacedInside(s: Shared, c: nat, h: int)
    requires At(s, c, h) && c in s.system
    ensures Placed(s, c) <==> h != OUTSIDE
  {
    if h == OUTSIDE {
      forall g | FREE <= g ensures !At(s, c, g) {
        if 0 <= g < |s.procs| {
          assert c !in s.procs[g].future;
        }
      }
    }
  }

  /** unregister_mask keeps the partition exactly when, in return mode, the owner is the first loser of no CPU that it
      releases; those CPUs end nowhere. */
  lemma ReleaseKeepsPartition(s: Shared, owner: nat, mask: Mask, returnStolen: bool)
    requires owner < |s.procs| && Bounds(s) && Partition(s) && mask <= s.procs[owner].future && mask <= s.system
    ensures Partition(Unregister(s, owner, mask, returnStolen)) <==> returnStolen ==> Returns(s, owner, mask)
  {
    var t := Unregister(s, owner, mask, returnStolen);
    forall c: nat ensures Placed(t, c) <==> !(returnStolen && c in mask && Home(s, c) == owner) {
      var h := PlaceOf(s, c);
      ReleasePlaces(s, owner, mask, returnStolen, c, h);
      HomeInside(s, c);
      if c in s.system {
        PlacedInside(t, c, if c !in mask then h else if returnStolen then GivenBack(s, owner, c) else FREE);
      }
      hide Unregister, Home;
    }
    hide Unregister, Home, Placed;
    if returnStolen && !Returns(s, owner, mask) {
      var c :| c in mask && Home(s, c) == owner;
      assert !Placed(t, c);
    }
  }

  // ---------------------------------------------------------------- leaving

  lemma HeldInSystem(s: Shared, i: nat)
    requires Bounds(s) && Partition(s) && i < |s.procs|
    ensures s.procs[i].future <= s.system
  {
    forall c | c in s.procs[i].future ensures c in s.system {
      var h := PlaceOf(s, c);
    }
  }

  lemma EmptySlotPlaces(s: Shared, i: nat, c: nat, h: int)
    requires i < |s.procs| && At(s, c, h) && h != i
    ensures At(s.(procs := s.procs[i := EMPTY]), c, h)
  {
  }

  /** Where every CPU is after a process has left: those that it was itself the first to lose are dropped. */
  lemma LeavePlaces(s: Shared, i: nat, returnStolen: bool, c: nat, h: int)
    requires Bounds(s) && Partition(s) && i < |s.procs| && s.procs[i].pid != NOBODY && At(s, c, h)
    requires !s.procs[i].dirty ==> s.procs[i].current == s.procs[i].future
    ensures At(Finalize(s, i, returnStolen).0, c, if h != i then h else if returnStolen then GivenBack(s, i, c) else FREE)
  {
    var mask := s.procs[i].future;
    HeldInSystem(s, i);
    ReleasePlaces(s, i, mask, returnStolen, c, h);
    assert c in mask <==> h == i;
    hide Unregister, Home;
    EmptySlotPlaces(Unregister(s, i, mask, returnStolen), i, c,
      if h != i then h else if returnStolen then GivenBack(s, i, c) else FREE);
  }

  /** Leaving keeps the partition exactly when, in return mode, the process is the first loser of no CPU that it holds. */
  lemma LeaveKeepsPartition(s: Shared, i: nat, returnStolen: bool)
    requires Bounds(s) && Partition(s) && i < |s.procs| && s.procs[i].pid != NOBODY
    requires !s.procs[i].dirty ==> s.procs[i].current == s.procs[i].future
    ensures Partition(Finalize(s, i, returnStolen).0) <==> returnStolen ==> Returns(s, i, s.procs[i].future)
  {
    var t := Finalize(s, i, returnStolen).0;
    HeldInSystem(s, i);
    forall c: nat ensures Placed(t, c) <==> !(returnStolen && c in s.procs[i].future && Home(s, c) == i) {
      var h := PlaceOf(s, c);
      LeavePlaces(s, i, returnStolen, c, h);
      HomeInside(s, c);
      hide Finalize, Home;
      if c in s.system {
        PlacedInside(t, c, if h != i then h else if returnStolen then GivenBack(s, i, c) else FREE);
      }
    }
    hide Finalize, Home, Placed;
    if returnStolen && !Returns(s, i, s.procs[i].future) {
      var c :| c in s.procs[i].future && Home(s, c) == i;
      assert !Placed(t, c);
    }
  }

  // ---------------------------------------------------------------- set_new_mask

  lemma GainedPlaces(s: Shared, i: nat, mask: Mask, c: nat, h: int)
    requires Loose(s) && i < |s.procs| && !s.procs[i].dirty && At(s, c, h)
    requires Steal(s, i, ToSteal(s, i, mask), false).1 == Success
    ensures At(Gained(s, i, mask), c, if c in mask && c < s.size then i else h)
  {
    var steal := ToSteal(s, i, mask);
    var h1 := if c in steal then i else h;
    StealAt(s, i, steal, c, h);
    StealFree(s, i, steal);
    hide Steal, Register, Partition;
    RegisterAt(Steal(s, i, steal, false).0, i, ToAcquire(s, mask), c, h1);
    assert c in mask && c < s.size && c !in steal && c !in ToAcquire(s, mask) ==> h == i;
  }

  lemma GainedHolds(s: Shared, i: nat, mask: Mask)
    requires Loose(s) && i < |s.procs| && !s.procs[i].dirty && Steal(s, i, ToSteal(s, i, mask), false).1 == Success
    ensures var u := Gained(s, i, mask);
      && SameShape(s, u) && Bounds(u) && ToFree(s, i, mask) <= u.procs[i].future && ToFree(s, i, mask) <= u.system
  {
    var steal := ToSteal(s, i, mask);
    HeldInSystem(s, i);
    hide Steal, Partition, CleanOk;
    StealFree(s, i, steal);
    StealOwner(s, i, steal);
  }

  /** Only system CPUs can be gained. */
  lemma NothingFromOutside(s: Shared, i: nat, mask: Mask, c: nat)
    requires Loose(s) && i < |s.procs| && !s.procs[i].dirty && Steal(s, i, ToSteal(s, i, mask), false).1 == Success
    requires c in mask && c < s.size
    ensures c in s.system
  {
    if c !in s.system {
      assert Placed(s, c);
      assert c in ToSteal(s, i, mask);
      hide Steal;
      StealAt(s, i, ToSteal(s, i, mask), c, OUTSIDE);
    }
  }

  lemma GainedPartition(s: Shared, i: nat, mask: Mask)
    requires Loose(s) && i < |s.procs| && !s.procs[i].dirty && Steal(s, i, ToSteal(s, i, mask), false).1 == Success
    ensures Partition(Gained(s, i, mask))
  {
    hide Steal, Gained, CleanOk;
    var u := Gained(s, i, mask);
    GainedHolds(s, i, mask);
    forall c: nat ensures Placed(u, c) {
      var h := PlaceOf(s, c);
      GainedPlaces(s, i, mask, c, h);
      if c in mask && c < s.size {
        NothingFromOutside(s, i, mask, c);
      }
      hide Placed;
      PlacedAt(u, c, if c in mask && c < s.size then i else h);
    }
  }

  /** A successful set_new_mask on a clean process keeps the partition exactly when, in return mode, the process is the
      first loser of no CPU that it gives up. */
  lemma SetKeepsPartition(s: Shared, i: nat, mask: Mask, returnStolen: bool)
    requires Loose(s) && i < |s.procs| && !s.procs[i].dirty && SetNewMask(s, i, mask, returnStolen).1 == Success
    ensures Partition(SetNewMask(s, i, mask, returnStolen).0) <==> returnStolen ==> Returns(s, i, ToFree(s, i, mask))
  {
    SetNewMaskCases(s, i, mask, returnStolen);
    StealNeverRollsBack(s, i, ToSteal(s, i, mask));
    hide SetNewMask, Steal, Gained, ToSteal, Partition, CleanOk, Unregister;
    var u, free := Gained(s, i, mask), ToFree(s, i, mask);
    GainedHolds(s, i, mask);
    GainedPartition(s, i, mask);
    ReleaseKeepsPartition(u, i, free, returnStolen);
    forall c | c in free ensures Home(u, c) == Home(s, c) {
      GainedHome(s, i, mask, c);
    }
    hide Home;
  }

  // ---------------------------------------------------------------- inheriting and leaving

  /** Every inheritance case keeps the partition, whatever the slot was robbed of. */
  lemma InheritKeepsPartition(s: Shared, i: nat, e: nat, pid: nat, mask: Mask)
    requires Inheritable(s, i, e) && pid != NOBODY
    ensures Loose(Inherit(s, i, e, pid, mask).0)
  {
    var (t, code, slot) := Inherit(s, i, e, pid, mask);
    SlotsAreClean(s);
    assert SlotOk(s.procs[i], s.system);
    if code == Noted {
      forall c: nat ensures Placed(t, c) {
        hide Inherit;
        var h := PlaceOf(s, c);
        InheritAt(s, i, e, pid, mask, c, h);
        InheritResult(s, i, e, pid, mask);
        PlacedAt(t, c, if c in mask then slot else h);
      }
      InheritClean(s, i, e, pid, mask);
    }
    InheritResult(s, i, e, pid, mask);
    hide Inherit, SlotsOk, CleanOk;
  }

  lemma InheritClean(s: Shared, i: nat, e: nat, pid: nat, mask: Mask)
    requires Inheritable(s, i, e) && CleanOk(s) && Inherit(s, i, e, pid, mask).1 == Noted
    ensures CleanOk(Inherit(s, i, e, pid, mask).0)
  {
    hide SlotsOk, Partition;
  }

  /** A process that expands its inheritance in slot i and then leaves in return mode drops CPUs exactly when that slot
      was the first to lose one of the CPUs that it now holds. */
  lemma ExpandThenLeave(s: Shared, i: nat, e: nat, pid: nat, mask: Mask)
    requires Inheritable(s, i, e) && pid != NOBODY && i < s.num
    requires Inherit(s, i, e, pid, mask).1 == Noted && Inherit(s, i, e, pid, mask).2 == i
    ensures var t := Inherit(s, i, e, pid, mask).0;
      Partition(Finalize(t, i, true).0) <==> Returns(s, i, if mask == {} then PreMask(s.procs[i]) else mask)
  {
    var t := Inherit(s, i, e, pid, mask).0;
    InheritKeepsPartition(s, i, e, pid, mask);
    InheritResult(s, i, e, pid, mask);
    LeaveKeepsPartition(t, i, true);
    assert t.procs[i].stolen == s.procs[i].stolen;
    forall c ensures Home(t, c) == Home(s, c) {
      ReceiverDependsOn(s.procs, t.procs, s.num, c, 0);
    }
    hide Inherit, Finalize, Home;
  }
}
