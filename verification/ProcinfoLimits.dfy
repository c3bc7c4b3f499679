/** Three calls that the code accepts and that break the partition of the CPUs, each with the exact
    condition under which it does not (src/LB_comm/shmem_procinfo.c). */
module ProcinfoLimits {
  import opened Codes
  import opened ProcinfoSpec
  import opened ProcinfoInvariant
  import opened ProcinfoSetMask
  import opened ProcinfoOps
  import R = ProcinfoRuns

  ghost predicate Pending(s: Shared, i: nat) {
    Valid(s) && i < |s.procs| && s.procs[i].pid != NOBODY && s.procs[i].dirty
  }

  /** A process cannot steal CPUs that are already coming to it. */
  lemma CannotStealOwnFuture(s: Shared, i: nat, returnStolen: bool, c: nat)
    requires Pending(s, i) && c in ToSteal(s, i, s.procs[i].future)
    ensures SetNewMask(s, i, s.procs[i].future, returnStolen) == (s, ErrPerm)
  {
    var mask := s.procs[i].future;
    SetNewMaskCases(s, i, mask, returnStolen);
    StealNeverRollsBack(s, i, ToSteal(s, i, mask));
    var h := PlaceOf(s, c);
    SlotsAreClean(s);
    hide SetNewMask, Steal, SlotsOk, CleanOk, Partition;
    if Steal(s, i, ToSteal(s, i, mask), true).1 == Success {
      StealAt(s, i, ToSteal(s, i, mask), c, h);
    }
  }

  /** The CPUs that the process is about to leave. */
  function Leaving(s: Shared, i: nat): Mask
    requires i < |s.procs|
  {
    s.procs[i].current - s.procs[i].future
  }

  /** Re-submitting the pending mask, when it only shrinks the current one, releases every CPU that the process
      is about to leave, whoever holds it by now. */
  lemma ResubmitResult(s: Shared, i: nat, returnStolen: bool)
    requires Pending(s, i) && s.procs[i].future <= s.procs[i].current
    ensures SetNewMask(s, i, s.procs[i].future, returnStolen) == (Unregister(s, i, Leaving(s, i), returnStolen), Success)
  {
    var p := s.procs[i];
    assert SlotOk(p, s.system);
    forall c | c in p.future ensures c !in s.free {
      var h := PlaceOf(s, c);
    }
    hide Partition, SlotsOk, Unregister;
    assert ToSteal(s, i, p.future) == {} && ToAcquire(s, p.future) == {};
    assert ToFree(s, i, p.future) == Leaving(s, i);
  }

  /** What releasing CPU k, which the owner no longer holds, does to the place of CPU c. */
  ghost predicate Released(s: Shared, t: Shared, owner: nat, c: nat, now: bool)
    requires s.num <= |s.procs| && |t.procs| == |s.procs|
  {
    var r := Receiver(s.procs, s.num, c);
    && (c in t.free <==> c in s.free || (now && r == s.num))
    && forall q :: 0 <= q < |s.procs| ==>
      (c in t.procs[q].future <==> c in s.procs[q].future || (now && q == r < s.num && q != owner))
  }

  lemma GiveBackStray(s: Shared, owner: nat, k: nat, c: nat)
    requires owner < |s.procs| && s.num <= |s.procs| && k !in s.procs[owner].future
    ensures Released(s, GiveBack(s, owner, k), owner, c, c == k)
    ensures GiveBack(s, owner, k).procs[owner].future == s.procs[owner].future
    ensures c != k ==> Receiver(GiveBack(s, owner, k).procs, s.num, c) == Receiver(s.procs, s.num, c)
  {
    if c != k {
      ReceiverDependsOn(s.procs, GiveBack(s, owner, k).procs, s.num, c, 0);
    }
  }

  lemma {:induction false} GiveBackFromStray(s: Shared, owner: nat, mask: Mask, k: nat, c: nat)
    requires owner < |s.procs| && s.num <= |s.procs| && mask !! s.procs[owner].future
    ensures Released(s, GiveBackFrom(s, owner, mask, k), owner, c, c in mask && k <= c < s.size)
    decreases s.size - k
  {
    hide GiveBack, Receiver;
    if k < s.size {
      if k in mask {
        GiveBackStray(s, owner, k, c);
        GiveBackFromStray(GiveBack(s, owner, k), owner, mask, k + 1, c);
      } else {
        GiveBackFromStray(s, owner, mask, k + 1, c);
      }
    }
  }

  /** Releasing CPU c, which process i is about to leave, puts it nowhere that it is not already: it is free and
      nobody lost it, or in return mode process i is the first that lost it. */
  predicate Returnable(s: Shared, i: nat, c: nat, returnStolen: bool)
    requires s.num <= |s.procs|
  {
    var r := Receiver(s.procs, s.num, c);
    if returnStolen then r == i || (r == s.num && c in s.free) else c in s.free
  }

  lemma ResubmitPlaces(s: Shared, i: nat, returnStolen: bool, c: nat)
    requires Pending(s, i) && c in s.system
    ensures var t := Unregister(s, i, Leaving(s, i), returnStolen);
      Placed(t, c) <==> c !in Leaving(s, i) || Returnable(s, i, c, returnStolen)
  {
    var p, m := s.procs[i], Leaving(s, i);
    var t := Unregister(s, i, m, returnStolen);
    var h := PlaceOf(s, c);
    var r := Receiver(s.procs, s.num, c);
    assert r < s.num ==> SlotOk(s.procs[r], s.system);
    if returnStolen && m != {} {
      assert t == GiveBackFrom(s, i, m, 0);
      GiveBackFromStray(s, i, m, 0, c);
    } else {
      assert p.future - m == p.future;
    }
    hide Unregister, SlotsOk, Partition;
    if c !in m || Returnable(s, i, c, returnStolen) {
      PlacedAt(t, c, h);
    } else {
      assert h != i;
      assert r < s.num ==> h != r;
      assert 0 <= h ==> c in t.procs[h].future;
    }
  }

  lemma ReleaseOutside(s: Shared, i: nat, returnStolen: bool, c: nat)
    requires Pending(s, i) && c !in s.system
    ensures Placed(Unregister(s, i, Leaving(s, i), returnStolen), c)
  {
    var p, m := s.procs[i], Leaving(s, i);
    assert SlotOk(p, s.system);
    var t := Unregister(s, i, m, returnStolen);
    var h := PlaceOf(s, c);
    if returnStolen && m != {} {
      GiveBackFromStray(s, i, m, 0, c);
    } else {
      assert p.future - m == p.future;
    }
    hide Unregister, SlotsOk, Partition;
    assert At(t, c, OUTSIDE);
  }

  /** setprocessmask_self accepts the pending mask of a dirty process. That keeps the partition exactly
      when the mask would need more CPUs than the current one, or every CPU being left can be released. */
  lemma ResubmitKeeps(s: Shared, i: nat, returnStolen: bool, noSync: bool)
    requires Pending(s, i)
    ensures var p := s.procs[i];
      Partition(SetMaskSelf(s, i, p.future, returnStolen, noSync).0) <==>
        !(p.future <= p.current) || forall c :: c in Leaving(s, i) ==> Returnable(s, i, c, returnStolen)
  {
    var p := s.procs[i];
    var t := SetMaskSelf(s, i, p.future, returnStolen, noSync).0;
    assert SlotOk(p, s.system);
    if !(p.future <= p.current) {
      var c :| c in p.future && c !in p.current;
      var h := PlaceOf(s, c);
      hide SetNewMask;
      CannotStealOwnFuture(s, i, returnStolen, c);
    } else {
      ResubmitResult(s, i, returnStolen);
      var u := Unregister(s, i, Leaving(s, i), returnStolen);
      hide SetNewMask, Unregister, Returnable, Placed;
      forall c: nat ensures Placed(t, c) <==> c !in Leaving(s, i) || Returnable(s, i, c, returnStolen) {
        if c in s.system {
          ResubmitPlaces(s, i, returnStolen, c);
        } else {
          ReleaseOutside(s, i, returnStolen, c);
        }
        SamePlaces(u, t, c);
      }
      forall c | c in Leaving(s, i) && !Returnable(s, i, c, returnStolen) ensures !Placed(t, c) {
      }
    }
  }

  lemma SamePlaces(s: Shared, t: Shared, c: nat)
    requires t.system == s.system && t.free == s.free && |t.procs| == |s.procs|
    requires forall q :: 0 <= q < |s.procs| ==> t.procs[q].future == s.procs[q].future
    ensures Placed(t, c) <==> Placed(s, c)
  {
    assert forall h :: At(t, c, h) <==> At(s, c, h);
  }

  /** The stale bit at work: 1 leaves CPU 1, process 2 takes it, and 1 submits its pending mask again. */
  lemma ResubmitBreaks()
    ensures var s := Shared({0, 1}, 2, false, {}, 2,
        [Proc(1, true, false, {0, 1}, {0}, {}), Proc(2, false, false, {1}, {1}, {})]);
      && Valid(s) && !Partition(SetMaskSelf(s, 0, {0}, false, false).0)
      && !Partition(SetMaskSelf(s, 0, {0}, true, false).0)
  {
    var s := Shared({0, 1}, 2, false, {}, 2,
      [Proc(1, true, false, {0, 1}, {0}, {}), Proc(2, false, false, {1}, {1}, {})]);
    forall c: nat ensures Placed(s, c) {
      PlacedAt(s, c, if c == 0 then 0 else if c == 1 then 1 else OUTSIDE);
    }
    assert Valid(s);
    hide Partition, SlotsOk, SetMaskSelf;
    assert 1 in Leaving(s, 0);
    assert !Returnable(s, 0, 1, false) && !Returnable(s, 0, 1, true);
    ResubmitKeeps(s, 0, false, false);
    ResubmitKeeps(s, 0, true, false);
  }

  /** Stealing ignores CPUs beyond the node, but pre-registration records the mask as given: the table
      stays valid exactly when the mask fits the node. */
  lemma PreinitOutOfRange(s: Shared, pid: nat, mask: Mask, returnStolen: bool)
    requires Valid(s) && pid != NOBODY && Preinit(s, pid, mask, true, returnStolen).1 == Success
    ensures Valid(Preinit(s, pid, mask, true, returnStolen).0) <==> InRange(mask, s.size) == mask
  {
    if InRange(mask, s.size) == mask {
      PreinitKeeps(s, pid, mask, true, returnStolen);
    } else {
      var c :| c in mask && c !in InRange(mask, s.size);
      var (t, code) := Preinit(s, pid, mask, true, returnStolen);
      var p := PreinitSlot(s.procs, pid);
      assert c in t.procs[p].future && c >= t.size && t.system == s.system by {
        hide SetNewMask, Sound, TailFree;
      }
      hide Preinit;
      assert !Placed(t, c);
    }
  }

  /** Pre-registering CPUs 0 and 5 on a node of one CPU: CPU 5 is recorded as owned. */
  lemma PreinitBreaks()
    ensures var s := R.Start({0}, 1, 1);
      var (t, code) := Preinit(s, 3, {0, 5}, true, false);
      Valid(s) && code == Success && t.procs == [Proc(3, false, true, {0, 5}, {0, 5}, {})] && !Valid(t)
  {
    var s := R.Start({0}, 1, 1);
    R.StartIsValid({0}, 1, 1);
    var s1 := s.(procs := [EMPTY.(pid := 3, prereg := true)]);
    assert s.procs[0 := EMPTY.(pid := 3, prereg := true)] == s1.procs;
    assert ToAcquire(s1, {0, 5}) == {0} && ToSteal(s1, 0, {0, 5}) == {} && ToFree(s1, 0, {0, 5}) == {};
    assert SetNewMask(s1, 0, {0, 5}, false).1 == Success;
    assert SetNewMask(s1, 0, {0, 5}, false).0.procs == [Proc(3, true, true, {}, {0}, {})] by {
      assert {} + {0} == {0} && {} - {0} == {};
    }
    hide SetNewMask, Valid;
    PreinitOutOfRange(s, 3, {0, 5}, false);
    assert 5 !in InRange({0, 5}, 1);
  }

  /** Inheriting CPUs that the slot was robbed of leaves them on its list of losses; leaving with
      DLB_RETURN_STOLEN then drops them. */
  lemma ExpansionLeaks()
    ensures var s := Shared({0, 1}, 2, false, {1}, 1, [Proc(7, false, true, {0}, {0}, {1})]);
      && Valid(s)
      && Init(s, 8, 7, {0, 1}, false) == (s.(free := {}, procs := [Proc(8, false, false, {0, 1}, {0, 1}, {1})]), Noted)
      && Finalize(Init(s, 8, 7, {0, 1}, false).0, 0, true).0.free == {0}
  {
    var s := Shared({0, 1}, 2, false, {1}, 1, [Proc(7, false, true, {0}, {0}, {1})]);
    forall c: nat ensures Placed(s, c) {
      PlacedAt(s, c, if c == 0 then 0 else if c == 1 then FREE else OUTSIDE);
    }
    assert InitScan(s.procs, 1, 8, 7, 0, 1, 1) == Found(1, 0);
    assert {0, 1} - {0} == {1} && {1} <= s.free && s.free - {1} == {} && {0} < {0, 1};
    var t := s.(free := {}, procs := [Proc(8, false, false, {0, 1}, {0, 1}, {1})]);
    assert t.procs == s.procs[0 := t.procs[0]];
    assert Inherit(s, 0, 1, 8, {0, 1}) == (t, Noted, 0);
    assert Init(s, 8, 7, {0, 1}, false) == (t, Noted);
    hide Init;
    assert Receiver(t.procs, 1, 0, 0) == 1 by { assert Receiver(t.procs, 1, 0, 1) == 1; }
    var u := GiveBack(t, 0, 0);
    assert u.procs == [Proc(8, true, false, {0, 1}, {1}, {1})] && u.free == {0};
    assert Receiver(u.procs, 1, 1, 0) == 0;
    var v := GiveBack(u, 0, 1);
    assert v.free == {0};
    assert GiveBackFrom(v, 0, {0, 1}, 2) == v;
    assert GiveBackFrom(u, 0, {0, 1}, 1) == v;
    assert GiveBackFrom(t, 0, {0, 1}, 0) == v;
  }
}
