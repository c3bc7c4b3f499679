/** Pre-registering with DLB_STEAL_CPUS and leaving with DLB_RETURN_STOLEN undo each other
    (src/LB_comm/shmem_procinfo.c). */
module ProcinfoRoundTrip {
  import opened Codes
  import opened ProcinfoSpec
  import opened ProcinfoInvariant
  import opened ProcinfoSetMask
  import opened ProcinfoOps

  /** No live process before the holder of c (or at all, when c is free) still counts c as lost. */
  ghost predicate Unclaimed(s: Shared, c: nat, h: int) {
    forall q :: 0 <= q < (if h == FREE then s.num else h) && q < |s.procs| && s.procs[q].pid != NOBODY
      ==> c !in s.procs[q].stolen
  }

  // ---------------------------------------------------------------- who counts what as lost

  /** After a steal a victim counts its CPUs of the mask as lost, and nobody else's list grows. */
  lemma StealLosses(s: Shared, owner: nat, mask: Mask, q: nat, c: nat, h: int)
    requires owner < |s.procs| && Bounds(s) && SlotsOk(s) && At(s, c, h)
    requires Steal(s, owner, mask, false).1 == Success && q < |s.procs| && q != owner
    ensures c in Steal(s, owner, mask, false).0.procs[q].stolen <==>
      c in s.procs[q].stolen || (c in mask && h == q)
  {
    assert SlotOk(s.procs[q], s.system);
    SlotsAreClean(s);
    hide Steal, SlotOk, SlotsOk, CleanOk;
    if mask == {} {
      StealNothing(s, owner);
    } else {
      StealEffect(s, owner, mask);
      var t := Steal(s, owner, mask, false).0;
      if c in mask {
        VictimHadIt(s, t.procs, owner, mask, c, h);
      }
      if t.procs[q] != s.procs[q] {
        RobbedFutures(s.procs[q], t.procs[q], mask, s.system);
      }
    }
  }

  lemma {:induction false} GiveBackLosses(s: Shared, owner: nat, mask: Mask, k: nat, q: nat, c: nat)
    requires owner < |s.procs| && s.num <= |s.procs| && q < |s.procs|
    ensures c in GiveBackFrom(s, owner, mask, k).procs[q].stolen <==>
      c in s.procs[q].stolen && !(c in mask && k <= c < s.size && Home(s, c) == q)
    decreases s.size - k
  {
    if k < s.size {
      var t := if k in mask then GiveBack(s, owner, k) else s;
      GiveBackLoss(s, owner, k, q, c);
      if c != k {
        GiveBackHome(s, owner, k, c);
      }
      hide GiveBack, Home;
      GiveBackLosses(t, owner, mask, k + 1, q, c);
    }
  }

  lemma GiveBackLoss(s: Shared, owner: nat, k: nat, q: nat, c: nat)
    requires owner < |s.procs| && s.num <= |s.procs| && q < |s.procs|
    ensures c in GiveBack(s, owner, k).procs[q].stolen <==> c in s.procs[q].stolen && !(c == k && Home(s, c) == q)
  {
  }

  // ---------------------------------------------------------------- pre-registration with stealing

  ghost predicate Enters(s: Shared, pid: nat, mask: Mask) {
    Valid(s) && pid != NOBODY && InRange(mask, s.size) == mask && Preinit(s, pid, mask, true, false).1 == Success
  }

  function Slot(s: Shared, pid: nat): nat {
    PreinitSlot(s.procs, pid)
  }

  /** The table with the newcomer in it, in terms of the table before. */
  lemma Entered(s: Shared, pid: nat, mask: Mask)
    requires Enters(s, pid, mask)
    ensures var p, t := Slot(s, pid), Preinit(s, pid, mask, true, false).0;
      && p <= s.num && Vacant(s, p) && SlotsOk(s)
      && var s1 := Seated(s, p, pid, true);
      && Settable(s1, p) && SetNewMask(s1, p, mask, false).1 == Success
      && t == Filled(SetNewMask(s1, p, mask, false).0, p, mask).(num := if p == s.num then s.num + 1 else s.num)
  {
    hide Sound, SetNewMask, PreinitSlot, InRange;
    SoundIs(s);
    var p := PreinitSlot(s.procs, pid);
    PreinitSlotLow(s.procs, s.num, pid, 0);
    assert p < |s.procs| && s.procs[p].pid != pid;
    SeatKeeps(s, p, pid, true);
    assert SlotsOk(s) by { SoundSlots(s); }
  }

  lemma SoundSlots(s: Shared)
    requires Sound(s)
    ensures SlotsOk(s) && Bounds(s)
  {
  }

  lemma EnteredAt(s: Shared, pid: nat, mask: Mask, c: nat, h: int)
    requires Enters(s, pid, mask) && At(s, c, h)
    ensures At(Preinit(s, pid, mask, true, false).0, c, if c in mask then Slot(s, pid) else h)
  {
    hide Sound, SetNewMask, PreinitSlot, Preinit;
    Entered(s, pid, mask);
    EntersIs(s, pid, mask);
    SoundIs(s);
    var p := Slot(s, pid);
    var s1 := Seated(s, p, pid, true);
    SeatKeeps(s, p, pid, true);
    SetNewMaskAt(s1, p, mask, false, c, h);
    SetNewMaskAllOrNothing(s1, p, mask, false);
    VacantHolds(s, p, c, h);
    FillKeeps(SetNewMask(s1, p, mask, false).0, p, mask);
  }

  lemma EntersIs(s: Shared, pid: nat, mask: Mask)
    requires Enters(s, pid, mask)
    ensures Valid(s) && Sound(s) && Valid(Preinit(s, pid, mask, true, false).0)
    ensures forall c :: c in mask ==> c < s.size
  {
    PreinitKeeps(s, pid, mask, true, false);
    hide Preinit;
    assert forall c :: c in InRange(mask, s.size) ==> c < s.size;
  }

  lemma VacantHolds(s: Shared, p: nat, c: nat, h: int)
    requires SlotsOk(s) && Vacant(s, p) && At(s, c, h)
    ensures h != p
  {
    assert SlotOk(s.procs[p], s.system);
  }

  /** The newcomer releases nothing, so entering is one steal and one registration. */
  lemma EnteredLosses(s: Shared, pid: nat, mask: Mask, q: nat, c: nat, h: int)
    requires Enters(s, pid, mask) && At(s, c, h) && q < |s.procs| && q != Slot(s, pid)
    ensures c in Preinit(s, pid, mask, true, false).0.procs[q].stolen <==>
      c in s.procs[q].stolen || (c in mask && h == q)
  {
    var p := Slot(s, pid);
    var s1 := Seated(s, p, pid, true);
    hide Sound, SetNewMask, PreinitSlot, Preinit, Valid, Steal, ToSteal;
    Entered(s, pid, mask);
    EntersIs(s, pid, mask);
    SeatKeeps(s, p, pid, true);
    SoundSlots(s1);
    SetNewMaskCases(s1, p, mask, false);
    var steal := ToSteal(s1, p, mask);
    StealNeverRollsBack(s1, p, steal);
    assert ToFree(s1, p, mask) == {};
    StealLosses(s1, p, steal, q, c, h);
    if 0 <= h {
      StealIsHeld(s1, p, mask, c, h);
    }
  }

  lemma StealIsHeld(s: Shared, p: nat, mask: Mask, c: nat, h: int)
    requires p < |s.procs| && At(s, c, h) && s.procs[p].current == {} && 0 <= h && Bounds(s)
    requires forall k :: k in mask ==> k < s.size
    ensures c in ToSteal(s, p, mask) <==> c in mask
  {
  }

  lemma EnteredPids(s: Shared, pid: nat, mask: Mask)
    requires Enters(s, pid, mask)
    ensures var p, t := Slot(s, pid), Preinit(s, pid, mask, true, false).0;
      && |t.procs| == |s.procs| && t.num == (if p == s.num then s.num + 1 else s.num)
      && t.procs[p].future == mask && t.procs[p].pid == pid
      && forall q :: 0 <= q < |s.procs| && q != p ==> t.procs[q].pid == s.procs[q].pid
  {
    hide Sound, SetNewMask, PreinitSlot, Preinit;
    Entered(s, pid, mask);
    var s1 := Seated(s, Slot(s, pid), pid, true);
    SetNewMaskAllOrNothing(s1, Slot(s, pid), mask, false);
  }

  lemma HolderOf(s: Shared, pid: nat, mask: Mask, c: nat, h: int)
    requires Enters(s, pid, mask) && At(s, c, h) && c in mask
    ensures var p := Slot(s, pid); var u := Preinit(s, pid, mask, true, false).0;
      && p < |s.procs| == |u.procs| && c !in u.procs[p].stolen
      && (h == FREE || (0 <= h < s.num && h != p && s.procs[h].pid != NOBODY))
  {
    var u := Preinit(s, pid, mask, true, false).0;
    var p := Slot(s, pid);
    EntersIs(s, pid, mask);
    hide SetNewMask, Preinit, PreinitSlot;
    Entered(s, pid, mask);
    EnteredPids(s, pid, mask);
    assert SlotOk(u.procs[p], u.system);
    VacantHolds(s, p, c, h);
    InSystem(u, p, c);
    SameSystem(s, pid, mask);
    var g := PlaceOf(s, c);
    OnePlace(s, c, g, h);
    assert 0 <= h ==> SlotOk(s.procs[h], s.system);
  }

  /** The process that first counts a taken CPU as lost is its old holder, or nobody if it was free,
      exactly when the CPU was unclaimed. */
  lemma FirstLoser(s: Shared, pid: nat, mask: Mask, c: nat, h: int)
    requires Enters(s, pid, mask) && At(s, c, h) && c in mask
    ensures FREE <= h
    ensures Home(Preinit(s, pid, mask, true, false).0, c) == h <==> Unclaimed(s, c, h)
  {
    var u := Preinit(s, pid, mask, true, false).0;
    var p := Slot(s, pid);
    hide SetNewMask, Preinit, PreinitSlot, Valid, At, Receiver;
    EntersIs(s, pid, mask);
    Entered(s, pid, mask);
    EnteredPids(s, pid, mask);
    HolderOf(s, pid, mask, c, h);
    forall q | 0 <= q < |s.procs| && q != p
      ensures c in u.procs[q].stolen <==> c in s.procs[q].stolen || h == q
    {
      EnteredLosses(s, pid, mask, q, c, h);
    }
    ReceiverIsHolder(s.procs, s.num, u.procs, u.num, p, c, h);
  }

  /** Scanning the losses of b for c finds h first, when a is b before c was taken from h for slot p. */
  lemma ReceiverIsHolder(a: seq<Proc>, n: nat, b: seq<Proc>, m: nat, p: nat, c: nat, h: int)
    requires p <= n <= |a| == |b| && p < |a| && m == (if p == n then n + 1 else n)
    requires a[p].pid == NOBODY && c !in b[p].stolen
    requires forall q :: 0 <= q < |a| && q != p ==>
      b[q].pid == a[q].pid && (c in b[q].stolen <==> c in a[q].stolen || h == q)
    requires h == FREE || (0 <= h < n && h != p && a[h].pid != NOBODY)
    ensures (if Receiver(b, m, c) == m then FREE else Receiver(b, m, c)) == h <==>
      forall q :: 0 <= q < (if h == FREE then n else h) && a[q].pid != NOBODY ==> c !in a[q].stolen
  {
    var r := Receiver(b, m, c);
    hide Receiver;
    if r < m && (h == FREE || r < h) {
      assert r != p && c in a[r].stolen && a[r].pid != NOBODY;
    }
  }

  lemma SameSystem(s: Shared, pid: nat, mask: Mask)
    requires Enters(s, pid, mask)
    ensures Preinit(s, pid, mask, true, false).0.system == s.system && Preinit(s, pid, mask, true, false).0.size == s.size
  {
    hide SetNewMask, Preinit, PreinitSlot, Sound;
    Entered(s, pid, mask);
  }

  // ---------------------------------------------------------------- and back

  function EnterLeave(s: Shared, pid: nat, mask: Mask): Shared
    requires s.num <= |s.procs| && Slot(s, pid) < |s.procs|
  {
    Finalize(Preinit(s, pid, mask, true, false).0, Slot(s, pid), true).0
  }

  /** Every CPU is where it was. */
  ghost predicate SamePlaces(s: Shared, t: Shared) {
    forall c: nat, h: int :: At(s, c, h) ==> At(t, c, h)
  }

  ghost predicate AllUnclaimed(s: Shared, mask: Mask) {
    forall c: nat, h: int :: c in mask && At(s, c, h) ==> Unclaimed(s, c, h)
  }

  lemma LeftAt(s: Shared, pid: nat, mask: Mask, c: nat, h: int)
    requires Enters(s, pid, mask) && At(s, c, h)
    ensures Slot(s, pid) < |s.procs|
    ensures At(EnterLeave(s, pid, mask), c, if c in mask then Home(Preinit(s, pid, mask, true, false).0, c) else h)
  {
    var u := Preinit(s, pid, mask, true, false).0;
    var p := Slot(s, pid);
    EntersIs(s, pid, mask);
    hide SetNewMask, Preinit, PreinitSlot, SlotsOk, Partition, Finalize, Home;
    Entered(s, pid, mask);
    EnteredPids(s, pid, mask);
    EnteredAt(s, pid, mask, c, h);
    VacantHolds(s, p, c, h);
    FinalizeAt(u, p, true, c, if c in mask then p else h);
  }

  /** Stealing CPUs and then leaving with DLB_RETURN_STOLEN puts every CPU back where it was, in the
      future mask of its old holder or in the free mask, exactly when every CPU taken was unclaimed. */
  lemma EnterLeaveRestores(s: Shared, pid: nat, mask: Mask)
    requires Enters(s, pid, mask)
    ensures Slot(s, pid) < |s.procs|
    ensures SamePlaces(s, EnterLeave(s, pid, mask)) <==> AllUnclaimed(s, mask)
  {
    hide Enters, Preinit, At, Unclaimed, Home, EnterLeave, Slot;
    EntersHas(s, pid, mask);
    var t := EnterLeave(s, pid, mask);
    forall c: nat, h: int | At(s, c, h) ensures At(t, c, h) <==> c !in mask || Unclaimed(s, c, h) {
      LeftAt(s, pid, mask, c, h);
      if c in mask {
        FirstLoser(s, pid, mask, c, h);
        OnePlace(t, c, Home(Preinit(s, pid, mask, true, false).0, c), h);
      }
    }
  }

  lemma EntersHas(s: Shared, pid: nat, mask: Mask)
    requires Enters(s, pid, mask)
    ensures s.num <= |s.procs| && Slot(s, pid) < |s.procs|
    ensures var u := Preinit(s, pid, mask, true, false).0; u.num <= |u.procs| == |s.procs|
  {
    hide Preinit, SetNewMask, PreinitSlot;
    Entered(s, pid, mask);
    EnteredPids(s, pid, mask);
  }

  lemma OnePlace(s: Shared, c: nat, g: int, h: int)
    requires At(s, c, g)
    ensures At(s, c, h) <==> g == h
  {
    assert 0 <= g ==> c in s.procs[g].future;
    assert 0 <= h < |s.procs| ==> (c in s.procs[h].future <==> g == h);
  }

  /** And then every other process counts as lost exactly what it counted before. */
  lemma EnterLeaveLosses(s: Shared, pid: nat, mask: Mask, q: nat)
    requires Enters(s, pid, mask) && AllUnclaimed(s, mask) && q < |s.procs| && q != Slot(s, pid)
    ensures Slot(s, pid) < |s.procs|
    ensures EnterLeave(s, pid, mask).procs[q].stolen == s.procs[q].stolen
  {
    var u := Preinit(s, pid, mask, true, false).0;
    var p := Slot(s, pid);
    EntersIs(s, pid, mask);
    hide SetNewMask, Preinit, PreinitSlot, GiveBackFrom, Home, EnterLeave, Finalize, Slot;
    EntersHas(s, pid, mask);
    SameSystem(s, pid, mask);
    LeaveShape(s, pid, mask, q);
    assert SlotOk(s.procs[q], s.system);
    hide SlotsOk, Partition, SlotOk, Unclaimed, TailFree;
    forall c: nat ensures c in EnterLeave(s, pid, mask).procs[q].stolen <==> c in s.procs[q].stolen {
      GiveBackLosses(u, p, mask, 0, q, c);
      var h := PlaceOf(s, c);
      EnteredLosses(s, pid, mask, q, c, h);
      if c in mask {
        FirstLoser(s, pid, mask, c, h);
        if c in s.procs[q].stolen {
          NotLostByHolder(s, q, c);
        }
      }
    }
  }

  lemma NotLostByHolder(s: Shared, q: nat, c: nat)
    requires SlotsOk(s) && q < |s.procs| && c in s.procs[q].stolen
    ensures c !in s.procs[q].future
  {
    assert SlotOk(s.procs[q], s.system);
  }

  lemma LeaveShape(s: Shared, pid: nat, mask: Mask, q: nat)
    requires Enters(s, pid, mask) && q < |s.procs| && q != Slot(s, pid)
    ensures s.num <= |s.procs| && Slot(s, pid) < |s.procs|
    ensures var u := Preinit(s, pid, mask, true, false).0;
      && u.num <= |u.procs| == |s.procs| && |EnterLeave(s, pid, mask).procs| == |s.procs|
      && EnterLeave(s, pid, mask).procs[q] == if mask == {} then u.procs[q] else GiveBackFrom(u, Slot(s, pid), mask, 0).procs[q]
  {
    var u := Preinit(s, pid, mask, true, false).0;
    EntersIs(s, pid, mask);
    hide SetNewMask, Preinit, PreinitSlot, GiveBackFrom;
    EntersHas(s, pid, mask);
    EnteredPids(s, pid, mask);
    assert SlotOk(u.procs[Slot(s, pid)], u.system);
    hide SlotsOk, Partition;
  }
}
