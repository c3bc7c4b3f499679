/** How set_new_mask moves the CPUs of the node, and when it succeeds (src/LB_comm/shmem_procinfo.c). */
module ProcinfoSetMask {
  import opened Codes
  import opened ProcinfoSpec
  import opened ProcinfoInvariant

  // ---------------------------------------------------------------- set_new_mask

  /** Where a successful set_new_mask puts a CPU that was at h. */
  function Landing(s: Shared, i: nat, mask: Mask, returnStolen: bool, c: nat, h: int): int
    requires s.num <= |s.procs|
  {
    if c in mask && c < s.size then i
    else if h != i then h
    else if returnStolen then Home(s, c) else FREE
  }

  ghost predicate Settable(s: Shared, i: nat) {
    Sound(s) && i < |s.procs| && s.procs[i].pid != NOBODY && !s.procs[i].dirty
  }

  /** The table once the missing CPUs are stolen and registered. */
  function Gained(s: Shared, i: nat, mask: Mask): Shared
    requires i < |s.procs| && s.num <= |s.procs|
  {
    Register(Steal(s, i, ToSteal(s, i, mask), false).0, i, ToAcquire(s, mask)).0
  }

  /** Only the dry run can make set_new_mask fail. */
  lemma SetNewMaskCases(s: Shared, i: nat, mask: Mask, returnStolen: bool)
    requires i < |s.procs| && s.num <= |s.procs| && !s.sharing
    ensures var dry := Steal(s, i, ToSteal(s, i, mask), true).1;
      && (dry == Success || dry == ErrPerm)
      && SetNewMask(s, i, mask, returnStolen) ==
         if dry != Success then (s, ErrPerm) else (Unregister(Gained(s, i, mask), i, ToFree(s, i, mask), returnStolen), Success)
  {
    hide StealScan, Unregister, ToSteal, ToFree;
    StealNeverRollsBack(s, i, ToSteal(s, i, mask));
    ScanCodes(s.procs, s.num, i, ToSteal(s, i, mask), true, 0, ToSteal(s, i, mask));
    StealFree(s, i, ToSteal(s, i, mask));
  }

  lemma {:induction false} ScanCodes(procs: seq<Proc>, num: nat, owner: nat, mask: Mask, dry: bool, p: nat, left: Mask)
    requires p <= num <= |procs|
    ensures StealScan(procs, num, owner, mask, dry, p, left).code in {Success, ErrPerm}
    decreases num - p
  {
    if p < num {
      var next := if dry then procs else procs[p := Robbed(procs[p], mask)];
      ScanCodes(procs, num, owner, mask, dry, p + 1, left);
      ScanCodes(next, num, owner, mask, dry, p + 1, left - procs[p].current * mask);
    }
  }

  lemma StealFree(s: Shared, owner: nat, mask: Mask)
    requires owner < |s.procs| && s.num <= |s.procs|
    ensures Steal(s, owner, mask, false).0.free == s.free
  {
    hide StealScan;
  }

  lemma StealOwner(s: Shared, owner: nat, mask: Mask)
    requires owner < |s.procs| && s.num <= |s.procs| && Steal(s, owner, mask, false).1 == Success
    ensures var t := Steal(s, owner, mask, false).0;
      t.procs[owner].pid == s.procs[owner].pid && t.procs[owner].future == s.procs[owner].future + mask
  {
    hide Steal;
    if mask == {} {
      StealNothing(s, owner);
    } else {
      StealEffect(s, owner, mask);
    }
  }

  lemma GainedKeeps(s: Shared, i: nat, mask: Mask)
    requires Settable(s, i) && Steal(s, i, ToSteal(s, i, mask), false).1 == Success
    ensures var u := Gained(s, i, mask);
      && SameShape(s, u) && Bounds(u) && SlotsOk(u) && u.procs[i].pid != NOBODY
      && ToFree(s, i, mask) <= u.procs[i].future && ToFree(s, i, mask) <= u.system
  {
    var steal := ToSteal(s, i, mask);
    assert SlotOk(s.procs[i], s.system);
    hide Steal, ToSteal, SlotsOk, Partition;
    StealSlots(s, i, steal);
    StealFree(s, i, steal);
    StealOwner(s, i, steal);
    RegisterSlots(Steal(s, i, steal, false).0, i, ToAcquire(s, mask));
  }

  lemma GainedAt(s: Shared, i: nat, mask: Mask, c: nat, h: int)
    requires Settable(s, i) && Steal(s, i, ToSteal(s, i, mask), false).1 == Success && At(s, c, h)
    ensures At(Gained(s, i, mask), c, if c in mask && c < s.size then i else h)
  {
    var steal := ToSteal(s, i, mask);
    assert SlotOk(s.procs[i], s.system);
    SlotsAreClean(s);
    hide Steal, SlotsOk, CleanOk, Partition, Register;
    StealAt(s, i, steal, c, h);
    StealFree(s, i, steal);
    var h1 := if c in steal then i else h;
    RegisterAt(Steal(s, i, steal, false).0, i, ToAcquire(s, mask), c, h1);
    assert c in mask && c < s.size && c !in steal && c !in ToAcquire(s, mask) ==> h == i;
  }

  lemma StealHome(s: Shared, owner: nat, mask: Mask, c: nat)
    requires owner < |s.procs| && s.num <= |s.procs| && c !in mask
    requires Steal(s, owner, mask, false).1 == Success
    ensures Home(Steal(s, owner, mask, false).0, c) == Home(s, c)
  {
    hide Steal;
    if mask == {} {
      StealNothing(s, owner);
    } else {
      StealEffect(s, owner, mask);
      ReceiverDependsOn(s.procs, Steal(s, owner, mask, false).0.procs, s.num, c, 0);
    }
  }

  lemma GainedHome(s: Shared, i: nat, mask: Mask, c: nat)
    requires i < |s.procs| && s.num <= |s.procs| && c !in mask
    requires Steal(s, i, ToSteal(s, i, mask), false).1 == Success
    ensures Home(Gained(s, i, mask), c) == Home(s, c)
  {
    hide Steal;
    var t := Steal(s, i, ToSteal(s, i, mask), false).0;
    StealHome(s, i, ToSteal(s, i, mask), c);
    ReceiverDependsOn(t.procs, Gained(s, i, mask).procs, s.num, c, 0);
  }

  /** A successful set_new_mask moves every CPU of the node to its Landing. */
  lemma SetNewMaskAt(s: Shared, i: nat, mask: Mask, returnStolen: bool, c: nat, h: int)
    requires Settable(s, i) && At(s, c, h) && SetNewMask(s, i, mask, returnStolen).1 == Success
    ensures At(SetNewMask(s, i, mask, returnStolen).0, c, Landing(s, i, mask, returnStolen, c, h))
  {
    var free := ToFree(s, i, mask);
    assert SlotOk(s.procs[i], s.system);
    assert c in free <==> h == i && c !in mask;
    SetNewMaskCases(s, i, mask, returnStolen);
    StealNeverRollsBack(s, i, ToSteal(s, i, mask));
    hide Steal, SetNewMask, Unregister, Gained, SlotsOk, At, Partition, ToSteal, ToFree, Home;
    GainedKeeps(s, i, mask);
    GainedAt(s, i, mask, c, h);
    var h1 := if c in mask && c < s.size then i else h;
    ReleaseAt(Gained(s, i, mask), i, free, returnStolen, c, h1);
    if c in free {
      GainedHome(s, i, mask, c);
    }
  }

  lemma SetNewMaskPlaces(s: Shared, i: nat, mask: Mask, returnStolen: bool, c: nat)
    requires Settable(s, i) && SetNewMask(s, i, mask, returnStolen).1 == Success
    ensures var t := SetNewMask(s, i, mask, returnStolen).0;
      Placed(t, c) && (c in t.procs[i].future <==> c in mask && c < s.size)
  {
    hide SetNewMask, Receiver;
    var h := PlaceOf(s, c);
    SetNewMaskAt(s, i, mask, returnStolen, c, h);
    if c in s.procs[i].future {
      HomeIsElsewhere(s, i, c);
    }
    if c in mask && c < s.size && c !in s.system {
      SetOutside(s, i, mask, returnStolen, c);
    }
  }

  /** A CPU outside the system cannot be obtained. */
  lemma SetOutside(s: Shared, i: nat, mask: Mask, returnStolen: bool, c: nat)
    requires Settable(s, i) && c in mask && c < s.size && c !in s.system
    ensures SetNewMask(s, i, mask, returnStolen).1 == ErrPerm
  {
    assert SlotOk(s.procs[i], s.system);
    assert Placed(s, c);
    var steal := ToSteal(s, i, mask);
    SetNewMaskCases(s, i, mask, returnStolen);
    StealNeverRollsBack(s, i, steal);
    SlotsAreClean(s);
    hide SetNewMask, Steal, SlotsOk, CleanOk;
    if SetNewMask(s, i, mask, returnStolen).1 != ErrPerm {
      StealAt(s, i, steal, c, OUTSIDE);
    }
  }

  /** All or nothing: if the dry run passes, the process ends with exactly the requested mask and the
      table is sound; otherwise nothing changes at all. */
  lemma SetNewMaskAllOrNothing(s: Shared, i: nat, mask: Mask, returnStolen: bool)
    requires Settable(s, i)
    ensures var (t, code) := SetNewMask(s, i, mask, returnStolen);
      && code == Steal(s, i, ToSteal(s, i, mask), true).1
      && (code == Success || (code == ErrPerm && t == s))
      && (code == Success ==> t.procs[i].future == InRange(mask, s.size))
      && Sound(t) && SameShape(s, t) && SamePids(s.procs, t.procs)
  {
    SetNewMaskCases(s, i, mask, returnStolen);
    StealNeverRollsBack(s, i, ToSteal(s, i, mask));
    hide SetNewMask, Steal, SlotsOk, ToSteal;
    var (t, code) := SetNewMask(s, i, mask, returnStolen);
    if code == Success {
      forall c: nat ensures Placed(t, c) && (c in t.procs[i].future <==> c in mask && c < s.size) {
        SetNewMaskPlaces(s, i, mask, returnStolen, c);
      }
      SetNewMaskSlots(s, i, mask, returnStolen);
      assert Partition(t);
      assert t.procs[i].future == InRange(mask, s.size);
    }
  }

  ghost predicate SamePids(a: seq<Proc>, b: seq<Proc>) {
    |a| == |b| && forall i :: 0 <= i < |a| ==> a[i].pid == b[i].pid
  }

  lemma GainedPids(s: Shared, i: nat, mask: Mask)
    requires i < |s.procs| && s.num <= |s.procs| && Steal(s, i, ToSteal(s, i, mask), false).1 == Success
    ensures SamePids(s.procs, Gained(s, i, mask).procs)
  {
    hide Steal, ToSteal;
    var steal := ToSteal(s, i, mask);
    if steal == {} {
      StealNothing(s, i);
    } else {
      StealEffect(s, i, steal);
    }
  }

  lemma SetNewMaskSlots(s: Shared, i: nat, mask: Mask, returnStolen: bool)
    requires Settable(s, i) && SetNewMask(s, i, mask, returnStolen).1 == Success
    ensures var t := SetNewMask(s, i, mask, returnStolen).0; SlotsOk(t) && SamePids(s.procs, t.procs)
  {
    SetNewMaskCases(s, i, mask, returnStolen);
    StealNeverRollsBack(s, i, ToSteal(s, i, mask));
    hide SetNewMask, Steal, SlotsOk, ToSteal, Unregister, Gained, ToFree;
    GainedKeeps(s, i, mask);
    GainedPids(s, i, mask);
    ReleaseSlots(Gained(s, i, mask), i, ToFree(s, i, mask), returnStolen);
  }

  /** What a successful set_new_mask leaves every other process: its CPUs minus the requested ones, plus,
      in return mode, the released ones whose first loser it is. */
  lemma SetNewMaskOthers(s: Shared, i: nat, mask: Mask, returnStolen: bool, q: nat)
    requires Settable(s, i) && SetNewMask(s, i, mask, returnStolen).1 == Success && q < |s.procs| && q != i
    ensures SetNewMask(s, i, mask, returnStolen).0.procs[q].future ==
      (s.procs[q].future - mask) + (set c | c in s.procs[i].future - mask && returnStolen && Home(s, c) == q)
  {
    hide SetNewMask, Receiver, Home;
    var t := SetNewMask(s, i, mask, returnStolen).0;
    forall c: nat ensures c in t.procs[q].future <==>
      (c in s.procs[q].future && c !in mask) || (c in s.procs[i].future && c !in mask && returnStolen && Home(s, c) == q)
    {
      var h := PlaceOf(s, c);
      SetNewMaskAt(s, i, mask, returnStolen, c, h);
      if c in s.procs[q].future {
        InSystem(s, q, c);
      }
    }
  }

  lemma InSystem(s: Shared, q: nat, c: nat)
    requires Sound(s) && q < |s.procs| && c in s.procs[q].future
    ensures c in s.system && c < s.size
  {
    var h := PlaceOf(s, c);
  }

  // ---------------------------------------------------------------- when stealing succeeds

  ghost predicate HasClean(procs: seq<Proc>, owner: nat, p: nat, k: nat, c: nat) {
    exists q :: p <= q < k && q < |procs| && q != owner && procs[q].pid != NOBODY && !procs[q].dirty && c in procs[q].current
  }

  ghost predicate NoDirtyVictim(procs: seq<Proc>, owner: nat, mask: Mask, p: nat, k: nat) {
    forall q :: p <= q < k && q < |procs| && q != owner && IsVictim(procs[q], mask) ==> !procs[q].dirty
  }

  /** Some prefix of the table has no dirty victim and holds, in clean masks, every CPU still wanted. */
  ghost predicate Coverable(procs: seq<Proc>, num: nat, owner: nat, mask: Mask, p: nat, left: Mask) {
    exists k: nat :: p <= k <= num && NoDirtyVictim(procs, owner, mask, p, k) && HasAllClean(procs, owner, p, k, left)
  }

  ghost predicate HasAllClean(procs: seq<Proc>, owner: nat, p: nat, k: nat, left: Mask) {
    forall c :: c in left ==> HasClean(procs, owner, p, k, c)
  }

  lemma {:induction false} ScanPasses(procs: seq<Proc>, num: nat, owner: nat, mask: Mask, p: nat, left: Mask)
    requires p <= num <= |procs| && left <= mask && left != {}
    ensures var r := StealScan(procs, num, owner, mask, true, p, left);
      (r.code == Success && r.left == {}) <==> Coverable(procs, num, owner, mask, p, left)
    decreases num - p
  {
    if p == num {
      var c :| c in left;
      assert forall k: nat :: HasAllClean(procs, owner, num, k, left) ==> HasClean(procs, owner, num, k, c);
    } else if p == owner || !IsVictim(procs[p], mask) {
      ScanPasses(procs, num, owner, mask, p + 1, left);
      CoverSkips(procs, num, owner, mask, p, left);
    } else if procs[p].dirty {
      var c :| c in left;
      assert forall k: nat :: HasAllClean(procs, owner, p, k, left) ==> HasClean(procs, owner, p, k, c);
      assert forall k: nat :: NoDirtyVictim(procs, owner, mask, p, k) ==> k <= p;
    } else {
      var rest := left - procs[p].current * mask;
      if rest == {} {
        forall c | c in left ensures HasClean(procs, owner, p, p + 1, c) {
          assert c !in rest;
        }
        assert NoDirtyVictim(procs, owner, mask, p, p + 1) && HasAllClean(procs, owner, p, p + 1, left);
      } else {
        ScanPasses(procs, num, owner, mask, p + 1, rest);
        CoverTakes(procs, num, owner, mask, p, left);
      }
    }
  }

  lemma CoverSkips(procs: seq<Proc>, num: nat, owner: nat, mask: Mask, p: nat, left: Mask)
    requires p < num <= |procs| && left <= mask && left != {}
    requires p == owner || !IsVictim(procs[p], mask)
    ensures Coverable(procs, num, owner, mask, p + 1, left) <==> Coverable(procs, num, owner, mask, p, left)
  {
    if Coverable(procs, num, owner, mask, p + 1, left) {
      var k :| p + 1 <= k <= num && NoDirtyVictim(procs, owner, mask, p + 1, k) && HasAllClean(procs, owner, p + 1, k, left);
      assert NoDirtyVictim(procs, owner, mask, p, k) && HasAllClean(procs, owner, p, k, left);
    }
    if Coverable(procs, num, owner, mask, p, left) {
      var k :| p <= k <= num && NoDirtyVictim(procs, owner, mask, p, k) && HasAllClean(procs, owner, p, k, left);
      forall c | c in left ensures p < k && HasClean(procs, owner, p + 1, k, c) {
        assert HasClean(procs, owner, p, k, c);
        assert c in procs[p].current ==> c in procs[p].current * mask;
      }
      var c :| c in left;
      assert p + 1 <= k && NoDirtyVictim(procs, owner, mask, p + 1, k) && HasAllClean(procs, owner, p + 1, k, left);
    }
  }

  lemma CoverTakes(procs: seq<Proc>, num: nat, owner: nat, mask: Mask, p: nat, left: Mask)
    requires p < num <= |procs| && left <= mask && p != owner && IsVictim(procs[p], mask) && !procs[p].dirty
    requires left - procs[p].current * mask != {}
    ensures Coverable(procs, num, owner, mask, p + 1, left - procs[p].current * mask) <==> Coverable(procs, num, owner, mask, p, left)
  {
    var rest := left - procs[p].current * mask;
    if Coverable(procs, num, owner, mask, p + 1, rest) {
      var k :| p + 1 <= k <= num && NoDirtyVictim(procs, owner, mask, p + 1, k) && HasAllClean(procs, owner, p + 1, k, rest);
      assert NoDirtyVictim(procs, owner, mask, p, k);
      forall c | c in left ensures HasClean(procs, owner, p, k, c) {
        assert c in rest ==> HasClean(procs, owner, p + 1, k, c);
      }
      assert HasAllClean(procs, owner, p, k, left);
    }
    if Coverable(procs, num, owner, mask, p, left) {
      var k :| p <= k <= num && NoDirtyVictim(procs, owner, mask, p, k) && HasAllClean(procs, owner, p, k, left);
      forall c | c in rest ensures HasClean(procs, owner, p + 1, k, c) && p < k {
        assert HasClean(procs, owner, p, k, c);
      }
      assert p + 1 <= k && NoDirtyVictim(procs, owner, mask, p + 1, k) && HasAllClean(procs, owner, p + 1, k, rest);
    }
  }

  /** set_new_mask succeeds exactly when the CPUs to steal can be covered before the first dirty victim. */
  lemma SetNewMaskSucceeds(s: Shared, i: nat, mask: Mask, returnStolen: bool)
    requires i < |s.procs| && s.num <= |s.procs| && !s.sharing
    ensures SetNewMask(s, i, mask, returnStolen).1 == Success <==>
      ToSteal(s, i, mask) == {} || Coverable(s.procs, s.num, i, ToSteal(s, i, mask), 0, ToSteal(s, i, mask))
  {
    var steal := ToSteal(s, i, mask);
    SetNewMaskCases(s, i, mask, returnStolen);
    hide SetNewMask, StealScan, Coverable, ToSteal;
    if steal != {} {
      ScanPasses(s.procs, s.num, i, steal, 0, steal);
    }
  }

  /** While no other process has an update pending, any mask inside the system can be set. */
  lemma CleanTableGrants(s: Shared, i: nat, mask: Mask, returnStolen: bool)
    requires Settable(s, i) && TailFree(s)
    requires forall q :: 0 <= q < |s.procs| && q != i ==> !s.procs[q].dirty
    ensures SetNewMask(s, i, mask, returnStolen).1 == Success <==> InRange(mask, s.size) <= s.system
  {
    var steal := ToSteal(s, i, mask);
    if InRange(mask, s.size) <= s.system {
      SetNewMaskSucceeds(s, i, mask, returnStolen);
      hide SetNewMask;
      forall c | c in steal ensures HasClean(s.procs, i, 0, s.num, c) {
        CleanHolder(s, i, mask, c);
      }
      assert NoDirtyVictim(s.procs, i, steal, 0, s.num) && HasAllClean(s.procs, i, 0, s.num, steal);
    } else {
      hide SetNewMask;
      var c :| c in mask && c < s.size && c !in s.system;
      SetOutside(s, i, mask, returnStolen, c);
    }
  }

  lemma CleanHolder(s: Shared, i: nat, mask: Mask, c: nat)
    requires Settable(s, i) && TailFree(s) && c in ToSteal(s, i, mask) && c in s.system
    requires forall q :: 0 <= q < |s.procs| && q != i ==> !s.procs[q].dirty
    ensures HasClean(s.procs, i, 0, s.num, c)
  {
    var h := PlaceOf(s, c);
    assert SlotOk(s.procs[i], s.system) && SlotOk(s.procs[h], s.system);
  }
}
