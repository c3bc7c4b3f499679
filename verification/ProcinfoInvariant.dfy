/** Where every CPU of the node is, and how each primitive of the DROM table moves it. */
module ProcinfoInvariant {
  import opened Codes
  import opened ProcinfoSpec

  const FREE: int := -1
  const OUTSIDE: int := -2

  /** CPU c is in exactly one place: the free mask, or the future mask of process h, or nowhere. */
  ghost predicate At(s: Shared, c: nat, h: int) {
    OUTSIDE <= h < |s.procs| && (c in s.free <==> h == FREE) &&
    forall i :: 0 <= i < |s.procs| ==> (c in s.procs[i].future <==> h == i)
  }

  ghost predicate Placed(s: Shared, c: nat) {
    if c in s.system then exists h :: FREE <= h && At(s, c, h) else At(s, c, OUTSIDE)
  }

  /** The free mask and the future masks partition the system CPUs. */
  ghost predicate Partition(s: Shared) {
    forall c: nat :: Placed(s, c)
  }

  ghost predicate SlotOk(p: Proc, system: Mask) {
    && (p.pid == NOBODY ==> p == EMPTY.(prereg := p.prereg))
    && (!p.dirty ==> p.current == p.future)
    && p.stolen !! p.future
    && p.current <= system
  }

  ghost predicate SlotsOk(s: Shared) {
    forall i :: 0 <= i < |s.procs| ==> SlotOk(s.procs[i], s.system)
  }

  /** What stealing relies on: a process without a pending update has equal masks. */
  ghost predicate CleanOk(s: Shared) {
    forall i :: 0 <= i < |s.procs| && !s.procs[i].dirty ==> s.procs[i].current == s.procs[i].future
  }

  lemma SlotsAreClean(s: Shared)
    requires SlotsOk(s)
    ensures CleanOk(s)
  {
    forall i | 0 <= i < |s.procs| && !s.procs[i].dirty ensures s.procs[i].current == s.procs[i].future {
      assert SlotOk(s.procs[i], s.system);
    }
  }

  ghost predicate Bounds(s: Shared) {
    !s.sharing && s.num <= |s.procs| && (forall c :: c in s.system ==> c < s.size)
  }

  ghost predicate TailFree(s: Shared) {
    forall i :: s.num <= i < |s.procs| ==> s.procs[i].pid == NOBODY
  }

  ghost predicate Sound(s: Shared) {
    Bounds(s) && SlotsOk(s) && Partition(s)
  }

  ghost predicate Valid(s: Shared) {
    Sound(s) && TailFree(s)
  }

  /** The place of a CPU of the system. */
  lemma PlaceOf(s: Shared, c: nat) returns (h: int)
    requires Partition(s)
    ensures At(s, c, h) && (c in s.system <==> h != OUTSIDE)
  {
    assert Placed(s, c);
    if c in s.system {
      h :| FREE <= h && At(s, c, h);
    } else {
      h := OUTSIDE;
    }
  }

  // ---------------------------------------------------------------- stealing

  ghost predicate Stolen(before: Proc, after: Proc, mask: Mask) {
    IsVictim(before, mask) && !before.dirty && after == Robbed(before, mask)
  }

  /** Every process from p on is untouched, or a clean victim robbed of its part of the mask. */
  ghost predicate OnlyRobs(before: seq<Proc>, after: seq<Proc>, owner: nat, mask: Mask) {
    |after| == |before| &&
    forall q :: 0 <= q < |before| ==> after[q] == before[q] || (q != owner && Stolen(before[q], after[q], mask))
  }

  ghost predicate RobbedOf(before: seq<Proc>, after: seq<Proc>, owner: nat, mask: Mask, c: nat) {
    exists q :: 0 <= q < |before| && q < |after| && q != owner && Stolen(before[q], after[q], mask) && c in before[q].current
  }

  /** Whatever left the set of CPUs still to steal was taken from a clean victim. */
  lemma {:induction false} ScanRobs(procs: seq<Proc>, num: nat, owner: nat, mask: Mask, p: nat, left: Mask)
    requires p <= num <= |procs|
    ensures var r := StealScan(procs, num, owner, mask, false, p, left);
      OnlyRobs(procs, r.procs, owner, mask) && (forall q :: 0 <= q < p ==> r.procs[q] == procs[q]) &&
      (forall c :: c in left && c !in r.left ==> RobbedOf(procs, r.procs, owner, mask, c))
    decreases num - p
  {
    if p == num {
    } else if p == owner || !IsVictim(procs[p], mask) {
      ScanRobs(procs, num, owner, mask, p + 1, left);
    } else if procs[p].dirty {
    } else {
      var next := procs[p := Robbed(procs[p], mask)];
      var rest := left - procs[p].current * mask;
      var r := StealScan(procs, num, owner, mask, false, p, left);
      if rest != {} {
        ScanRobs(next, num, owner, mask, p + 1, rest);
      }
      assert r.procs[p] == next[p] && Stolen(procs[p], r.procs[p], mask);
      forall c | c in left && c !in r.left
        ensures RobbedOf(procs, r.procs, owner, mask, c)
      {
        if c in procs[p].current {
        } else {
          assert rest != {} && c in rest;
          var q :| 0 <= q < |next| && q < |r.procs| && q != owner && Stolen(next[q], r.procs[q], mask) && c in next[q].current;
          assert q != p ==> next[q] == procs[q];
        }
      }
    }
  }

  /** The dry run takes the same path as the real run. */
  lemma {:induction false} DryRunDecides(dry: seq<Proc>, procs: seq<Proc>, num: nat, owner: nat, mask: Mask,
      p: nat, left: Mask)
    requires p <= num <= |procs| == |dry|
    requires forall q :: p <= q < |procs| ==> dry[q] == procs[q]
    ensures var d, r := StealScan(dry, num, owner, mask, true, p, left), StealScan(procs, num, owner, mask, false, p, left);
      d.code == r.code && d.left == r.left && d.procs == dry
    decreases num - p
  {
    if p == num {
    } else if p == owner || !IsVictim(procs[p], mask) {
      DryRunDecides(dry, procs, num, owner, mask, p + 1, left);
    } else if !procs[p].dirty {
      DryRunDecides(dry, procs[p := Robbed(procs[p], mask)], num, owner, mask, p + 1, left - procs[p].current * mask);
    }
  }

  /** Once the dry run has passed, the real run succeeds: its roll-back loop is never reached. */
  lemma StealNeverRollsBack(s: Shared, owner: nat, mask: Mask)
    requires owner < |s.procs| && s.num <= |s.procs|
    ensures Steal(s, owner, mask, true).1 == Steal(s, owner, mask, false).1
    ensures Steal(s, owner, mask, true).0 == s
  {
    DryRunDecides(s.procs, s.procs, s.num, owner, mask, 0, mask);
  }

  lemma RobbedFutures(before: Proc, after: Proc, mask: Mask, system: Mask)
    requires Stolen(before, after, mask) && SlotOk(before, system)
    ensures SlotOk(after, system) && after.future == before.future - mask
    ensures after.stolen == before.stolen + before.future * mask && after.pid == before.pid && after.current == before.current
  {
  }

  lemma AssignedSlot(p: Proc, mask: Mask, system: Mask)
    requires SlotOk(p, system) && p.pid != NOBODY
    ensures SlotOk(Assigned(p, mask), system)
  {
  }

  lemma StealEffect(s: Shared, owner: nat, mask: Mask)
    requires owner < |s.procs| && s.num <= |s.procs| && mask != {}
    requires Steal(s, owner, mask, false).1 == Success
    ensures var t := Steal(s, owner, mask, false).0;
      && t.free == s.free
      && (forall q :: 0 <= q < |s.procs| && q != owner ==> t.procs[q] == s.procs[q] || Stolen(s.procs[q], t.procs[q], mask))
      && t.procs[owner] == Assigned(s.procs[owner], mask)
      && forall c :: c in mask ==> RobbedOf(s.procs, t.procs, owner, mask, c)
  {
    hide StealScan, Stolen, RobbedOf, Robbed, Assigned;
    ScanRobs(s.procs, s.num, owner, mask, 0, mask);
    var r := StealScan(s.procs, s.num, owner, mask, false, 0, mask);
    var p := Assigned(r.procs[owner], mask);
    var t := Steal(s, owner, mask, false).0;
    StealSucceeds(s, owner, mask);
    forall c | c in mask ensures RobbedOf(s.procs, t.procs, owner, mask, c) {
      RobbedElsewhere(s.procs, r.procs, owner, mask, c, p);
    }
  }

  lemma StealSucceeds(s: Shared, owner: nat, mask: Mask)
    requires owner < |s.procs| && s.num <= |s.procs| && mask != {}
    requires Steal(s, owner, mask, false).1 == Success
    ensures var r := StealScan(s.procs, s.num, owner, mask, false, 0, mask);
      r.left == {} && Steal(s, owner, mask, false).0 == s.(procs := r.procs[owner := Assigned(r.procs[owner], mask)])
  {
    hide StealScan;
  }

  lemma RobbedElsewhere(before: seq<Proc>, after: seq<Proc>, owner: nat, mask: Mask, c: nat, p: Proc)
    requires owner < |before| == |after| && RobbedOf(before, after, owner, mask, c)
    ensures RobbedOf(before, after[owner := p], owner, mask, c)
  {
    hide Stolen;
    var q :| 0 <= q < |before| && q != owner && Stolen(before[q], after[q], mask) && c in before[q].current;
    assert after[owner := p][q] == after[q];
  }

  /** A successful steal moves exactly the mask to the new owner. */
  lemma StealAt(s: Shared, owner: nat, mask: Mask, c: nat, h: int)
    requires owner < |s.procs| && Bounds(s) && CleanOk(s) && At(s, c, h)
    requires Steal(s, owner, mask, false).1 == Success
    ensures At(Steal(s, owner, mask, false).0, c, if c in mask then owner else h)
    ensures c in mask ==> 0 <= h && h != owner
  {
    hide Steal, Stolen, CleanOk, Assigned;
    if mask == {} {
      StealNothing(s, owner);
    } else {
      StealEffect(s, owner, mask);
      var t := Steal(s, owner, mask, false).0;
      if c in mask {
        VictimHadIt(s, t.procs, owner, mask, c, h);
      }
      forall i | 0 <= i < |t.procs| ensures c in t.procs[i].future <==> (if c in mask then owner else h) == i {
        StolenSlot(s, t.procs[i], owner, i, mask, c);
      }
    }
  }

  lemma VictimHadIt(s: Shared, after: seq<Proc>, owner: nat, mask: Mask, c: nat, h: int)
    requires |after| == |s.procs| && CleanOk(s) && At(s, c, h) && RobbedOf(s.procs, after, owner, mask, c)
    requires c in mask
    ensures 0 <= h && h != owner && c !in after[h].future
  {
    hide IsVictim;
    var q :| 0 <= q < |s.procs| && q != owner && Stolen(s.procs[q], after[q], mask) && c in s.procs[q].current;
  }

  lemma StolenSlot(s: Shared, after: Proc, owner: nat, i: nat, mask: Mask, c: nat)
    requires i < |s.procs| && CleanOk(s)
    requires if i == owner then after == Assigned(s.procs[i], mask) else after == s.procs[i] || Stolen(s.procs[i], after, mask)
    ensures c in mask && i == owner ==> c in after.future
    ensures c in mask && i != owner && c in after.future ==> c in s.procs[i].future && after == s.procs[i]
    ensures c !in mask ==> (c in after.future <==> c in s.procs[i].future)
  {
  }

  lemma StealNothing(s: Shared, owner: nat)
    requires owner < |s.procs| && s.num <= |s.procs|
    ensures Steal(s, owner, {}, false) == (s, Success)
  {
  }

  lemma StealSlots(s: Shared, owner: nat, mask: Mask)
    requires owner < |s.procs| && Bounds(s) && SlotsOk(s) && s.procs[owner].pid != NOBODY
    requires Steal(s, owner, mask, false).1 == Success
    ensures SlotsOk(Steal(s, owner, mask, false).0)
  {
    hide Steal;
    if mask == {} {
      StealNothing(s, owner);
    } else {
      StealEffect(s, owner, mask);
      var t := Steal(s, owner, mask, false).0;
      forall i | 0 <= i < |t.procs| ensures SlotOk(t.procs[i], t.system) {
        assert SlotOk(s.procs[i], s.system);
        if i == owner {
          AssignedSlot(s.procs[i], mask, s.system);
        } else if t.procs[i] != s.procs[i] {
          RobbedFutures(s.procs[i], t.procs[i], mask, s.system);
        }
      }
    }
  }

  // ---------------------------------------------------------------- register

  lemma RegisterAt(s: Shared, owner: nat, mask: Mask, c: nat, h: int)
    requires owner < |s.procs| && !s.sharing && At(s, c, h) && mask <= s.free
    ensures At(Register(s, owner, mask).0, c, if c in mask then owner else h)
  {
  }

  lemma RegisterSlots(s: Shared, owner: nat, mask: Mask)
    requires owner < |s.procs| && Bounds(s) && SlotsOk(s) && s.procs[owner].pid != NOBODY
    ensures SlotsOk(Register(s, owner, mask).0)
  {
    AssignedSlot(s.procs[owner], mask, s.system);
  }

  // ---------------------------------------------------------------- unregister

  lemma UnregisterAt(s: Shared, owner: nat, mask: Mask, c: nat, h: int)
    requires owner < |s.procs| && Bounds(s) && At(s, c, h)
    requires c in mask ==> h == owner
    ensures At(Unregister(s, owner, mask, false), c, if c in mask then FREE else h)
  {
  }

  lemma UnregisterSlots(s: Shared, owner: nat, mask: Mask)
    requires owner < |s.procs| && Bounds(s) && SlotsOk(s) && s.procs[owner].pid != NOBODY
    ensures SlotsOk(Unregister(s, owner, mask, false))
  {
    assert SlotOk(s.procs[owner], s.system);
  }

  /** Where a CPU goes in return mode: to the first process that lost it, else to the free mask. */
  function Home(s: Shared, c: nat): int
    requires s.num <= |s.procs|
  {
    var r := Receiver(s.procs, s.num, c);
    if r == s.num then FREE else r
  }

  lemma {:induction false} ReceiverDependsOn(a: seq<Proc>, b: seq<Proc>, num: nat, c: nat, p: nat)
    requires p <= num <= |a| == |b|
    requires forall i :: 0 <= i < num ==> (a[i].pid == NOBODY <==> b[i].pid == NOBODY) && (c in a[i].stolen <==> c in b[i].stolen)
    ensures Receiver(a, num, c, p) == Receiver(b, num, c, p)
    decreases num - p
  {
    if p < num {
      ReceiverDependsOn(a, b, num, c, p + 1);
    }
  }

  /** Where a CPU goes that its holder gives back: nowhere when the holder is itself the first that lost it. */
  function GivenBack(s: Shared, owner: nat, c: nat): int
    requires s.num <= |s.procs|
  {
    if Home(s, c) == owner then OUTSIDE else Home(s, c)
  }

  lemma GiveBackPlaces(s: Shared, owner: nat, k: nat, c: nat, h: int)
    requires owner < |s.procs| && s.num <= |s.procs| && k in s.procs[owner].future && At(s, c, h)
    ensures At(GiveBack(s, owner, k), c, if c == k then GivenBack(s, owner, c) else h)
  {
    var t := GiveBack(s, owner, k);
    forall i | 0 <= i < |t.procs|
      ensures c in t.procs[i].future <==> (if c == k then GivenBack(s, owner, c) else h) == i
    {
    }
  }

  lemma GiveBackSlots(s: Shared, owner: nat, k: nat)
    requires owner < |s.procs| && Bounds(s) && SlotsOk(s) && s.procs[owner].pid != NOBODY
    ensures SlotsOk(GiveBack(s, owner, k))
  {
    var r := Receiver(s.procs, s.num, k);
    assert SlotOk(s.procs[owner], s.system);
    if r < s.num {
      assert SlotOk(s.procs[r], s.system);
    }
  }

  /** Giving back one CPU does not change who lost another. */
  lemma GiveBackHome(s: Shared, owner: nat, k: nat, c: nat)
    requires owner < |s.procs| && s.num <= |s.procs| && c != k
    ensures Home(GiveBack(s, owner, k), c) == Home(s, c)
  {
    ReceiverDependsOn(s.procs, GiveBack(s, owner, k).procs, s.num, c, 0);
  }

  ghost predicate Holds(p: Proc, mask: Mask, from: nat) {
    forall c :: c in mask && from <= c ==> c in p.future
  }

  lemma GiveBackHolds(s: Shared, owner: nat, mask: Mask, k: nat)
    requires owner < |s.procs| && s.num <= |s.procs| && Holds(s.procs[owner], mask, k) && k in mask
    ensures Holds(GiveBack(s, owner, k).procs[owner], mask, k + 1)
  {
  }

  lemma {:induction false} GiveBackFromPlaces(s: Shared, owner: nat, mask: Mask, k: nat, c: nat, h: int)
    requires owner < |s.procs| && s.num <= |s.procs| && Holds(s.procs[owner], mask, k) && At(s, c, h)
    ensures At(GiveBackFrom(s, owner, mask, k), c, if c in mask && k <= c < s.size then GivenBack(s, owner, c) else h)
    decreases s.size - k
  {
    hide At, GiveBack, Home;
    if k < s.size {
      if k in mask {
        GiveBackPlaces(s, owner, k, c, h);
        GiveBackHolds(s, owner, mask, k);
        if c != k {
          GiveBackHome(s, owner, k, c);
        }
        GiveBackFromPlaces(GiveBack(s, owner, k), owner, mask, k + 1, c, if c == k then GivenBack(s, owner, c) else h);
      } else {
        GiveBackFromPlaces(s, owner, mask, k + 1, c, h);
      }
    }
  }

  lemma ReleasePlaces(s: Shared, owner: nat, mask: Mask, returnStolen: bool, c: nat, h: int)
    requires owner < |s.procs| && Bounds(s) && mask <= s.procs[owner].future && mask <= s.system && At(s, c, h)
    ensures At(Unregister(s, owner, mask, returnStolen), c,
               if c !in mask then h else if returnStolen then GivenBack(s, owner, c) else FREE)
  {
    if returnStolen && mask != {} {
      hide At, GiveBackFrom, Home;
      GiveBackFromPlaces(s, owner, mask, 0, c, h);
    } else {
      UnregisterAt(s, owner, mask, c, h);
    }
  }

  lemma GiveBackLive(s: Shared, owner: nat, k: nat)
    requires owner < |s.procs| && s.num <= |s.procs|
    ensures forall i :: 0 <= i < |s.procs| ==> GiveBack(s, owner, k).procs[i].pid == s.procs[i].pid
  {
  }

  lemma {:induction false} GiveBackFromSlots(s: Shared, owner: nat, mask: Mask, k: nat)
    requires owner < |s.procs| && Bounds(s) && SlotsOk(s) && s.procs[owner].pid != NOBODY
    ensures SlotsOk(GiveBackFrom(s, owner, mask, k))
    ensures forall i :: 0 <= i < |s.procs| ==> GiveBackFrom(s, owner, mask, k).procs[i].pid == s.procs[i].pid
    decreases s.size - k
  {
    hide SlotsOk, GiveBack;
    if k < s.size {
      if k in mask {
        GiveBackSlots(s, owner, k);
        GiveBackLive(s, owner, k);
        GiveBackFromSlots(GiveBack(s, owner, k), owner, mask, k + 1);
      } else {
        GiveBackFromSlots(s, owner, mask, k + 1);
      }
    }
  }

  /** A CPU held by a process is not one it was robbed of. */
  lemma HomeIsElsewhere(s: Shared, i: nat, c: nat)
    requires s.num <= |s.procs| && i < |s.procs| && SlotsOk(s) && c in s.procs[i].future
    ensures Home(s, c) != i
  {
    assert SlotOk(s.procs[i], s.system);
  }

  /** Both modes of unregister_mask on CPUs that the owner holds. */
  lemma ReleaseAt(s: Shared, owner: nat, mask: Mask, returnStolen: bool, c: nat, h: int)
    requires owner < |s.procs| && Bounds(s) && SlotsOk(s) && s.procs[owner].pid != NOBODY
    requires mask <= s.procs[owner].future && mask <= s.system && At(s, c, h)
    ensures At(Unregister(s, owner, mask, returnStolen), c,
               if c !in mask then h else if returnStolen then Home(s, c) else FREE)
  {
    hide At, SlotsOk, Unregister, Home;
    ReleasePlaces(s, owner, mask, returnStolen, c, h);
    if c in mask {
      HomeIsElsewhere(s, owner, c);
    }
  }

  lemma ReleaseSlots(s: Shared, owner: nat, mask: Mask, returnStolen: bool)
    requires owner < |s.procs| && Bounds(s) && SlotsOk(s) && s.procs[owner].pid != NOBODY
    ensures SlotsOk(Unregister(s, owner, mask, returnStolen))
    ensures forall i :: 0 <= i < |s.procs| ==> Unregister(s, owner, mask, returnStolen).procs[i].pid == s.procs[i].pid
  {
    if returnStolen && mask != {} {
      GiveBackFromSlots(s, owner, mask, 0);
    } else {
      UnregisterSlots(s, owner, mask);
    }
  }
}
