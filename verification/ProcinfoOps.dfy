/** What each public DROM operation does to the table and keeps of it (src/LB_comm/shmem_procinfo.c). */
module ProcinfoOps {
  import opened Codes
  import opened ProcinfoSpec
  import opened ProcinfoInvariant
  import opened ProcinfoSetMask

  lemma PlacedAt(s: Shared, c: nat, h: int)
    requires At(s, c, h) && (c in s.system <==> h != OUTSIDE)
    ensures Placed(s, c)
  {
  }

  // ---------------------------------------------------------------- poll, recover, finalize

  lemma CommitKeeps(s: Shared, i: nat)
    requires Valid(s) && i < |s.procs| && s.procs[i].pid != NOBODY
    ensures Valid(s.(procs := s.procs[i := Committed(s.procs[i])]))
  {
    var t := s.(procs := s.procs[i := Committed(s.procs[i])]);
    assert SlotOk(s.procs[i], s.system);
    forall c | c in s.procs[i].future ensures c in s.system {
      InSystem(s, i, c);
    }
    hide SlotOk, Placed;
    forall c: nat ensures Placed(t, c) {
      var h := PlaceOf(s, c);
      PlacedAt(t, c, h);
    }
    CommittedOk(s.procs[i], s.system);
  }

  lemma CommittedOk(p: Proc, system: Mask)
    requires SlotOk(p, system) && p.pid != NOBODY && p.future <= system
    ensures SlotOk(Committed(p), system)
  {
  }

  /** Recovering takes back exactly the lost CPUs that are free. */
  lemma RecoverKeeps(s: Shared, i: nat)
    requires Valid(s) && i < |s.procs|
    ensures var (t, code) := Recover(s, i);
      && Valid(t)
      && (s.procs[i].pid != NOBODY ==>
            t.procs[i].stolen !! t.free && t.procs[i].future == s.procs[i].future + s.procs[i].stolen * s.free)
      && forall q :: 0 <= q < |s.procs| && q != i ==> t.procs[q] == s.procs[q]
  {
    var t := Recover(s, i).0;
    if s.procs[i].pid != NOBODY && s.procs[i].stolen != {} {
      var found := s.procs[i].stolen * s.free;
      var u := Register(s, i, found).0;
      RegisterSlots(s, i, found);
      assert u.procs[i].stolen - found == u.procs[i].stolen;
      assert t == u;
      hide Recover, SlotsOk, Register, Placed;
      forall c: nat ensures Placed(t, c) {
        var h := PlaceOf(s, c);
        RegisterAt(s, i, found, c, h);
        PlacedAt(t, c, if c in found then i else h);
      }
      RegisterTail(s, i, found);
    }
  }

  lemma RegisterTail(s: Shared, i: nat, mask: Mask)
    requires i < |s.procs| && TailFree(s)
    ensures TailFree(Register(s, i, mask).0)
  {
  }

  lemma FinalizeAt(s: Shared, i: nat, returnStolen: bool, c: nat, h: int)
    requires Valid(s) && i < |s.procs| && s.procs[i].pid != NOBODY && At(s, c, h)
    ensures At(Finalize(s, i, returnStolen).0, c, if h != i then h else if returnStolen then Home(s, c) else FREE)
  {
    var p := s.procs[i];
    assert SlotOk(p, s.system);
    var mask := if p.dirty then p.future else p.current;
    assert mask == p.future;
    forall k | k in mask ensures k in s.system {
      InSystem(s, i, k);
    }
    if h == i {
      HomeIsElsewhere(s, i, c);
    }
    hide Unregister, SlotsOk, Home;
    ReleaseAt(s, i, mask, returnStolen, c, h);
  }

  /** Leaving the table frees the CPUs of the process, or gives each one back to its first loser. */
  lemma FinalizeKeeps(s: Shared, i: nat, returnStolen: bool)
    requires Valid(s) && i < |s.procs|
    ensures Valid(Finalize(s, i, returnStolen).0)
    ensures s.procs[i].pid != NOBODY ==> Finalize(s, i, returnStolen).0.procs[i] == EMPTY
  {
    if s.procs[i].pid != NOBODY {
      var p := s.procs[i];
      var mask := if p.dirty then p.future else p.current;
      ReleaseSlots(s, i, mask, returnStolen);
      hide Unregister, Placed, Home;
      var t := Finalize(s, i, returnStolen).0;
      forall c: nat ensures Placed(t, c) {
        var h := PlaceOf(s, c);
        FinalizeAt(s, i, returnStolen, c, h);
        HomeInside(s, c);
        PlacedAt(t, c, if h != i then h else if returnStolen then Home(s, c) else FREE);
      }
    }
  }

  lemma HomeInside(s: Shared, c: nat)
    requires s.num <= |s.procs|
    ensures Home(s, c) != OUTSIDE
  {
  }

  // ---------------------------------------------------------------- registration

  ghost predicate Vacant(s: Shared, p: nat) {
    p < |s.procs| && s.procs[p].pid == NOBODY
  }

  function Seated(s: Shared, p: nat, pid: nat, prereg: bool): Shared
    requires p < |s.procs|
  {
    s.(procs := s.procs[p := EMPTY.(pid := pid, prereg := prereg)])
  }

  lemma SeatKeeps(s: Shared, p: nat, pid: nat, prereg: bool)
    requires Sound(s) && Vacant(s, p)
    ensures Sound(Seated(s, p, pid, prereg))
    ensures forall c: nat, h :: At(s, c, h) ==> At(Seated(s, p, pid, prereg), c, h)
  {
    var t := Seated(s, p, pid, prereg);
    assert SlotOk(s.procs[p], s.system);
    forall c: nat, h | At(s, c, h) ensures At(t, c, h) {
    }
    hide At, SlotOk;
    forall c: nat ensures Placed(t, c) {
      var h := PlaceOf(s, c);
      PlacedAt(t, c, h);
    }
    EmptyOk(pid, prereg, s.system);
  }

  lemma EmptyOk(pid: nat, prereg: bool, system: Mask)
    ensures SlotOk(EMPTY.(pid := pid, prereg := prereg), system)
  {
  }

  /** The slot once its CPUs are registered: both masks are the one given. */
  function Filled(s: Shared, p: nat, mask: Mask): Shared
    requires p < |s.procs|
  {
    s.(procs := s.procs[p := s.procs[p].(dirty := false, current := mask, future := mask)])
  }

  lemma FillKeeps(s: Shared, p: nat, mask: Mask)
    requires Sound(s) && p < |s.procs| && s.procs[p].pid != NOBODY && s.procs[p].future == mask
    ensures Sound(Filled(s, p, mask))
    ensures forall c: nat, h :: At(s, c, h) ==> At(Filled(s, p, mask), c, h)
  {
    var t := Filled(s, p, mask);
    assert SlotOk(s.procs[p], s.system);
    forall c | c in mask ensures c in s.system {
      InSystem(s, p, c);
    }
    forall c: nat, h | At(s, c, h) ensures At(t, c, h) {
    }
    hide At;
    forall c: nat ensures Placed(t, c) {
      var h := PlaceOf(s, c);
      PlacedAt(t, c, h);
    }
  }

  lemma RegisterKeeps(s: Shared, p: nat, mask: Mask)
    requires Sound(s) && p < |s.procs| && s.procs[p].pid != NOBODY
    ensures Sound(Register(s, p, mask).0)
    ensures Register(s, p, mask).1 == (if mask <= s.free then Success else ErrPerm)
    ensures !(mask <= s.free) ==> Register(s, p, mask).0 == s
    ensures mask <= s.free ==> Register(s, p, mask).0.procs[p].future == s.procs[p].future + mask
    ensures SamePids(s.procs, Register(s, p, mask).0.procs)
  {
    RegisterSlots(s, p, mask);
    if mask <= s.free {
      var t := Register(s, p, mask).0;
      forall c: nat ensures Placed(t, c) {
        hide Register;
        var h := PlaceOf(s, c);
        RegisterAt(s, p, mask, c, h);
        PlacedAt(t, c, if c in mask then p else h);
      }
    }
  }

  lemma EmptiedKeeps(s: Shared, p: nat)
    requires Sound(s) && p < |s.procs| && s.procs[p] == EMPTY.(pid := s.procs[p].pid, prereg := s.procs[p].prereg)
    ensures Sound(s.(procs := s.procs[p := s.procs[p].(pid := NOBODY)]))
  {
    var t := s.(procs := s.procs[p := s.procs[p].(pid := NOBODY)]);
    hide At, SlotOk;
    EmptyOk(NOBODY, s.procs[p].prereg, s.system);
    forall c: nat ensures Placed(t, c) {
      var h := PlaceOf(s, c);
      EmptiedAt(s, p, c, h);
      PlacedAt(t, c, h);
    }
  }

  lemma EmptiedAt(s: Shared, p: nat, c: nat, h: int)
    requires p < |s.procs| && At(s, c, h)
    ensures At(s.(procs := s.procs[p := s.procs[p].(pid := NOBODY)]), c, h)
  {
  }

  /** A fresh registration succeeds exactly when its mask is free, and then owns exactly that mask. */
  lemma FreshInitKeeps(s: Shared, e: nat, pid: nat, mask: Mask)
    requires Sound(s) && Vacant(s, e) && pid != NOBODY
    ensures var (t, code) := FreshInit(s, e, pid, mask);
      && Sound(t) && SameShape(s, t)
      && code == (if mask <= s.free then Success else ErrPerm)
      && (code == Success ==> t.procs[e] == Proc(pid, false, false, mask, mask, {}) && t.free == s.free - mask)
      && (code != Success ==> t.free == s.free && t.procs[e] == EMPTY)
      && (forall q :: 0 <= q < |s.procs| && q != e ==> t.procs[q] == s.procs[q])
  {
    hide Sound;
    SeatKeeps(s, e, pid, false);
    SoundIs(s);
    RegisterKeeps(Seated(s, e, pid, false), e, mask);
    if mask <= s.free {
      FillKeeps(Register(Seated(s, e, pid, false), e, mask).0, e, mask);
    } else {
      EmptiedKeeps(Seated(s, e, pid, false), e);
    }
  }

  lemma SoundIs(s: Shared)
    requires Sound(s)
    ensures !s.sharing && s.num <= |s.procs|
  {
  }

  /** Pre-registration never looks past the first slot beyond num. */
  lemma {:induction false} PreinitSlotLow(procs: seq<Proc>, num: nat, pid: nat, p: nat)
    requires p <= num <= |procs| && (num < |procs| ==> procs[num].pid == NOBODY)
    ensures PreinitSlot(procs, pid, p) <= num
    decreases num - p
  {
    if p < num && procs[p].pid != pid && procs[p].pid != NOBODY {
      PreinitSlotLow(procs, num, pid, p + 1);
    }
  }

  lemma ClaimKeeps(s: Shared, p: nat, mask: Mask, steal: bool, returnStolen: bool)
    requires Settable(s, p) && s.procs[p].future == {} && (steal ==> InRange(mask, s.size) == mask)
    ensures var (t, code) := Claim(s, p, mask, steal, returnStolen);
      && Sound(t) && SameShape(s, t) && SamePids(s.procs, t.procs)
      && (code == Success ==> t.procs[p].future == mask)
      && (code != Success ==> t == s)
  {
    hide SetNewMask, Sound;
    SoundIs(s);
    if steal {
      SetNewMaskAllOrNothing(s, p, mask, returnStolen);
    } else {
      RegisterKeeps(s, p, mask);
    }
  }

  lemma PreinitKeeps(s: Shared, pid: nat, mask: Mask, steal: bool, returnStolen: bool)
    requires Valid(s) && pid != NOBODY && (steal ==> InRange(mask, s.size) == mask)
    ensures Valid(Preinit(s, pid, mask, steal, returnStolen).0)
  {
    hide Sound, SetNewMask, Register, PreinitSlot, InRange;
    SoundIs(s);
    var p := PreinitSlot(s.procs, pid);
    PreinitSlotLow(s.procs, s.num, pid, 0);
    if p < |s.procs| && s.procs[p].pid != pid {
      var s1 := Seated(s, p, pid, true);
      SeatKeeps(s, p, pid, true);
      ClaimKeeps(s1, p, mask, steal, returnStolen);
      var (t, code) := Claim(s1, p, mask, steal, returnStolen);
      if code == Success {
        FillKeeps(t, p, mask);
        RaiseNum(Filled(t, p, mask), p);
      } else {
        EmptiedKeeps(t, p);
      }
    }
  }

  lemma RaiseNum(s: Shared, p: nat)
    requires Sound(s) && p <= s.num && p < |s.procs|
    ensures Sound(s.(num := if p == s.num then s.num + 1 else s.num))
  {
    var t := s.(num := if p == s.num then s.num + 1 else s.num);
    forall c: nat ensures Placed(t, c) {
      var h := PlaceOf(s, c);
      assert At(t, c, h);
      PlacedAt(t, c, h);
    }
  }

  // ---------------------------------------------------------------- inheritance

  ghost predicate Inheritable(s: Shared, i: nat, e: nat) {
    && Sound(s) && i < |s.procs| && s.procs[i].pid != NOBODY && i != e
    && e <= |s.procs| && (e < |s.procs| ==> Vacant(s, e))
  }

  /** No CPU that an inheriting process asks for on top is one its slot was robbed of. */
  ghost predicate ExpandsApart(p: Proc, mask: Mask) {
    PreMask(p) < mask && !p.dirty ==> mask - PreMask(p) !! p.stolen
  }

  /** The slot that ends up holding the CPUs given to the new process. */
  lemma InheritAt(s: Shared, i: nat, e: nat, pid: nat, mask: Mask, c: nat, h: int)
    requires Inheritable(s, i, e) && At(s, c, h) && Inherit(s, i, e, pid, mask).1 == Noted
    ensures var (t, _, slot) := Inherit(s, i, e, pid, mask); At(t, c, if c in mask then slot else h)
    ensures c in mask ==> FREE <= h
  {
    assert SlotOk(s.procs[i], s.system);
    assert PreMask(s.procs[i]) == s.procs[i].future;
    assert e < |s.procs| ==> SlotOk(s.procs[e], s.system);
    assert e < |s.procs| ==> s.procs[e].future == {};
    InheritResult(s, i, e, pid, mask);
    hide SlotOk, SlotsOk, Partition, Inherit, PreMask;
  }

  lemma InheritSlots(s: Shared, i: nat, e: nat, pid: nat, mask: Mask)
    requires Inheritable(s, i, e) && pid != NOBODY && mask <= s.system
    ensures SlotsOk(Inherit(s, i, e, pid, mask).0) <==>
      ExpandsApart(s.procs[i], mask) || Inherit(s, i, e, pid, mask).1 != Noted
  {
    assert SlotOk(s.procs[i], s.system);
    assert e < |s.procs| ==> SlotOk(s.procs[e], s.system);
    hide Partition, At, SlotOk;
    var (t, code, slot) := Inherit(s, i, e, pid, mask);
    InheritedOk(s.procs[i], pid, mask, s.system);
    if code == Noted && !ExpandsApart(s.procs[i], mask) {
      assert !SlotOk(t.procs[i], t.system);
    } else if e < |s.procs| {
      NewcomerOk(s.procs[e], pid, mask, s.system);
    }
  }

  lemma NewcomerOk(p: Proc, pid: nat, mask: Mask, system: Mask)
    requires SlotOk(p, system) && p.pid == NOBODY && pid != NOBODY && mask <= system
    ensures SlotOk(p.(pid := pid, prereg := false, current := mask, future := mask), system)
    ensures SlotOk(EMPTY.(pid := pid, current := mask, future := mask), system)
  {
  }

  lemma InheritedOk(p: Proc, pid: nat, mask: Mask, system: Mask)
    requires SlotOk(p, system) && p.pid != NOBODY && pid != NOBODY && mask <= system
    ensures SlotOk(p.(pid := pid, prereg := false), system)
    ensures !p.dirty ==> SlotOk(Shrunk(p, mask), system)
    ensures !p.dirty && p.current < mask ==>
      (SlotOk(p.(pid := pid, prereg := false, current := mask, future := mask), system) <==> mask - p.current !! p.stolen)
  {
    if !p.dirty && p.current < mask {
      assert p.stolen !! mask <==> mask - p.current !! p.stolen;
    }
  }

  /** Every inheritance case hands over exactly the mask asked for, or the inherited one when none is
      given, leaves the rest with the old slot, and keeps the table sound. */
  lemma InheritKeeps(s: Shared, i: nat, e: nat, pid: nat, mask: Mask)
    requires Inheritable(s, i, e) && pid != NOBODY && ExpandsApart(s.procs[i], mask)
    ensures var (t, code, slot) := Inherit(s, i, e, pid, mask);
      && Sound(t) && SameShape(s, t)
      && (code != Noted ==> t == s)
      && (code == Noted ==> slot in {i, e} && slot < |t.procs| && t.procs[slot].pid == pid && !t.procs[slot].prereg)
      && (code == Noted ==> t.procs[slot].future == (if mask == {} then PreMask(s.procs[i]) else mask))
      && (code == Noted && slot != i ==> t.procs[i].pid == s.procs[i].pid && t.procs[i].future == s.procs[i].future - mask)
      && (code == Noted ==> t.free == s.free - (mask - PreMask(s.procs[i])))
      && forall q :: 0 <= q < |s.procs| && q != slot && q != i ==> t.procs[q] == s.procs[q]
  {
    var (t, code, slot) := Inherit(s, i, e, pid, mask);
    assert SlotOk(s.procs[i], s.system);
    if code == Noted {
      forall c: nat ensures Placed(t, c) && (c in mask ==> c in s.system) {
        hide Inherit;
        var h := PlaceOf(s, c);
        InheritAt(s, i, e, pid, mask, c, h);
        PlacedAt(t, c, if c in mask then slot else h);
      }
      InheritSlots(s, i, e, pid, mask);
      assert Partition(t);
    }
    InheritResult(s, i, e, pid, mask);
    hide Inherit, SlotsOk;
  }

  lemma InheritResult(s: Shared, i: nat, e: nat, pid: nat, mask: Mask)
    requires i < |s.procs| && e <= |s.procs| && i != e && !s.sharing && SlotOk(s.procs[i], s.system)
    ensures var (t, code, slot) := Inherit(s, i, e, pid, mask);
      && SameShape(s, t)
      && (code != Noted ==> t == s)
      && (code == Noted ==> slot in {i, e} && slot < |t.procs| && t.procs[slot].pid == pid && !t.procs[slot].prereg)
      && (code == Noted ==> t.procs[slot].future == (if mask == {} then PreMask(s.procs[i]) else mask))
      && (code == Noted && slot != i ==> t.procs[i].pid == s.procs[i].pid && t.procs[i].future == s.procs[i].future - mask)
      && (code == Noted && slot == i ==> mask == {} || PreMask(s.procs[i]) <= mask)
      && (code == Noted ==> t.free == s.free - (mask - PreMask(s.procs[i])) && mask - PreMask(s.procs[i]) <= s.free)
      && forall q :: 0 <= q < |s.procs| && q != slot && q != i ==> t.procs[q] == s.procs[q]
  {
    var had := PreMask(s.procs[i]);
    if mask == {} || mask == had || mask < had {
      assert mask - had == {};
    }
  }
}
