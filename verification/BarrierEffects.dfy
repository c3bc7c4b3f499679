/** What each named-barrier operation does to the table and to the caller's list, and when it is refused
    (src/LB_comm/shmem_barrier.c, src/LB_core/node_barrier.c). */
module BarrierEffects {
  import opened Codes
  import opened BarrierSpec
  import opened BarrierInvariant
  import opened BarrierRuns

  /** The pointers of a list in their order, without b. */
  function Except(list: seq<Ptr>, b: Ptr): seq<Ptr> {
    if list == [] then []
    else (if list[0] == Null || list[0] == b then [] else [list[0]]) + Except(list[1..], b)
  }

  function Pointers(list: seq<Ptr>): seq<Ptr> {
    Except(list, Null)
  }

  /** Process p has barrier b, or, if b is null, a default barrier. */
  predicate Holds(info: Info, b: Ptr) {
    info.Info? && if b.Null? then info.default.To? else b == info.default || b in info.list
  }

  /** Slot k has one participant more; it keeps its name and flag if it was in use, and is new otherwise. */
  ghost predicate Entered(r: Registry, t: Registry, k: nat, name: string, lewi: bool) {
    && Moves(r, t, k, 1)
    && t.slots[k] == if r.slots[k].live then r.slots[k].(participants := r.slots[k].participants + 1)
                     else Slot(name, true, lewi, 1)
  }

  /** Slot k has one participant less, and is cleared with the last one. */
  ghost predicate Exited(r: Registry, t: Registry, k: nat) {
    && Moves(r, t, k, -1)
    && t.slots[k] == if r.slots[k].participants > 1 then r.slots[k].(participants := r.slots[k].participants - 1) else FREE
  }

  /** No process but p is touched, and p keeps its default name. */
  ghost predicate OnlyOf(s: System, t: System, p: nat) {
    && p < |s.procs| == |t.procs| && (forall q :: 0 <= q < |s.procs| && q != p ==> t.procs[q] == s.procs[q])
    && s.procs[p].Info? && t.procs[p].Info? && t.procs[p].defaultName == s.procs[p].defaultName
  }

  // ---------------------------------------------------------------- lists

  lemma {:induction false} ExceptConcat(a: seq<Ptr>, b: seq<Ptr>, p: Ptr)
    ensures Except(a + b, p) == Except(a, p) + Except(b, p)
  {
    if a == [] {
      assert a + b == b;
    } else {
      assert (a + b)[1..] == a[1..] + b;
      ExceptConcat(a[1..], b, p);
    }
  }

  lemma {:induction false} ExceptAbsent(list: seq<Ptr>, p: Ptr)
    requires p !in list
    ensures Except(list, p) == Pointers(list)
  {
    if list != [] { ExceptAbsent(list[1..], p); }
  }

  lemma {:induction false} NoPointers(list: seq<Ptr>, p: Ptr)
    requires forall j :: 0 <= j < |list| ==> list[j] == Null
    ensures Except(list, p) == []
  {
    if list != [] { NoPointers(list[1..], p); }
  }

  /** Removing entry i of a list of distinct pointers removes that pointer and keeps the order of the others. */
  lemma ShiftedPointers(list: seq<Ptr>, max: nat, i: nat)
    requires ListOk(list, max) && i < |list| && list[i].To?
    ensures Pointers(Shifted(list, i)) == Except(list, list[i]) && list[i] !in Shifted(list, i)
  {
    var b, a, c := list[i], list[..i], list[i + 1..];
    RemoveFromList(list, max, i, b.slot);
    DistinctParts(list, max, i);
    hide ListOk, Except;
    ShiftedParts(list, i);
    JoinedWithout(a, b, c);
  }

  lemma ShiftedParts(list: seq<Ptr>, i: nat)
    requires i < |list|
    ensures Shifted(list, i) == list[..i] + (list[i + 1..] + [Null]) && list == list[..i] + ([list[i]] + list[i + 1..])
  {
  }

  lemma DistinctParts(list: seq<Ptr>, max: nat, i: nat)
    requires ListOk(list, max) && i < |list| && list[i].To?
    ensures list[i] !in list[..i] && list[i] !in list[i + 1..]
  {
  }

  lemma JoinedWithout(a: seq<Ptr>, b: Ptr, c: seq<Ptr>)
    requires b !in a && b !in c
    ensures Pointers(a + (c + [Null])) == Except(a + ([b] + c), b)
  {
    hide Except;
    ExceptConcat(a, [b] + c, b);
    ExceptConcat([b], c, b);
    ExceptConcat(a, c + [Null], Null);
    ExceptConcat(c, [Null], Null);
    ExceptAbsent(a, b);
    ExceptAbsent(c, b);
    ExceptItself(b);
    ExceptItself(Null);
  }

  lemma ExceptItself(b: Ptr)
    ensures Except([b], b) == []
  {
  }

  /** A pointer put in the first free place comes after all others. */
  lemma AppendedPointers(list: seq<Ptr>, max: nat, i: nat, b: Ptr)
    requires ListOk(list, max) && i < |list| && list[i] == Null && b.To?
    ensures Pointers(list[i := b]) == Pointers(list) + [b]
  {
    var a, c := list[..i], list[i + 1..];
    assert list == a + ([Null] + c);
    assert list[i := b] == a + ([b] + c);
    ExceptConcat(a, [Null] + c, Null);
    ExceptConcat([Null], c, Null);
    ExceptConcat(a, [b] + c, Null);
    ExceptConcat([b], c, Null);
    NoPointers(c, Null);
  }

  // ---------------------------------------------------------------- the table

  lemma PartExits(r: Registry, k: nat)
    requires RegistryOk(r) && k < |r.slots| && r.slots[k].live
    ensures Exited(r, Part(r, k).0, k)
  {
    hide Compacted;
  }

  /** Entering a name takes the slot that has it, or else the first one not in use. */
  lemma EnrolPlace(r: Registry, name: string, lewi: bool)
    requires RegistryOk(r) && Enrol(r, name, lewi).1.To?
    ensures var (t, p) := Enrol(r, name, lewi);
      && Entered(r, t, p.slot, Stored(name), lewi)
      && (r.slots[p.slot].live ==> r.slots[p.slot].name == Stored(name))
      && (!r.slots[p.slot].live ==> forall k :: 0 <= k < p.slot ==> r.slots[k].live)
  {
    FirstSpot(r, name, 0, Null);
    hide Search, Stored;
  }

  lemma {:induction false} FirstSpot(r: Registry, name: string, i: nat, spot: Ptr)
    requires RegistryOk(r) && i <= r.num
    requires spot.To? ==> spot.slot < i && Vacant(r.slots[spot.slot])
    requires forall k :: 0 <= k < (if spot.To? then spot.slot else i) ==> r.slots[k].live
    ensures var (found, at) := Search(r, name, i, spot);
      at.To? ==> forall k :: 0 <= k < at.slot ==> r.slots[k].live
    ensures Search(r, name, i, spot) == (Null, Null) ==> forall k :: 0 <= k < r.num ==> r.slots[k].live
    decreases r.num - i
  {
    if i < r.num {
      assert SlotOk(r.slots[i]);
      if spot.Null? && Vacant(r.slots[i]) {
        FirstSpot(r, name, i + 1, To(i));
      } else if !Matches(r.slots[i], name) {
        FirstSpot(r, name, i + 1, spot);
      }
    }
  }

  /** What a slot keeps of a name is the longest prefix that fits with its terminator. */
  lemma StoredFits(name: string)
    ensures Stored(name) <= name && |Stored(name)| + 1 <= NAME_MAX
    ensures Stored(name) == name || |Stored(name)| + 1 == NAME_MAX
  {
  }

  // ---------------------------------------------------------------- detach

  /** A process leaves exactly the barrier it names: one participant less there, and that pointer gone. */
  ghost predicate Detached(s: System, t: System, p: nat, b: Ptr, reply: Reply) {
    && OnlyOf(s, t, p)
    && var info, now := s.procs[p], t.procs[p];
    var usesDefault := b.Null? || b == info.default;
    var gone := if usesDefault then info.default else b;
    && gone.To? && Exited(s.registry, t.registry, gone.slot)
    && reply == Participants(t.registry.slots[gone.slot].participants)
    && now.default == (if usesDefault then Null else info.default)
    && if usesDefault then now.list == info.list else b !in now.list && Pointers(now.list) == Except(info.list, b)
  }

  lemma DetachEffect(s: System, p: nat, b: Ptr)
    requires Valid(s) && p < |s.procs|
    ensures var (t, reply) := NodeDetach(s, p, b);
      && (reply == Fail(ErrNoComp) <==> s.procs[p].NoInfo?)
      && (reply == Fail(ErrPerm) <==> s.procs[p].Info? && !Holds(s.procs[p], b))
      && (reply.Fail? ==> t == s)
      && (reply.Fail? || Detached(s, t, p, b, reply))
  {
    var info := s.procs[p];
    if info.Info? {
      assert InfoOk(info, |s.registry.slots|);
      if b.Null? || b == info.default {
        if info.default.To? {
          LeavesSlot(s, p, info.default);
        }
      } else {
        NotFurtherOn(info.list, |s.registry.slots|, b);
        var i := Seek(info.list, b);
        if b in info.list {
          LeavesSlot(s, p, b);
          ShiftedPointers(info.list, |s.registry.slots|, i);
        }
      }
    }
    hide Valid, Part, Seek, Shifted, Except;
  }

  lemma LeavesSlot(s: System, p: nat, b: Ptr)
    requires Valid(s) && p < |s.procs| && b.To? && b.slot < |s.registry.slots|
    requires s.procs[p].Info? && (s.procs[p].default == b || b in s.procs[p].list)
    ensures var (r, reply) := Part(s.registry, b.slot);
      Exited(s.registry, r, b.slot) && reply == Participants(r.slots[b.slot].participants)
  {
    assert Uses(s.procs[p], b.slot) > 0;
    UsedIsLive(s, p, b.slot);
    PartExits(s.registry, b.slot);
    PartEffect(s.registry, b.slot);
  }

  // ---------------------------------------------------------------- register

  /** The list of p has a barrier of this name. */
  predicate HasNamed(s: System, p: nat, name: string)
    requires p < |s.procs|
  {
    s.procs[p].Info? &&
    exists k :: 0 <= k < |s.registry.slots| && Matches(s.registry.slots[k], name) && To(k) in s.procs[p].list
  }

  /** Every slot is in use under another name. */
  predicate NoSlotFor(r: Registry, name: string) {
    forall k :: 0 <= k < |r.slots| ==> r.slots[k].live && r.slots[k].name != Stored(name)
  }

  /** The barrier b of the given name has the caller as one more participant and comes last in its list. */
  ghost predicate Registered(s: System, t: System, p: nat, b: Ptr, name: string, lewi: bool) {
    && OnlyOf(s, t, p) && b.To? && Entered(s.registry, t.registry, b.slot, Stored(name), lewi)
    && t.registry.slots[b.slot].name == Stored(name)
    && (!s.registry.slots[b.slot].live ==> forall k :: 0 <= k < b.slot ==> s.registry.slots[k].live)
    && t.procs[p].default == s.procs[p].default
    && Pointers(t.procs[p].list) == Pointers(s.procs[p].list) + [b]
  }

  /** Registering a name that the caller has changes nothing; otherwise the caller enters it, unless every slot is
      in use under another name. The answer counts the participants. */
  lemma RegisterEffect(s: System, p: nat, name: string, lewi: bool)
    requires Valid(s) && p < |s.procs|
    ensures var (t, b, reply) := NodeRegister(s, p, name, lewi);
      && (reply == Fail(ErrNoComp) <==> s.procs[p].NoInfo?)
      && (reply == Fail(ErrNoMem) <==> s.procs[p].Info? && NoSlotFor(s.registry, name))
      && (reply.Fail? ==> t == s && b == Null)
      && (reply.Fail? || (b.To? && b.slot < |t.registry.slots| && reply == Participants(t.registry.slots[b.slot].participants)))
      && (HasNamed(s, p, name) ==> t == s && b in s.procs[p].list && Matches(s.registry.slots[b.slot], name))
      && (reply.Fail? || HasNamed(s, p, name) || Registered(s, t, p, b, name, lewi))
  {
    var info := s.procs[p];
    if info.Info? {
      assert InfoOk(info, |s.registry.slots|);
      if HasNamed(s, p, name) {
        KnownIsFound(s, p, name);
      } else {
        EnrolEffect(s.registry, name, lewi);
        var (r, b) := Enrol(s.registry, name, lewi);
        if b.To? {
          RegisterPlace(s, p, name, lewi);
        } else {
          assert s.procs[p := info] == s.procs;
        }
      }
    }
    hide Valid, Enrol, Find, Seek, Except, Matches;
  }

  lemma KnownIsFound(s: System, p: nat, name: string)
    requires Valid(s) && p < |s.procs| && HasNamed(s, p, name)
    ensures var list := s.procs[p].list;
      list[0] != Null && Find(s.registry, name).To? && Find(s.registry, name) in list
  {
    var list := s.procs[p].list;
    assert InfoOk(s.procs[p], |s.registry.slots|);
    var k :| 0 <= k < |s.registry.slots| && Matches(s.registry.slots[k], name) && To(k) in list;
    FindsLive(s.registry, name, k);
    hide Find, Stored;
  }

  lemma RegisterPlace(s: System, p: nat, name: string, lewi: bool)
    requires Valid(s) && p < |s.procs| && s.procs[p].Info? && !HasNamed(s, p, name)
    requires Enrol(s.registry, name, lewi).1.To?
    ensures var (t, b, reply) := NodeRegister(s, p, name, lewi);
      && b.To? && b.slot < |t.registry.slots| && reply == Participants(t.registry.slots[b.slot].participants)
      && Registered(s, t, p, b, name, lewi)
  {
    var info := s.procs[p];
    assert InfoOk(info, |s.registry.slots|);
    EnrolEffect(s.registry, name, lewi);
    EnrolPlace(s.registry, name, lewi);
    var b := Enrol(s.registry, name, lewi).1;
    EnrolledIsNew(s, p, name, lewi);
    RoomForOne(info.list, |s.registry.slots|, Null, b.slot);
    AppendedPointers(info.list, |s.registry.slots|, Seek(info.list, Null), b);
    hide Enrol, Seek, Except, Counted, RegistryOk, Stored;
  }

  // ---------------------------------------------------------------- attach

  /** Attaching is refused for a barrier that the caller has or that nobody uses; otherwise the caller enters it. */
  lemma AttachEffect(s: System, p: nat, b: Ptr, lewi: bool)
    requires Valid(s) && p < |s.procs| && (b.To? ==> b.slot < |s.registry.slots|)
    ensures var (t, reply) := NodeAttach(s, p, b, lewi); var info := s.procs[p];
      && (reply == Fail(ErrNoComp) <==> info.NoInfo?)
      && (reply == Fail(ErrPerm) <==> info.Info? && (Holds(info, b) || (b.To? && !s.registry.slots[b.slot].live)))
      && (reply == Fail(ErrNoMem) <==> info.Info? && b.Null? && info.default.Null? && NoSlotFor(s.registry, info.defaultName))
      && (reply.Fail? ==> t == s)
      && (reply.Fail? || Attached(s, t, p, b, reply, lewi))
  {
    var info := s.procs[p];
    if info.Info? {
      assert InfoOk(info, |s.registry.slots|);
      assert s.procs[p := info] == s.procs;
      if b.Null? {
        EnrolEffect(s.registry, info.defaultName, lewi);
        if Enrol(s.registry, info.defaultName, lewi).1.To? {
          EnrolPlace(s.registry, info.defaultName, lewi);
        }
      } else if b != info.default {
        NotFurtherOn(info.list, |s.registry.slots|, b);
        JoinEffect(s.registry, b.slot);
        if b !in info.list {
          RoomForOne(info.list, |s.registry.slots|, b, b.slot);
          AppendedPointers(info.list, |s.registry.slots|, Seek(info.list, b), b);
        }
      }
    }
    hide Valid, Enrol, Seek, Except, Stored;
  }

  ghost predicate Attached(s: System, t: System, p: nat, b: Ptr, reply: Reply, lewi: bool) {
    && OnlyOf(s, t, p)
    && var info, now := s.procs[p], t.procs[p];
    if b.Null? then
      && now.default.To? && now.list == info.list
      && Entered(s.registry, t.registry, now.default.slot, Stored(info.defaultName), lewi)
      && t.registry.slots[now.default.slot].name == Stored(info.defaultName)
    else
      && Entered(s.registry, t.registry, b.slot, "", lewi) && s.registry.slots[b.slot].live
      && reply == Participants(t.registry.slots[b.slot].participants)
      && now.default == info.default && Pointers(now.list) == Pointers(info.list) + [b]
  }

  // ---------------------------------------------------------------- init and finalize

  /** Initialising enters the barrier of the given name as the default one, with an empty list; doing it twice
      changes nothing. */
  lemma InitEffect(s: System, p: nat, name: string, lewi: bool)
    requires Valid(s) && p < |s.procs|
    ensures var t := NodeInit(s, p, name, lewi);
      && (s.procs[p].Info? ==> t == s)
      && (s.procs[p].NoInfo? ==>
            && |t.procs| == |s.procs| && (forall q :: 0 <= q < |s.procs| && q != p ==> t.procs[q] == s.procs[q])
            && t.procs[p].Info? && t.procs[p].defaultName == name && Pointers(t.procs[p].list) == []
            && var b := t.procs[p].default;
            if NoSlotFor(s.registry, name) then b == Null && t.registry == s.registry
            else b.To? && Entered(s.registry, t.registry, b.slot, Stored(name), lewi)
                 && t.registry.slots[b.slot].name == Stored(name))
  {
    if s.procs[p].NoInfo? {
      EnrolEffect(s.registry, name, lewi);
      if Enrol(s.registry, name, lewi).1.To? {
        EnrolPlace(s.registry, name, lewi);
      }
      NoPointers(seq(|s.registry.slots|, _ => Null), Null);
    }
    hide Valid, Enrol, Except, Stored;
  }

  /** Slots only lose participants, and keep the rest while they have any. */
  ghost predicate Thinned(r: Registry, t: Registry) {
    && |t.slots| == |r.slots|
    && forall k :: 0 <= k < |r.slots| ==>
         t.slots[k] == FREE || t.slots[k] == r.slots[k].(participants := t.slots[k].participants)
  }

  lemma {:induction false} PartListThins(r: Registry, list: seq<Ptr>, i: nat)
    requires RegistryOk(r) && i <= |list|
    ensures RegistryOk(PartList(r, list, i)) && Thinned(r, PartList(r, list, i))
    decreases |list| - i
  {
    if i < |list| {
      PartPtrThins(r, list[i]);
      hide PartPtr, RegistryOk;
      PartListThins(PartPtr(r, list[i]), list, i + 1);
    }
  }

  lemma PartPtrThins(r: Registry, b: Ptr)
    requires RegistryOk(r)
    ensures RegistryOk(PartPtr(r, b)) && Thinned(r, PartPtr(r, b))
  {
    if b.To? && b.slot < |r.slots| {
      PartEffect(r, b.slot);
      if r.slots[b.slot].live {
        PartExits(r, b.slot);
      }
      hide Part;
    }
  }

  /** A process that finalizes leaves every barrier as often as it uses it, and changes nothing else. */
  lemma FinalizeEffect(s: System, p: nat)
    requires Valid(s) && p < |s.procs| && s.procs[p].Info?
    ensures var t := NodeFinalize(s, p);
      && t.procs == s.procs[p := NoInfo] && Thinned(s.registry, t.registry)
      && forall k :: 0 <= k < |s.registry.slots| ==>
           t.registry.slots[k].participants == s.registry.slots[k].participants - Uses(s.procs[p], k)
  {
    FinalizeKeeps(s, p);
    var info := s.procs[p];
    PartPtrThins(s.registry, info.default);
    PartListThins(PartPtr(s.registry, info.default), info.list, 0);
    var t := NodeFinalize(s, p);
    assert Counted(t);
    hide PartList, PartPtr, RegistryOk, Users, Uses;
    forall k | 0 <= k < |s.registry.slots|
      ensures t.registry.slots[k].participants == s.registry.slots[k].participants - Uses(info, k)
    {
      UsersUpdate(s.procs, p, NoInfo, k, |s.procs|);
      NoUses(k);
    }
  }

  lemma NoUses(k: nat)
    ensures Uses(NoInfo, k) == 0
  {
  }
}
