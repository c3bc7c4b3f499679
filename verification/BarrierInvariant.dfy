/** When the slot table and the private lists of named barriers agree, and the effect on them of each change
    (src/LB_comm/shmem_barrier.c, src/LB_core/node_barrier.c). */
module BarrierInvariant {
  import opened Codes
  import opened BarrierSpec

  // ---------------------------------------------------------------- the shared table

  ghost predicate SlotOk(s: Slot) {
    (s.live <==> s.participants > 0) && (!s.live ==> s == FREE)
  }

  /** Slots are in use exactly while they have participants, live names are unique, slots at or past num
      are empty, and the last counted slot is in use. */
  ghost predicate RegistryOk(r: Registry) {
    && r.num <= |r.slots|
    && (forall k :: 0 <= k < |r.slots| ==> SlotOk(r.slots[k]))
    && (forall k :: r.num <= k < |r.slots| ==> !r.slots[k].live)
    && (r.num > 0 ==> r.slots[r.num - 1].live)
    && UniqueNames(r.slots)
  }

  ghost predicate UniqueNames(slots: seq<Slot>) {
    forall i, j :: 0 <= i < |slots| && 0 <= j < |slots| && slots[i].live && slots[j].live && slots[i].name == slots[j].name
      ==> i == j
  }

  /** The table with delta participants more in slot k. */
  ghost predicate Moves(r: Registry, t: Registry, k: nat, delta: int) {
    && k < |r.slots| == |t.slots|
    && t.slots[k].participants == r.slots[k].participants + delta
    && forall i :: 0 <= i < |r.slots| && i != k ==> t.slots[i] == r.slots[i]
  }

  /** Registering a name gives a live slot of that name with one participant more, and fails only when every
      slot is in use under another name. */
  lemma EnrolEffect(r: Registry, name: string, lewi: bool)
    requires RegistryOk(r)
    ensures var (t, p) := Enrol(r, name, lewi);
      && RegistryOk(t)
      && (p.Null? ==> t == r && forall k :: 0 <= k < |r.slots| ==> r.slots[k].live && r.slots[k].name != Stored(name))
      && (p.To? ==> Moves(r, t, p.slot, 1) && t.slots[p.slot].live && t.slots[p.slot].name == Stored(name))
      && (p.To? && r.slots[p.slot].live ==> r.slots[p.slot].name == Stored(name))
  {
    hide Search;
  }

  lemma JoinEffect(r: Registry, k: nat)
    requires RegistryOk(r) && k < |r.slots|
    ensures var (t, reply) := Join(r, k);
      RegistryOk(t) && if r.slots[k].live then Moves(r, t, k, 1) && reply == Participants(t.slots[k].participants)
                       else t == r && reply == Fail(ErrPerm)
  {
  }

  lemma PartEffect(r: Registry, k: nat)
    requires RegistryOk(r) && k < |r.slots|
    ensures var (t, reply) := Part(r, k);
      RegistryOk(t) && if r.slots[k].live then Moves(r, t, k, -1) && reply == Participants(t.slots[k].participants)
                       else t == r && reply == Fail(ErrPerm)
  {
    hide Compacted;
  }

  // ---------------------------------------------------------------- counting users

  /** How many times a process uses slot k: in its list, and as its default barrier. */
  function Uses(info: Info, k: nat): nat {
    if info.NoInfo? then 0
    else (if To(k) in info.list then 1 else 0) + (if info.default == To(k) then 1 else 0)
  }

  function Users(procs: seq<Info>, k: nat, n: nat): nat
    requires n <= |procs|
  {
    if n == 0 then 0 else Users(procs, k, n - 1) + Uses(procs[n - 1], k)
  }

  lemma {:induction false} UsersUpdate(procs: seq<Info>, p: nat, info: Info, k: nat, n: nat)
    requires p < |procs| && n <= |procs|
    ensures Users(procs[p := info], k, n) == Users(procs, k, n) + (if p < n then Uses(info, k) - Uses(procs[p], k) else 0)
  {
    hide Uses;
    if n > 0 {
      UsersUpdate(procs, p, info, k, n - 1);
    }
  }

  lemma {:induction false} UsersCover(procs: seq<Info>, p: nat, k: nat, n: nat)
    requires p < n <= |procs|
    ensures Uses(procs[p], k) <= Users(procs, k, n)
  {
    hide Uses;
    if p < n - 1 {
      UsersCover(procs, p, k, n - 1);
    }
  }

  /** Every slot has as many participants as processes use it. */
  ghost predicate Counted(s: System) {
    forall k :: 0 <= k < |s.registry.slots| ==> s.registry.slots[k].participants == Users(s.procs, k, |s.procs|)
  }

  /** A change of one slot by delta, and of the uses of one process to match. */
  lemma Recount(s: System, p: nat, r: Registry, info: Info, k: nat, delta: int)
    requires Counted(s) && p < |s.procs| && Moves(s.registry, r, k, delta)
    requires forall i :: 0 <= i < |r.slots| ==> Uses(info, i) == Uses(s.procs[p], i) + (if i == k then delta else 0)
    ensures Counted(Put(s, p, r, info))
  {
    hide Users, Uses;
    forall i | 0 <= i < |r.slots| ensures r.slots[i].participants == Users(s.procs[p := info], i, |s.procs|) {
      UsersUpdate(s.procs, p, info, i, |s.procs|);
    }
  }

  lemma SameCount(s: System, p: nat, info: Info)
    requires Counted(s) && p < |s.procs|
    requires forall i :: 0 <= i < |s.registry.slots| ==> Uses(info, i) == Uses(s.procs[p], i)
    ensures Counted(Put(s, p, s.registry, info))
  {
    hide Users, Uses;
    forall i | 0 <= i < |s.registry.slots|
      ensures s.registry.slots[i].participants == Users(s.procs[p := info], i, |s.procs|)
    {
      UsersUpdate(s.procs, p, info, i, |s.procs|);
    }
  }

  // ---------------------------------------------------------------- private lists

  /** Pointers to distinct slots of the table, then only nulls. */
  ghost predicate ListOk(list: seq<Ptr>, max: nat) {
    && |list| == max
    && (forall i, j :: 0 <= i < j < |list| && list[i] == Null ==> list[j] == Null)
    && (forall i, j :: 0 <= i < j < |list| && list[i].To? ==> list[i] != list[j])
    && (forall i :: 0 <= i < |list| && list[i].To? ==> list[i].slot < max)
  }

  ghost predicate InfoOk(info: Info, max: nat) {
    info.Info? ==> ListOk(info.list, max) && (info.default.To? ==> info.default.slot < max)
  }

  ghost predicate Valid(s: System) {
    RegistryOk(s.registry) && Counted(s) && forall p :: 0 <= p < |s.procs| ==> InfoOk(s.procs[p], |s.registry.slots|)
  }

  function Below(n: nat): (r: set<nat>)
    ensures |r| == n && forall k: nat :: k in r <==> k < n
  {
    if n == 0 then {} else Below(n - 1) + {n - 1}
  }

  function SlotsOf(list: seq<Ptr>, n: nat): set<nat>
    requires n <= |list|
  {
    if n == 0 then {} else SlotsOf(list, n - 1) + (if list[n - 1].To? then {list[n - 1].slot} else {})
  }

  lemma {:induction false} SlotIsListed(list: seq<Ptr>, n: nat, k: nat) returns (i: nat)
    requires n <= |list| && k in SlotsOf(list, n)
    ensures i < n && list[i] == To(k)
  {
    if list[n - 1] == To(k) {
      i := n - 1;
    } else {
      i := SlotIsListed(list, n - 1, k);
    }
  }

  lemma {:induction false} DistinctSlots(list: seq<Ptr>, max: nat, n: nat)
    requires ListOk(list, max) && n <= |list| && forall i :: 0 <= i < n ==> list[i].To?
    ensures |SlotsOf(list, n)| == n
  {
    if n > 0 {
      DistinctSlots(list, max, n - 1);
      var k := list[n - 1].slot;
      if k in SlotsOf(list, n - 1) {
        var i := SlotIsListed(list, n - 1, k);
      }
    }
  }

  /** A full list of distinct slots holds every slot of the table. */
  lemma Pigeonhole(list: seq<Ptr>, max: nat, k: nat)
    requires ListOk(list, max) && (forall i :: 0 <= i < |list| ==> list[i].To?) && k < max
    ensures To(k) in list
  {
    DistinctSlots(list, max, max);
    if To(k) !in list {
      forall x | x in SlotsOf(list, max) ensures x in Below(max) - {k} {
        var i := SlotIsListed(list, max, x);
      }
      hide SlotsOf, ListOk;
      SmallerSubset(SlotsOf(list, max), Below(max) - {k});
    }
  }

  /** So a slot that is not in the list always finds room in it. */
  lemma RoomForOne(list: seq<Ptr>, max: nat, p: Ptr, k: nat)
    requires ListOk(list, max) && k < max && To(k) !in list && (p == Null || p == To(k))
    ensures Seek(list, p) < |list| && list[Seek(list, p)] == Null
  {
    hide ListOk;
    var i := Seek(list, p);
    if i == |list| {
      Pigeonhole(list, max, k);
    }
  }

  lemma AddToList(list: seq<Ptr>, max: nat, i: nat, k: nat)
    requires ListOk(list, max) && k < max && To(k) !in list && i < |list| && list[i] == Null
    requires forall j :: 0 <= j < i ==> list[j] != Null
    ensures ListOk(list[i := To(k)], max)
    ensures forall q :: To(q) in list[i := To(k)] <==> q == k || To(q) in list
  {
    var t := list[i := To(k)];
    assert t[i] == To(k);
    forall q | To(q) in list ensures To(q) in t {
      var j :| 0 <= j < |list| && list[j] == To(q);
      assert t[j] == To(q);
    }
  }

  lemma RemoveKeepsOrder(list: seq<Ptr>, max: nat, i: nat)
    requires ListOk(list, max) && i < |list| && list[i].To?
    ensures ListOk(Shifted(list, i), max)
  {
  }

  lemma RemoveFromList(list: seq<Ptr>, max: nat, i: nat, q: nat)
    requires ListOk(list, max) && i < |list| && list[i].To?
    ensures To(q) in Shifted(list, i) <==> To(q) != list[i] && To(q) in list
  {
    var t := Shifted(list, i);
    if To(q) in list && To(q) != list[i] {
      var j :| 0 <= j < |list| && list[j] == To(q);
      assert t[if j < i then j else j - 1] == To(q);
    }
    if To(q) in t {
      var j :| 0 <= j < |t| && t[j] == To(q);
      assert list[if j < i then j else j + 1] == To(q);
    }
  }
}
