/** Named barriers: the shared table of slots (src/LB_comm/shmem_barrier.c) and the private pointers of
    each process into it (src/LB_core/node_barrier.c). */
module BarrierSpec {
  import opened Codes

  const NAME_MAX := 32

  /** barrier_t, without the synchronisation objects. */
  datatype Slot = Slot(name: string, live: bool, lewi: bool, participants: nat)

  const FREE := Slot("", false, false, 0)

  datatype Registry = Registry(slots: seq<Slot>, num: nat)

  /** A pointer to a slot. */
  datatype Ptr = Null | To(slot: nat)

  /** A number of participants, or an error code. */
  datatype Reply = Participants(count: nat) | Fail(code: Code) | Overflow

  /** What a name of any length becomes in a slot. */
  function Stored(name: string): string {
    if |name| < NAME_MAX then name else name[..NAME_MAX - 1]
  }

  predicate Matches(s: Slot, name: string) {
    s.live && s.participants > 0 && s.name == Stored(name)
  }

  // ---------------------------------------------------------------- shared table

  /** shmem_barrier__find from slot i on */
  function Find(r: Registry, name: string, i: nat := 0): (p: Ptr)
    requires r.num <= |r.slots|
    ensures p.To? ==> i <= p.slot < r.num && Matches(r.slots[p.slot], name)
    ensures p.Null? ==> forall k :: i <= k < r.num ==> !Matches(r.slots[k], name)
    decreases r.num - i
  {
    if i >= r.num then Null
    else if Matches(r.slots[i], name) then To(i)
    else Find(r, name, i + 1)
  }

  predicate Vacant(s: Slot) {
    s.participants == 0 && !s.live
  }

  /** The search of shmem_barrier__register: the matching slot, if any, and the first vacant one met. */
  function Search(r: Registry, name: string, i: nat, spot: Ptr): (p: (Ptr, Ptr))
    requires r.num <= |r.slots| && (spot.To? ==> spot.slot < r.num && Vacant(r.slots[spot.slot]))
    ensures p.1.To? ==> p.1.slot < r.num && Vacant(r.slots[p.1.slot])
    ensures p.0.To? ==> i <= p.0.slot < r.num && Matches(r.slots[p.0.slot], name)
    ensures p.0.Null? ==> forall k :: i <= k < r.num ==> !Matches(r.slots[k], name)
    ensures p == (Null, Null) ==> forall k :: i <= k < r.num ==> !Vacant(r.slots[k])
    ensures spot.To? ==> p.1.To?
    decreases r.num - i
  {
    if i >= r.num then (Null, spot)
    else if spot.Null? && Vacant(r.slots[i]) then Search(r, name, i + 1, To(i))
    else if Matches(r.slots[i], name) then (To(i), spot)
    else Search(r, name, i + 1, spot)
  }

  /** shmem_barrier__register */
  function Enrol(r: Registry, name: string, lewi: bool): (x: (Registry, Ptr))
    requires r.num <= |r.slots|
    ensures |x.0.slots| == |r.slots| && x.0.num <= |r.slots|
    ensures x.1.To? ==> x.1.slot < |r.slots|
  {
    var (found, spot) := Search(r, name, 0, Null);
    if found.To? then
      var s := r.slots[found.slot];
      (r.(slots := r.slots[found.slot := s.(participants := s.participants + 1)]), found)
    else if spot.To? then
      (r.(slots := r.slots[spot.slot := Slot(Stored(name), true, lewi, 1)]), spot)
    else if r.num < |r.slots| then
      (Registry(r.slots[r.num := Slot(Stored(name), true, lewi, 1)], r.num + 1), To(r.num))
    else (r, Null)
  }

  /** shmem_barrier__attach */
  function Join(r: Registry, k: nat): (x: (Registry, Reply))
    requires k < |r.slots|
    ensures |x.0.slots| == |r.slots| && x.0.num == r.num
  {
    var s := r.slots[k];
    if !s.live || s.participants == 0 then (r, Fail(ErrPerm))
    else (r.(slots := r.slots[k := s.(participants := s.participants + 1)]), Participants(s.participants + 1))
  }

  /** The number of slots in use once trailing unused ones are dropped. */
  function Compacted(slots: seq<Slot>, num: nat): (n: nat)
    requires num <= |slots|
    ensures n <= num && (forall k :: n <= k < num ==> !slots[k].live) && (n > 0 ==> slots[n - 1].live)
  {
    if num > 0 && !slots[num - 1].live then Compacted(slots, num - 1) else num
  }

  /** shmem_barrier__detach */
  function Part(r: Registry, k: nat): (x: (Registry, Reply))
    requires k < |r.slots| && r.num <= |r.slots|
    ensures |x.0.slots| == |r.slots| && x.0.num <= |r.slots|
  {
    var s := r.slots[k];
    if !s.live || s.participants == 0 then (r, Fail(ErrPerm))
    else if s.participants > 1 then
      (r.(slots := r.slots[k := s.(participants := s.participants - 1)]), Participants(s.participants - 1))
    else
      var slots := r.slots[k := FREE];
      (Registry(slots, Compacted(slots, r.num)), Participants(0))
  }

  // ---------------------------------------------------------------- private lists

  /** barrier_info_t of a process, or nothing before node_barrier_init. */
  datatype Info = NoInfo | Info(defaultName: string, default: Ptr, list: seq<Ptr>)

  /** The first position from i on that is NULL or holds p. */
  function Seek(list: seq<Ptr>, p: Ptr, i: nat := 0): (j: nat)
    requires i <= |list|
    ensures i <= j <= |list|
    ensures forall k :: i <= k < j ==> list[k] != Null && list[k] != p
    ensures j < |list| ==> list[j] == Null || list[j] == p
    decreases |list| - i
  {
    if i == |list| || list[i] == Null || list[i] == p then i else Seek(list, p, i + 1)
  }

  datatype System = System(registry: Registry, procs: seq<Info>)

  predicate Fits(s: System, p: nat) {
    p < |s.procs| && s.registry.num <= |s.registry.slots|
  }

  function Put(s: System, p: nat, r: Registry, info: Info): System
    requires p < |s.procs|
  {
    System(r, s.procs[p := info])
  }

  /** node_barrier_init */
  function NodeInit(s: System, p: nat, name: string, lewi: bool): System
    requires Fits(s, p)
  {
    if s.procs[p].Info? then s
    else
      var (r, ptr) := Enrol(s.registry, name, lewi);
      Put(s, p, r, Info(name, ptr, seq(|s.registry.slots|, _ => Null)))
  }

  /** node_barrier_register; Overflow when the private list has no room. */
  function NodeRegister(s: System, p: nat, name: string, lewi: bool): (x: (System, Ptr, Reply))
    requires Fits(s, p)
  {
    var info := s.procs[p];
    if info.NoInfo? then (s, Null, Fail(ErrNoComp))
    else
      var known := if |info.list| > 0 && info.list[0] != Null then Find(s.registry, name) else Null;
      if known.To? && known in info.list then (s, known, Participants(s.registry.slots[known.slot].participants))
      else
        var (r, ptr) := Enrol(s.registry, name, lewi);
        if ptr == Null then (Put(s, p, r, info), Null, Fail(ErrNoMem))
        else
          var i := Seek(info.list, Null);
          if i == |info.list| then (Put(s, p, r, info), ptr, Overflow)
          else (Put(s, p, r, info.(list := info.list[i := ptr])), ptr, Participants(r.slots[ptr.slot].participants))
  }

  /** node_barrier_attach; a null pointer stands for the default barrier. */
  function NodeAttach(s: System, p: nat, b: Ptr, lewi: bool): (x: (System, Reply))
    requires Fits(s, p) && (b.To? ==> b.slot < |s.registry.slots|)
  {
    var info := s.procs[p];
    if info.NoInfo? then (s, Fail(ErrNoComp))
    else if b.Null? then
      if info.default.To? then (s, Fail(ErrPerm))
      else
        var (r, ptr) := Enrol(s.registry, info.defaultName, lewi);
        (Put(s, p, r, info.(default := ptr)), if ptr.To? then Participants(1) else Fail(ErrNoMem))
    else if b == info.default then (s, Fail(ErrPerm))
    else
      var i := Seek(info.list, b);
      if i < |info.list| && info.list[i] == b then (s, Fail(ErrPerm))
      else
        var (r, reply) := Join(s.registry, b.slot);
        if reply.Fail? then (s, reply)
        else if i == |info.list| then (Put(s, p, r, info), Overflow)
        else (Put(s, p, r, info.(list := info.list[i := b])), reply)
  }

  /** memmove of the entries after i, and NULL in the last place. */
  function Shifted(list: seq<Ptr>, i: nat): seq<Ptr>
    requires i < |list|
  {
    seq(|list|, j requires 0 <= j < |list| => if j < i then list[j] else if j + 1 < |list| then list[j + 1] else Null)
  }

  /** node_barrier_detach */
  function NodeDetach(s: System, p: nat, b: Ptr): (x: (System, Reply))
    requires Fits(s, p)
  {
    var info := s.procs[p];
    if info.NoInfo? then (s, Fail(ErrNoComp))
    else if b.Null? || b == info.default then
      if info.default.Null? || info.default.slot >= |s.registry.slots| then (s, Fail(ErrPerm))
      else
        var (r, reply) := Part(s.registry, info.default.slot);
        (Put(s, p, r, if reply.Fail? then info else info.(default := Null)), reply)
    else
      var i := Seek(info.list, b);
      if i == |info.list| || info.list[i] == Null || b.slot >= |s.registry.slots| then (s, Fail(ErrPerm))
      else
        var (r, reply) := Part(s.registry, b.slot);
        (Put(s, p, r, if reply.Fail? then info else info.(list := Shifted(info.list, i))), reply)
  }

  /** shmem_barrier__detach on a pointer that may be null */
  function PartPtr(r: Registry, b: Ptr): (x: Registry)
    requires r.num <= |r.slots|
    ensures |x.slots| == |r.slots| && x.num <= |r.slots|
  {
    if b.To? && b.slot < |r.slots| then Part(r, b.slot).0 else r
  }

  function PartList(r: Registry, list: seq<Ptr>, i: nat): (x: Registry)
    requires r.num <= |r.slots|
    ensures |x.slots| == |r.slots| && x.num <= |r.slots|
    decreases |list| - i
  {
    if i >= |list| then r else PartList(PartPtr(r, list[i]), list, i + 1)
  }

  /** node_barrier_finalize */
  function NodeFinalize(s: System, p: nat): System
    requires Fits(s, p)
  {
    var info := s.procs[p];
    if info.NoInfo? then s
    else Put(s, p, PartList(PartPtr(s.registry, info.default), info.list, 0), NoInfo)
  }
}
