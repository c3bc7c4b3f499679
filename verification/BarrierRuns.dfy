/** Every crash-free run of the named-barrier operations keeps the reference counts, the names and the private
    lists right (src/LB_comm/shmem_barrier.c, src/LB_core/node_barrier.c). */
module BarrierRuns {
  import opened Codes
  import opened BarrierSpec
  import opened BarrierInvariant

  /** A slot used by a process is live. */
  lemma UsedIsLive(s: System, p: nat, k: nat)
    requires Valid(s) && p < |s.procs| && k < |s.registry.slots| && Uses(s.procs[p], k) > 0
    ensures s.registry.slots[k].live
  {
    hide Users, Uses;
    UsersCover(s.procs, p, k, |s.procs|);
    assert SlotOk(s.registry.slots[k]);
  }

  lemma PutOk(s: System, p: nat, r: Registry, info: Info)
    requires Valid(s) && p < |s.procs| && RegistryOk(r) && |r.slots| == |s.registry.slots|
    requires InfoOk(info, |r.slots|) && Counted(Put(s, p, r, info))
    ensures Valid(Put(s, p, r, info))
  {
    hide RegistryOk, Counted, InfoOk;
  }

  // ---------------------------------------------------------------- init

  lemma InitKeeps(s: System, p: nat, name: string, lewi: bool)
    requires Valid(s) && p < |s.procs|
    ensures Valid(NodeInit(s, p, name, lewi))
  {
    if s.procs[p].NoInfo? {
      EnrolEffect(s.registry, name, lewi);
      var (r, ptr) := Enrol(s.registry, name, lewi);
      var info := Info(name, ptr, seq(|s.registry.slots|, _ => Null));
      assert forall k :: To(k) !in info.list;
      hide Enrol, RegistryOk, Counted;
      if ptr.To? {
        Recount(s, p, r, info, ptr.slot, 1);
      } else {
        SameCount(s, p, info);
      }
      PutOk(s, p, r, info);
    }
  }

  // ---------------------------------------------------------------- register

  /** The slot that registering a name gives is not in a list in which the name was not found. */
  lemma EnrolledIsNew(s: System, p: nat, name: string, lewi: bool)
    requires Valid(s) && p < |s.procs| && s.procs[p].Info? && Enrol(s.registry, name, lewi).1.To?
    requires var list := s.procs[p].list;
      (|list| > 0 && list[0] == Null) || (Find(s.registry, name).To? ==> Find(s.registry, name) !in list)
    ensures Enrol(s.registry, name, lewi).1 !in s.procs[p].list
  {
    var k := Enrol(s.registry, name, lewi).1.slot;
    var list := s.procs[p].list;
    assert InfoOk(s.procs[p], |s.registry.slots|);
    EnrolEffect(s.registry, name, lewi);
    hide Enrol;
    if To(k) in list {
      assert Uses(s.procs[p], k) > 0;
      UsedIsLive(s, p, k);
    }
  }

  lemma RegisterKeeps(s: System, p: nat, name: string, lewi: bool)
    requires Valid(s) && p < |s.procs|
    ensures var (t, ptr, reply) := NodeRegister(s, p, name, lewi); Valid(t) && reply != Overflow
    ensures var (t, ptr, reply) := NodeRegister(s, p, name, lewi);
      ptr.To? ==> ptr.slot < |t.registry.slots| && t.registry.slots[ptr.slot].live
                  && t.registry.slots[ptr.slot].name == Stored(name) && ptr in t.procs[p].list
  {
    hide Enrol, Find, Seek, RegistryOk, Counted, InfoOk;
    RegistryFits(s);
    var info := s.procs[p];
    if info.Info? {
      var known := if |info.list| > 0 && info.list[0] != Null then Find(s.registry, name) else Null;
      var (r, ptr) := Enrol(s.registry, name, lewi);
      EnrolEffect(s.registry, name, lewi);
      if !(known.To? && known in info.list) {
        if ptr.To? {
          ListLength(s, p);
          EnrolledIsNew(s, p, name, lewi);
          RegisterNew(s, p, r, ptr.slot);
        } else {
          assert Put(s, p, r, info) == s by { assert s.procs[p := info] == s.procs; }
        }
      }
    }
  }

  lemma RegistryFits(s: System)
    requires Valid(s)
    ensures s.registry.num <= |s.registry.slots|
  {
  }

  lemma ListLength(s: System, p: nat)
    requires Valid(s) && p < |s.procs| && s.procs[p].Info?
    ensures |s.procs[p].list| == |s.registry.slots|
  {
    assert InfoOk(s.procs[p], |s.registry.slots|);
  }

  lemma RegisterNew(s: System, p: nat, r: Registry, k: nat)
    requires Valid(s) && p < |s.procs| && s.procs[p].Info? && RegistryOk(r) && Moves(s.registry, r, k, 1)
    requires To(k) !in s.procs[p].list
    ensures var info := s.procs[p]; var i := Seek(info.list, Null);
      i < |info.list| && Valid(Put(s, p, r, info.(list := info.list[i := To(k)]))) && To(k) in info.list[i := To(k)]
  {
    var info := s.procs[p];
    assert InfoOk(info, |s.registry.slots|);
    RoomForOne(info.list, |s.registry.slots|, Null, k);
    var i := Seek(info.list, Null);
    Enlist(s, p, r, k, i);
  }

  /** One participant more, and one pointer more in the first free place of the list. */
  lemma Enlist(s: System, p: nat, r: Registry, k: nat, i: nat)
    requires Valid(s) && p < |s.procs| && s.procs[p].Info? && RegistryOk(r) && Moves(s.registry, r, k, 1)
    requires To(k) !in s.procs[p].list && i < |s.procs[p].list| && s.procs[p].list[i] == Null
    requires forall j :: 0 <= j < i ==> s.procs[p].list[j] != Null
    ensures var info := s.procs[p];
      Valid(Put(s, p, r, info.(list := info.list[i := To(k)]))) && To(k) in info.list[i := To(k)]
  {
    var info := s.procs[p];
    assert InfoOk(info, |s.registry.slots|);
    AddToList(info.list, |s.registry.slots|, i, k);
    var info1 := info.(list := info.list[i := To(k)]);
    hide ListOk, RegistryOk, Users;
    Recount(s, p, r, info1, k, 1);
    PutOk(s, p, r, info1);
  }

  // ---------------------------------------------------------------- attach

  /** Attaching never runs past the end of the private list. */
  lemma AttachKeeps(s: System, p: nat, b: Ptr, lewi: bool)
    requires Valid(s) && p < |s.procs| && (b.To? ==> b.slot < |s.registry.slots|)
    ensures var (t, reply) := NodeAttach(s, p, b, lewi); Valid(t) && reply != Overflow
  {
    var info := s.procs[p];
    if info.Info? {
      assert InfoOk(info, |s.registry.slots|);
      if b.Null? {
        if info.default.Null? {
          EnrolEffect(s.registry, info.defaultName, lewi);
          hide Enrol, RegistryOk, Users;
          var (r, ptr) := Enrol(s.registry, info.defaultName, lewi);
          if ptr.To? {
            Recount(s, p, r, info.(default := ptr), ptr.slot, 1);
          } else {
            SameCount(s, p, info.(default := ptr));
          }
          PutOk(s, p, r, info.(default := ptr));
        }
      } else if b != info.default {
        AttachNew(s, p, b);
        hide Valid, Join, Seek;
      }
    }
  }

  lemma AttachNew(s: System, p: nat, b: Ptr)
    requires Valid(s) && p < |s.procs| && s.procs[p].Info? && b.To? && b.slot < |s.registry.slots|
    ensures var list := s.procs[p].list; var i := Seek(list, b); var (r, reply) := Join(s.registry, b.slot);
      (i < |list| && list[i] == b) || reply.Fail? ||
      (i < |list| && reply.Participants? && Valid(Put(s, p, r, s.procs[p].(list := list[i := b]))))
  {
    var list := s.procs[p].list;
    var i := Seek(list, b);
    JoinEffect(s.registry, b.slot);
    assert InfoOk(s.procs[p], |s.registry.slots|);
    hide RegistryOk, Counted;
    if !(i < |list| && list[i] == b) && s.registry.slots[b.slot].live {
      NotFurtherOn(list, |s.registry.slots|, b);
      RoomForOne(list, |s.registry.slots|, b, b.slot);
      Enlist(s, p, Join(s.registry, b.slot).0, b.slot, i);
    }
  }

  /** What attaching the default barrier answers. It succeeds unless every slot is in use under another name, and
      then says 1, which is the number of participants if and only if no slot held that barrier before. */
  lemma AttachDefaultReply(s: System, p: nat, lewi: bool)
    requires Valid(s) && p < |s.procs| && s.procs[p].Info? && s.procs[p].default.Null?
    ensures var name := s.procs[p].defaultName;
      var (t, reply) := NodeAttach(s, p, Null, lewi);
      && p < |t.procs| && t.procs[p].Info?
      && (reply == Fail(ErrNoMem) <==>
            forall k :: 0 <= k < |s.registry.slots| ==> s.registry.slots[k].live && s.registry.slots[k].name != Stored(name))
      && (reply != Fail(ErrNoMem) ==>
            && reply == Participants(1) && t.procs[p].default.To? && t.procs[p].default.slot < |t.registry.slots|
            && (reply == Participants(t.registry.slots[t.procs[p].default.slot].participants) <==>
                  forall k :: 0 <= k < |s.registry.slots| ==> !Matches(s.registry.slots[k], name)))
  {
    var name := s.procs[p].defaultName;
    EnrolEffect(s.registry, name, lewi);
    var (r, ptr) := Enrol(s.registry, name, lewi);
    hide Enrol, Counted, Stored;
    if ptr.To? {
      assert SlotOk(s.registry.slots[ptr.slot]);
      forall k | 0 <= k < |s.registry.slots| && Matches(s.registry.slots[k], name) ensures k == ptr.slot {
        assert r.slots[k].live && r.slots[k].name == Stored(name);
      }
    }
  }

  /** A search that stops at a null pointer, or at the end, proves that the pointer is not in the list. */
  lemma NotFurtherOn(list: seq<Ptr>, max: nat, b: Ptr)
    requires ListOk(list, max) && b.To?
    ensures var i := Seek(list, b); !(i < |list| && list[i] == b) ==> b !in list
  {
    hide Seek;
  }

  // ---------------------------------------------------------------- detach and finalize

  lemma DetachKeeps(s: System, p: nat, b: Ptr)
    requires Valid(s) && p < |s.procs|
    ensures Valid(NodeDetach(s, p, b).0)
  {
    var info := s.procs[p];
    if info.Info? {
      assert InfoOk(info, |s.registry.slots|);
      if b.Null? || b == info.default {
        if info.default.To? && info.default.slot < |s.registry.slots| {
          DetachDefault(s, p);
          hide Valid, Part;
        }
      } else {
        var i := Seek(info.list, b);
        if i < |info.list| && info.list[i] != Null && b.slot < |s.registry.slots| {
          DetachListed(s, p, i);
          hide Valid, Part;
        }
      }
    }
  }

  lemma DetachDefault(s: System, p: nat)
    requires Valid(s) && p < |s.procs| && s.procs[p].Info? && s.procs[p].default.To?
    requires s.procs[p].default.slot < |s.registry.slots|
    ensures var (r, reply) := Part(s.registry, s.procs[p].default.slot);
      reply.Participants? && Valid(Put(s, p, r, s.procs[p].(default := Null)))
  {
    var info := s.procs[p];
    var k := info.default.slot;
    assert Uses(info, k) > 0 && InfoOk(info, |s.registry.slots|);
    UsedIsLive(s, p, k);
    PartEffect(s.registry, k);
    hide Part, RegistryOk, Users;
    Recount(s, p, Part(s.registry, k).0, info.(default := Null), k, -1);
    PutOk(s, p, Part(s.registry, k).0, info.(default := Null));
  }

  lemma DetachListed(s: System, p: nat, i: nat)
    requires Valid(s) && p < |s.procs| && s.procs[p].Info? && i < |s.procs[p].list| && s.procs[p].list[i].To?
    ensures var k := s.procs[p].list[i].slot;
      && k < |s.registry.slots|
      && var (r, reply) := Part(s.registry, k);
      && reply.Participants? && Valid(Put(s, p, r, s.procs[p].(list := Shifted(s.procs[p].list, i))))
  {
    var info := s.procs[p];
    assert InfoOk(info, |s.registry.slots|);
    var k := info.list[i].slot;
    assert To(k) in info.list;
    UsedIsLive(s, p, k);
    PartEffect(s.registry, k);
    var info1 := info.(list := Shifted(info.list, i));
    RemoveKeepsOrder(info.list, |s.registry.slots|, i);
    forall q ensures To(q) in info1.list <==> q != k && To(q) in info.list {
      RemoveFromList(info.list, |s.registry.slots|, i, q);
    }
    hide Part, RegistryOk, Users, Shifted, ListOk;
    Recount(s, p, Part(s.registry, k).0, info1, k, -1);
    PutOk(s, p, Part(s.registry, k).0, info1);
  }

  lemma {:induction false} PartNothing(r: Registry, list: seq<Ptr>, i: nat)
    requires r.num <= |r.slots| && forall j :: 0 <= j < |list| ==> list[j] == Null
    ensures PartList(r, list, i) == r
    decreases |list| - i
  {
    if i < |list| {
      PartNothing(r, list, i + 1);
    }
  }

  lemma {:induction false} PartShifted(r: Registry, list: seq<Ptr>, i: nat)
    requires r.num <= |r.slots| && i < |list|
    ensures PartList(r, list, i + 1) == PartList(r, Shifted(list, 0), i)
    decreases |list| - i
  {
    var t := Shifted(list, 0);
    hide PartPtr;
    if i + 1 < |list| {
      assert t[i] == list[i + 1];
      PartShifted(PartPtr(r, list[i + 1]), list, i + 1);
    } else {
      assert t[i] == Null;
      PartNull(r);
      assert PartList(r, t, i + 1) == r;
    }
  }

  lemma PartNull(r: Registry)
    requires r.num <= |r.slots|
    ensures PartPtr(r, Null) == r
  {
  }

  /** Leaving every barrier of the list, front first. */
  lemma {:induction false} LeaveListed(s: System, p: nat, n: nat)
    requires Valid(s) && p < |s.procs| && s.procs[p].Info? && s.procs[p].default == Null
    requires forall i :: n <= i < |s.procs[p].list| ==> s.procs[p].list[i] == Null
    ensures s.registry.num <= |s.registry.slots|
    ensures Valid(Put(s, p, PartList(s.registry, s.procs[p].list, 0), NoInfo))
    decreases n
  {
    RegistryFits(s);
    var info := s.procs[p];
    var list := info.list;
    assert InfoOk(info, |s.registry.slots|);
    if n == 0 || |list| == 0 || list[0] == Null {
      PartNothing(s.registry, list, 0);
      hide PartList, RegistryOk, Counted;
      SameCount(s, p, NoInfo);
      PutOk(s, p, s.registry, NoInfo);
    } else {
      DetachListed(s, p, 0);
      var r := Part(s.registry, list[0].slot).0;
      var t := Put(s, p, r, info.(list := Shifted(list, 0)));
      PartShifted(r, list, 0);
      hide Part, Valid;
      LeaveListed(t, p, n - 1);
      assert t.procs[p := NoInfo] == s.procs[p := NoInfo];
    }
  }

  lemma FinalizeKeeps(s: System, p: nat)
    requires Valid(s) && p < |s.procs|
    ensures Valid(NodeFinalize(s, p))
  {
    var info := s.procs[p];
    if info.Info? {
      assert InfoOk(info, |s.registry.slots|);
      var r := PartPtr(s.registry, info.default);
      var t := Put(s, p, r, info.(default := Null));
      if info.default.To? {
        DetachDefault(s, p);
      } else {
        assert t == s by { assert s.procs[p := info] == s.procs; }
      }
      hide Part, Valid, PartList;
      LeaveListed(t, p, |info.list|);
      assert t.procs[p := NoInfo] == s.procs[p := NoInfo];
    }
  }

  // ---------------------------------------------------------------- runs

  datatype Step =
    | Init(p: nat, name: string, lewi: bool)
    | Register(p: nat, name: string, lewi: bool)
    | Attach(p: nat, b: Ptr, lewi: bool)
    | Detach(p: nat, b: Ptr)
    | Finalize(p: nat)

  /** Processes and pointers that do not exist change nothing. */
  function Apply(s: System, step: Step): System {
    if !Fits(s, step.p) then s
    else
      match step
      case Init(p, name, lewi) => NodeInit(s, p, name, lewi)
      case Register(p, name, lewi) => NodeRegister(s, p, name, lewi).0
      case Attach(p, b, lewi) =>
        if b.To? && b.slot >= |s.registry.slots| then s else NodeAttach(s, p, b, lewi).0
      case Detach(p, b) => NodeDetach(s, p, b).0
      case Finalize(p) => NodeFinalize(s, p)
  }

  function Run(s: System, steps: seq<Step>): System
    decreases |steps|
  {
    if steps == [] then s else Run(Apply(s, steps[0]), steps[1..])
  }

  function Start(max: nat, processes: nat): System {
    System(Registry(seq(max, _ => FREE), 0), seq(processes, _ => NoInfo))
  }

  lemma {:induction false} NobodyUses(procs: seq<Info>, k: nat, n: nat)
    requires n <= |procs| && forall p :: 0 <= p < n ==> procs[p].NoInfo?
    ensures Users(procs, k, n) == 0
  {
    if n > 0 {
      NobodyUses(procs, k, n - 1);
    }
  }

  lemma StartIsValid(max: nat, processes: nat)
    ensures Valid(Start(max, processes))
  {
    var s := Start(max, processes);
    forall k | 0 <= k < max ensures s.registry.slots[k].participants == Users(s.procs, k, processes) {
      NobodyUses(s.procs, k, processes);
    }
    hide Users;
  }

  lemma StepKeeps(s: System, step: Step)
    requires Valid(s)
    ensures Valid(Apply(s, step))
  {
    hide Valid, NodeInit, NodeRegister, NodeAttach, NodeDetach, NodeFinalize;
    if Fits(s, step.p) {
      match step
      case Init(p, name, lewi) => InitKeeps(s, p, name, lewi);
      case Register(p, name, lewi) => RegisterKeeps(s, p, name, lewi);
      case Attach(p, b, lewi) =>
        if b.Null? || b.slot < |s.registry.slots| {
          AttachKeeps(s, p, b, lewi);
        }
      case Detach(p, b) => DetachKeeps(s, p, b);
      case Finalize(p) => FinalizeKeeps(s, p);
    }
  }

  /** In every crash-free run the participants of a slot are the processes that use it, live names are unique,
      unused slots are empty and every private list is a gap-free prefix of distinct pointers. */
  lemma {:induction false} RunKeeps(s: System, steps: seq<Step>)
    requires Valid(s)
    ensures Valid(Run(s, steps))
    decreases |steps|
  {
    hide Valid, Apply;
    if steps != [] {
      StepKeeps(s, steps[0]);
      RunKeeps(Apply(s, steps[0]), steps[1..]);
    }
  }

  lemma ReachableIsValid(max: nat, processes: nat, steps: seq<Step>)
    ensures Valid(Run(Start(max, processes), steps))
  {
    StartIsValid(max, processes);
    RunKeeps(Start(max, processes), steps);
  }

  lemma RunStep(s: System, step: Step, rest: seq<Step>)
    ensures Run(s, [step] + rest) == Run(Apply(s, step), rest)
  {
    hide Apply;
    assert ([step] + rest)[1..] == rest;
  }

  /** Two processes share the default barrier; one detaches from it and attaches again: it is told 1 participant
      and there are 2. */
  lemma AttachMiscounts()
    ensures var s := Run(Start(1, 2), [Init(0, "default", false), Init(1, "default", false), Detach(1, Null)]);
      && Fits(s, 1)
      && NodeAttach(s, 1, Null, false).1 == Participants(1)
      && NodeAttach(s, 1, Null, false).0.registry.slots == [Slot("default", true, false, 2)]
  {
    var a, b, c := Init(0, "default", false), Init(1, "default", false), Detach(1, Null);
    var s0 := Start(1, 2);
    assert s0.registry.slots == [FREE] && s0.procs == [NoInfo, NoInfo];
    var mine := Info("default", To(0), [Null]);
    var s1 := Apply(s0, a);
    assert s1.procs[0].list == [Null];
    assert s1.registry == Registry([Slot("default", true, false, 1)], 1) && s1.procs == [mine, NoInfo];
    var s2 := Apply(s1, b);
    assert s2.procs[1].list == [Null];
    assert s2.registry == Registry([Slot("default", true, false, 2)], 1) && s2.procs == [mine, mine];
    var s3 := Apply(s2, c);
    assert s3.registry == Registry([Slot("default", true, false, 1)], 1) && s3.procs == [mine, mine.(default := Null)];
    hide Apply;
    assert [a, b, c] == [a] + ([b] + ([c] + []));
    RunStep(s0, a, [b] + ([c] + []));
    RunStep(s1, b, [c] + []);
    RunStep(s2, c, []);
  }

  /** When every process has finalized, the shared table is as it was created. */
  lemma AllGone(s: System)
    requires Valid(s) && forall p :: 0 <= p < |s.procs| ==> s.procs[p].NoInfo?
    ensures s.registry == Registry(seq(|s.registry.slots|, _ => FREE), 0)
  {
    forall k | 0 <= k < |s.registry.slots| ensures s.registry.slots[k] == FREE {
      NobodyUses(s.procs, k, |s.procs|);
      assert SlotOk(s.registry.slots[k]);
    }
    hide Users;
  }

  /** Two processes that register names with the same first characters meet in the same slot, and names that
      differ there never do. */
  lemma Rendezvous(s: System, p: nat, q: nat, a: string, b: string, lewi: bool)
    requires Valid(s) && p < |s.procs| && q < |s.procs| && p != q
    requires var (t, ptr, _) := NodeRegister(s, p, a, lewi); Fits(t, q) && ptr.To?
    requires NodeRegister(NodeRegister(s, p, a, lewi).0, q, b, lewi).1.To?
    ensures NodeRegister(s, p, a, lewi).1 == NodeRegister(NodeRegister(s, p, a, lewi).0, q, b, lewi).1 <==>
      Stored(a) == Stored(b)
  {
    var (t, ptr, _) := NodeRegister(s, p, a, lewi);
    RegisterKeeps(s, p, a, lewi);
    RegisterKeeps(t, q, b, lewi);
    var (u, ptr2, _) := NodeRegister(t, q, b, lewi);
    SlotsStay(t, q, b, lewi, ptr.slot);
    hide NodeRegister, Stored;
    assert UniqueNames(u.registry.slots);
  }

  /** Registering by another process neither ends nor renames a barrier. */
  lemma SlotsStay(s: System, p: nat, name: string, lewi: bool, k: nat)
    requires Valid(s) && p < |s.procs| && k < |s.registry.slots| && s.registry.slots[k].live
    ensures var t := NodeRegister(s, p, name, lewi).0;
      |t.registry.slots| == |s.registry.slots| && t.registry.slots[k].live && t.registry.slots[k].name == s.registry.slots[k].name
  {
    EnrolEffect(s.registry, name, lewi);
    hide Enrol, Find, Seek, Counted, Stored;
  }

  /** Registering a name again returns the same pointer and adds no participant. */
  lemma RegisterAgain(s: System, p: nat, name: string, lewi: bool)
    requires Valid(s) && p < |s.procs| && NodeRegister(s, p, name, lewi).1.To?
    ensures var (t, ptr, _) := NodeRegister(s, p, name, lewi);
      && Fits(t, p) && NodeRegister(t, p, name, lewi).0 == t && NodeRegister(t, p, name, lewi).1 == ptr
  {
    var (t, ptr, _) := NodeRegister(s, p, name, lewi);
    RegisterKeeps(s, p, name, lewi);
    assert t.procs[p].Info? && |t.procs| == |s.procs| by {
      hide Enrol, Find, Seek, Valid;
    }
    hide NodeRegister;
    var list := t.procs[p].list;
    assert InfoOk(t.procs[p], |t.registry.slots|) && list[0] != Null;
    FindsLive(t.registry, name, ptr.slot);
  }

  lemma FindsLive(r: Registry, name: string, k: nat)
    requires RegistryOk(r) && k < |r.slots| && r.slots[k].live && r.slots[k].name == Stored(name)
    ensures Find(r, name) == To(k)
  {
    assert SlotOk(r.slots[k]);
    var f := Find(r, name);
    hide Find;
  }
}
