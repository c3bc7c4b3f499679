/** Named barriers, updated in place: the slot table under its lock (src/LB_comm/shmem_barrier.c) and the
    private data of a process (src/LB_core/node_barrier.c). */
module Barrier {
  import opened Codes
  import opened BarrierSpec

  class BarrierTable {
    var barriers: seq<Slot>
    var numBarriers: nat

    function View(): Registry
      reads this
    {
      Registry(barriers, numBarriers)
    }

    predicate Valid()
      reads this
    {
      numBarriers <= |barriers|
    }

    constructor (maxBarriers: nat)
      ensures Valid() && View() == Registry(seq(maxBarriers, _ => FREE), 0)
    {
      barriers, numBarriers := seq(maxBarriers, _ => FREE), 0;
    }

    method Find(name: string) returns (p: Ptr)
      requires Valid()
      ensures p == BarrierSpec.Find(View(), name)
    {
      var i := 0;
      while i < numBarriers
        invariant i <= numBarriers
        invariant BarrierSpec.Find(View(), name) == BarrierSpec.Find(View(), name, i)
      {
        if barriers[i].participants > 0 && barriers[i].live && barriers[i].name == Stored(name) {
          return To(i);
        }
        i := i + 1;
      }
      p := Null;
    }

    method Register(name: string, lewi: bool) returns (p: Ptr)
      requires Valid()
      modifies this
      ensures Valid() && (View(), p) == Enrol(old(View()), name, lewi)
    {
      var spot := Null;
      p := Null;
      var i := 0;
      while i < numBarriers && p == Null
        invariant i <= numBarriers <= |barriers| && View() == old(View())
        invariant spot.To? ==> spot.slot < numBarriers && Vacant(barriers[spot.slot])
        invariant Search(View(), name, 0, Null) == if p == Null then Search(View(), name, i, spot) else (p, spot)
        invariant p.To? ==> p.slot < numBarriers
        decreases numBarriers - i, if p == Null then 1 else 0
      {
        if spot == Null && barriers[i].participants == 0 && !barriers[i].live {
          spot := To(i);
        } else if barriers[i].participants > 0 && barriers[i].live && barriers[i].name == Stored(name) {
          p := To(i);
        }
        i := i + 1;
      }
      hide Search;
      if p == Null && spot == Null && numBarriers < |barriers| {
        spot := To(numBarriers);
        numBarriers := numBarriers + 1;
      }
      if p == Null && spot != Null {
        p := spot;
        barriers := barriers[p.slot := Slot(Stored(name), true, lewi, 1)];
      } else if p != Null {
        var b := barriers[p.slot];
        barriers := barriers[p.slot := b.(participants := b.participants + 1)];
      }
    }

    method Attach(k: nat) returns (reply: Reply)
      requires Valid() && k < |barriers|
      modifies this
      ensures Valid() && (View(), reply) == Join(old(View()), k)
    {
      var b := barriers[k];
      if !b.live || b.participants == 0 { return Fail(ErrPerm); }
      barriers := barriers[k := b.(participants := b.participants + 1)];
      reply := Participants(b.participants + 1);
    }

    method Detach(k: nat) returns (reply: Reply)
      requires Valid() && k < |barriers|
      modifies this
      ensures Valid() && (View(), reply) == Part(old(View()), k)
    {
      var b := barriers[k];
      if !b.live || b.participants == 0 { return Fail(ErrPerm); }
      if b.participants > 1 {
        barriers := barriers[k := b.(participants := b.participants - 1)];
      } else {
        barriers := barriers[k := FREE];
        ghost var num := numBarriers;
        while numBarriers > 0 && !barriers[numBarriers - 1].live
          invariant numBarriers <= num <= |barriers| && barriers == old(barriers)[k := FREE]
          invariant Compacted(barriers, num) == Compacted(barriers, numBarriers)
        {
          numBarriers := numBarriers - 1;
        }
      }
      reply := Participants(b.participants - 1);
    }
  }

  class NodeBarrier {
    const shared: BarrierTable
    var info: Info

    /** This process alone with the shared table. */
    function View(): System
      reads this, shared
    {
      System(shared.View(), [info])
    }

    predicate Valid()
      reads this, shared
    {
      shared.Valid()
    }

    constructor (table: BarrierTable)
      ensures shared == table && info == NoInfo
    {
      shared, info := table, NoInfo;
    }

    /** node_barrier_init; calling it twice is fatal. */
    method Init(name: string, lewi: bool)
      requires Valid() && info.NoInfo?
      modifies this, shared
      ensures Valid() && View() == NodeInit(old(View()), 0, name, lewi)
    {
      hide Enrol;
      var p := shared.Register(name, lewi);
      info := Info(name, p, seq(|shared.barriers|, _ => Null));
    }

    /** The first place of the list that is null or holds p. */
    method Position(p: Ptr) returns (i: nat)
      requires info.Info?
      ensures i == Seek(info.list, p)
    {
      i := 0;
      while i < |info.list| && info.list[i] != Null && info.list[i] != p
        invariant i <= |info.list|
        invariant Seek(info.list, p) == Seek(info.list, p, i)
      {
        i := i + 1;
      }
    }

    method Register(name: string, lewi: bool) returns (p: Ptr, reply: Reply)
      requires Valid()
      modifies this, shared
      ensures Valid() && (View(), p, reply) == NodeRegister(old(View()), 0, name, lewi)
    {
      hide Enrol, BarrierSpec.Find, Seek;
      OneProcess(info);
      if info.NoInfo? { return Null, Fail(ErrNoComp); }
      if |info.list| > 0 && info.list[0] != Null {
        p := shared.Find(name);
        if p != Null && p in info.list {
          return p, Participants(shared.barriers[p.slot].participants);
        }
      }
      p := shared.Register(name, lewi);
      if p == Null { return p, Fail(ErrNoMem); }
      var i := Position(Null);
      if i == |info.list| { return p, Overflow; }
      info := info.(list := info.list[i := p]);
      reply := Participants(shared.barriers[p.slot].participants);
    }

    method Attach(b: Ptr, lewi: bool) returns (reply: Reply)
      requires Valid() && (b.To? ==> b.slot < |shared.barriers|)
      modifies this, shared
      ensures Valid() && (View(), reply) == NodeAttach(old(View()), 0, b, lewi)
    {
      hide Enrol, Seek, Join;
      OneProcess(info);
      if info.NoInfo? { return Fail(ErrNoComp); }
      if b == Null {
        if info.default != Null { return Fail(ErrPerm); }
        var p := shared.Register(info.defaultName, lewi);
        info := info.(default := p);
        return if p != Null then Participants(1) else Fail(ErrNoMem);
      }
      if b == info.default { return Fail(ErrPerm); }
      var i := Position(b);
      if i < |info.list| && info.list[i] == b { return Fail(ErrPerm); }
      JoinRefused(shared.View(), b.slot);
      reply := shared.Attach(b.slot);
      if reply.Fail? { return; }
      if i == |info.list| { return Overflow; }
      info := info.(list := info.list[i := b]);
    }

    method Detach(b: Ptr) returns (reply: Reply)
      requires Valid()
      modifies this, shared
      ensures Valid() && (View(), reply) == NodeDetach(old(View()), 0, b)
    {
      hide Seek, Part, Shifted;
      OneProcess(info);
      if info.NoInfo? { return Fail(ErrNoComp); }
      if b == Null || b == info.default {
        if info.default == Null || info.default.slot >= |shared.barriers| { return Fail(ErrPerm); }
        reply := shared.Detach(info.default.slot);
        if !reply.Fail? {
          info := info.(default := Null);
        }
        return;
      }
      var i := Position(b);
      if i == |info.list| || info.list[i] == Null || b.slot >= |shared.barriers| { return Fail(ErrPerm); }
      reply := shared.Detach(b.slot);
      if !reply.Fail? {
        info := info.(list := Shifted(info.list, i));
      }
    }

    method Leave(b: Ptr)
      requires Valid()
      modifies shared
      ensures Valid() && shared.View() == PartPtr(old(shared.View()), b)
    {
      hide Part;
      if b.To? && b.slot < |shared.barriers| {
        var reply := shared.Detach(b.slot);
      }
    }

    method Finalize()
      requires Valid()
      modifies this, shared
      ensures Valid() && View() == NodeFinalize(old(View()), 0)
    {
      hide PartPtr;
      if info.NoInfo? { return; }
      Leave(info.default);
      ghost var r := shared.View();
      var i := 0;
      while i < |info.list|
        invariant info == old(info) && info.Info? && i <= |info.list| && Valid()
        invariant PartList(r, info.list, 0) == PartList(shared.View(), info.list, i)
      {
        Leave(info.list[i]);
        i := i + 1;
      }
      info := NoInfo;
    }
  }

  lemma OneProcess(a: Info)
    ensures forall b: Info :: [a][0 := b] == [b]
  {
  }

  lemma JoinRefused(r: Registry, k: nat)
    requires k < |r.slots|
    ensures Join(r, k).1.Fail? ==> Join(r, k).0 == r
  {
  }
}
