/** What the other DROM operations answer and leave (src/LB_comm/shmem_procinfo.c). */
module ProcinfoOutcomes {
  import opened Codes
  import opened ProcinfoSpec
  import opened ProcinfoInvariant
  import opened ProcinfoSetMask
  import opened ProcinfoOps
  import opened ProcinfoDelivery

  /** Every process but i is as before. */
  ghost predicate OnlySlot(s: Shared, t: Shared, i: nat) {
    SameShape(s, t) && forall q :: 0 <= q < |s.procs| && q != i ==> t.procs[q] == s.procs[q]
  }

  /** Recovering gets all lost CPUs that are free, as a pending change, and is told so exactly when there were any lost. */
  lemma RecoverOutcome(s: Shared, i: nat)
    requires Valid(s) && i < |s.procs|
    ensures var (t, code) := Recover(s, i); var found := s.procs[i].stolen * s.free;
      && OnlySlot(s, t, i)
      && (code == ErrNoProc <==> s.procs[i].pid == NOBODY)
      && (code == NoUpdt <==> s.procs[i].pid != NOBODY && s.procs[i].stolen == {})
      && (code == Success <==> code != ErrNoProc && code != NoUpdt) && (code != Success ==> t == s)
      && (code == Success ==>
            && t.free == s.free - found && SameIdentity(s.procs[i], t.procs[i])
            && t.procs[i].stolen == s.procs[i].stolen - found && t.procs[i].future == s.procs[i].future + found
            && (t.procs[i].dirty <==> s.procs[i].dirty || found != {}))
  {
    assert !s.sharing;
  }

  /** Leaving empties the slot and touches nobody's mask in use; without giving CPUs back nobody hears of it. */
  lemma FinalizeOutcome(s: Shared, i: nat, returnStolen: bool, q: nat)
    requires Valid(s) && i < |s.procs| && q < |s.procs|
    ensures var (t, code) := Finalize(s, i, returnStolen); var a, b := s.procs[q], t.procs[q];
      && SameShape(s, t)
      && (code == ErrNoProc <==> s.procs[i].pid == NOBODY) && (code == ErrNoProc ==> t == s)
      && (code == Success <==> code != ErrNoProc)
      && (code == Success && q == i ==> b == EMPTY)
      && (q != i ==> SameIdentity(a, b) && (a.dirty ==> b.dirty) && (!returnStolen ==> b == a))
      && (code == Success && !returnStolen ==> t.free == s.free + PreMask(s.procs[i]))
  {
    var p := s.procs[i];
    if p.pid != NOBODY {
      assert !s.sharing;
      assert SlotOk(p, s.system);
      var mask := if p.dirty then p.future else p.current;
      forall d | d in mask ensures d < s.size {
        InSystem(s, i, d);
      }
      var c := ReleaseTells(s, i, mask, returnStolen, q);
      hide Valid, SlotOk, GiveBackFrom;
    }
  }

  /** Pre-registration is refused for a process that is found, and for lack of a slot; otherwise, without stealing, it
      needs exactly the mask to be free. The slot then holds the mask as current and pending, and nobody else changes. */
  lemma PreinitOutcome(s: Shared, pid: nat, mask: Mask, returnStolen: bool)
    requires Valid(s) && pid != NOBODY
    ensures var p := PreinitSlot(s.procs, pid); var (t, code) := Preinit(s, pid, mask, false, returnStolen);
      && |t.procs| == |s.procs| && (forall q :: 0 <= q < |s.procs| && q != p ==> t.procs[q] == s.procs[q])
      && (code == ErrNoMem <==> forall q :: 0 <= q < |s.procs| ==> s.procs[q].pid != NOBODY && s.procs[q].pid != pid)
      && (code == ErrInit <==> p < |s.procs| && s.procs[p].pid == pid)
      && (code == Success <==> p < |s.procs| && s.procs[p].pid == NOBODY && mask <= s.free)
      && (code == ErrPerm <==> code !in {ErrNoMem, ErrInit, Success})
      && (code == Success ==> t.free == s.free - mask && t.procs[p] == Proc(pid, false, true, mask, mask, {}))
      && (code != Success ==> t.free == s.free && t.num == s.num && (p < |s.procs| ==> t.procs[p].pid == s.procs[p].pid))
  {
    assert !s.sharing;
    assert {} - mask == {} && {} + mask == mask;
    assert s.free - {} == s.free;
  }

  ghost predicate ToldOfChange(a: Proc, b: Proc) {
    && SameIdentity(a, b) && (a.dirty ==> b.dirty)
    && (!a.dirty ==> (b.dirty <==> b.future != a.future))
  }

  /** With stealing the slot holds the mask too, everybody else keeps its mask in use, and whoever loses CPUs is told. */
  lemma PreinitStealOutcome(s: Shared, pid: nat, mask: Mask, returnStolen: bool, q: nat)
    requires Valid(s) && pid != NOBODY && InRange(mask, s.size) == mask && q < |s.procs|
    ensures var p := PreinitSlot(s.procs, pid); var (t, code) := Preinit(s, pid, mask, true, returnStolen);
      && |t.procs| == |s.procs|
      && (code == ErrNoMem <==> p == |s.procs|) && (code == ErrInit <==> p < |s.procs| && s.procs[p].pid == pid)
      && (code == Success && p == q ==> t.procs[p] == Proc(pid, false, true, mask, mask, t.procs[p].stolen))
      && (code == Success && p != q ==> ToldOfChange(s.procs[q], t.procs[q]))
      && (code != Success && p != q ==> t.procs[q] == s.procs[q]) && (code != Success ==> t.free == s.free)
  {
    var p := PreinitSlot(s.procs, pid);
    SoundIs(s);
    PreinitSlotLow(s.procs, s.num, pid, 0);
    if p < |s.procs| && s.procs[p].pid != pid {
      var s1 := Seated(s, p, pid, true);
      SeatKeeps(s, p, pid, true);
      SetNewMaskAllOrNothing(s1, p, mask, returnStolen);
      if SetNewMask(s1, p, mask, returnStolen).1 == Success {
        ChangedAreTold(s1, p, mask, returnStolen, q);
        ChangedAreTold(s1, p, mask, returnStolen, p);
        var t := SetNewMask(s1, p, mask, returnStolen).0;
        assert t.procs[p].pid == pid && t.procs[p].prereg;
      }
    }
    hide Valid, SetNewMask, Settable, SlotsOk;
  }

  /** When inheriting is refused: a pending mask for anything but all of it, CPUs that are not free, no slot for a second
      process. */
  lemma InheritRefusals(s: Shared, i: nat, e: nat, pid: nat, mask: Mask)
    requires i < |s.procs| && e <= |s.procs| && i != e && !s.sharing
    ensures var pre := s.procs[i]; var had := PreMask(pre); var (t, code, slot) := Inherit(s, i, e, pid, mask);
      && (code == ErrPDirty <==> pre.dirty && mask != {} && mask != had)
      && (code == ErrNoMem <==> !pre.dirty && mask != {} && !(had <= mask) && e == |s.procs|)
      && (code == ErrPerm <==> !pre.dirty && (had <= mask || e < |s.procs|) && !(mask - had <= s.free))
      && (code == Noted <==> code !in {ErrPDirty, ErrNoMem, ErrPerm})
  {
    var had := PreMask(s.procs[i]);
    assert had <= mask && mask != had ==> had < mask;
    assert mask == had || mask == {} ==> mask - had == {};
    assert mask < had ==> mask - had == {};
  }

  /** What an inheriting process starts with: the mask asked for, current and pending; or what was there, as it was. */
  lemma InheritOutcome(s: Shared, i: nat, e: nat, pid: nat, mask: Mask)
    requires i < |s.procs| && e <= |s.procs| && i != e && !s.sharing && Inherit(s, i, e, pid, mask).1 == Noted
    requires e < |s.procs| ==> s.procs[e] == EMPTY.(prereg := s.procs[e].prereg)
    ensures var pre := s.procs[i]; var had := PreMask(pre); var (t, _, slot) := Inherit(s, i, e, pid, mask);
      && (slot == i <==> mask == {} || had <= mask) && (slot == e <==> slot != i)
      && t.procs[slot] == (if mask == {} || mask == had then pre.(pid := pid, prereg := false)
                           else Proc(pid, false, false, mask, mask, if slot == i then pre.stolen else {}))
      && (slot == e ==> t.procs[i] == pre.(current := pre.current - mask, future := pre.future - mask))
  {
    var had := PreMask(s.procs[i]);
    assert had <= mask && mask != had ==> had < mask;
  }

  // ---------------------------------------------------------------- the roll-back of steal_mask

  lemma RestoredUndoes(p: Proc, mask: Mask, system: Mask)
    requires SlotOk(p, system) && p.pid != NOBODY
    ensures Restored(p, mask) == p <==> p.stolen * mask == {}
    ensures !p.dirty && IsVictim(p, mask) ==> (Restored(Robbed(p, mask), mask) == p <==> p.stolen * mask == {})
  {
    var back := p.stolen * mask;
    if back != {} {
      var c :| c in back;
      assert c in Restored(p, mask).future && c !in p.future;
    }
    if !p.dirty && IsVictim(p, mask) {
      var r := Robbed(p, mask);
      var all := r.stolen * mask;
      assert all == back + p.current * mask;
      assert r.future + all == p.future + back;
      if back == {} {
        assert r.stolen - all == p.stolen;
      } else {
        var c :| c in back;
        assert c in Restored(r, mask).future && c !in p.future;
      }
    }
  }

  lemma {:induction false} ScanRobsOrKeeps(procs: seq<Proc>, num: nat, owner: nat, mask: Mask, p: nat, left: Mask, q: nat)
    requires p <= num <= |procs| && q < |procs|
    ensures var now := StealScan(procs, num, owner, mask, false, p, left).procs[q];
      now == procs[q] || (q != owner && p <= q < num && IsVictim(procs[q], mask) && !procs[q].dirty && now == Robbed(procs[q], mask))
    decreases num - p
  {
    hide Robbed, IsVictim;
    if p < num {
      ScanRobsOrKeeps(procs, num, owner, mask, p + 1, left, q);
      var rest := left - procs[p].current * mask;
      ScanRobsOrKeeps(procs[p := Robbed(procs[p], mask)], num, owner, mask, p + 1, rest, q);
    }
  }

  /** Had stealing to be undone after any part of the victim loop, the roll-back would put every process back as it was
      exactly when none of them had lost a CPU of the mask before: those it would give back as well. */
  lemma RollBackRestores(s: Shared, owner: nat, mask: Mask, left: Mask)
    requires SlotsOk(s) && owner < |s.procs| && s.num <= |s.procs|
    ensures RolledBack(StealScan(s.procs, s.num, owner, mask, false, 0, left).procs, s.num, owner, mask) == s.procs <==>
      forall q :: 0 <= q < s.num && q != owner ==> s.procs[q].stolen * mask == {}
  {
    var now := StealScan(s.procs, s.num, owner, mask, false, 0, left).procs;
    var back := RolledBack(now, s.num, owner, mask);
    forall q | 0 <= q < |s.procs|
      ensures back[q] == s.procs[q] <==> q == owner || q >= s.num || s.procs[q].stolen * mask == {}
    {
      ScanRobsOrKeeps(s.procs, s.num, owner, mask, 0, left, q);
      assert SlotOk(s.procs[q], s.system);
      if s.procs[q].pid != NOBODY {
        RestoredUndoes(s.procs[q], mask, s.system);
      }
      hide Restored, Robbed;
    }
    hide RolledBack, StealScan;
  }

  /** A process with CPU 0 that lost CPU 1 before is robbed of CPU 0 by somebody who wants both; the roll-back gives it both. */
  lemma RollBackGivesTooMuch()
    ensures var p := Proc(2, false, false, {0}, {0}, {1});
      IsVictim(p, {0, 1}) && Restored(Robbed(p, {0, 1}), {0, 1}) == Proc(2, true, false, {0}, {0, 1}, {})
  {
    var p := Proc(2, false, false, {0}, {0}, {1});
    var r := Robbed(p, {0, 1});
    assert p.current * {0, 1} == {0} && r.stolen == {0, 1} && r.future == {};
    assert r.stolen * {0, 1} == {0, 1} && {0, 1} - {0, 1} == {} && {} + {0, 1} == {0, 1};
    assert 1 in {0, 1} && 1 !in {0};
  }

  // ---------------------------------------------------------------- registration

  /** The first slot below num, from p on, that holds pid; num when there is none. */
  function FirstWith(procs: seq<Proc>, num: nat, pid: nat, p: nat := 0): (r: nat)
    requires p <= num <= |procs|
    ensures p <= r <= num && (r < num ==> procs[r].pid == pid) && forall q :: p <= q < r ==> procs[q].pid != pid
    decreases num - p
  {
    if p == num || procs[p].pid == pid then p else FirstWith(procs, num, pid, p + 1)
  }

  /** The pre-registered slot that a start names. */
  function Heir(procs: seq<Proc>, num: nat, prePid: nat, p: nat := 0): nat
    requires p <= num <= |procs|
  {
    if prePid == NOBODY then num else FirstWith(procs, num, prePid, p)
  }

  /** For a process that is not in the table, the scan finds the first hole and the first slot of the pre-registration. */
  lemma {:induction false} NewcomerScan(procs: seq<Proc>, num: nat, pid: nat, prePid: nat, p: nat, spot: nat, pre: nat)
    requires p <= num <= |procs| && SpotOk(procs, num, spot) && PreOk(procs, num, prePid, pre)
    requires pid != NOBODY && forall q :: 0 <= q < num ==> procs[q].pid != pid
    ensures var r := InitScan(procs, num, pid, prePid, p, spot, pre);
      var heir := if pre < num then pre else Heir(procs, num, prePid, p);
      if heir < num && !procs[heir].prereg then r.Clash?
      else r == Found(if spot < num then spot else FirstWith(procs, num, NOBODY, p), heir)
    decreases num - p
  {
    if p < num {
      var q := procs[p].pid;
      if spot == num && q == NOBODY {
        if prePid != 0 && pre == num {
          NewcomerScan(procs, num, pid, prePid, p + 1, p, pre);
        }
      } else if prePid != 0 && pre == num && q == prePid {
        if procs[p].prereg && spot == num {
          NewcomerScan(procs, num, pid, prePid, p + 1, spot, p);
        }
      } else {
        NewcomerScan(procs, num, pid, prePid, p + 1, spot, pre);
      }
    }
  }

  /** What starting a process that is not in the table answers and does: it inherits from the slot it names, if that is
      pre-registered; without one it takes the first hole, needs exactly its mask to be free, and then has that mask. */
  lemma InitOutcome(s: Shared, pid: nat, prePid: nat, mask: Mask, sharing: bool)
    requires Valid(s) && pid != NOBODY && forall q :: 0 <= q < |s.procs| ==> s.procs[q].pid != pid
    ensures s.num <= |s.procs|
    ensures var spot, heir := FirstWith(s.procs, s.num, NOBODY), Heir(s.procs, s.num, prePid);
      var (t, code) := Init(s, pid, prePid, mask, sharing);
      && (code == ErrNoComp <==> s.sharing != sharing)
      && (code == ErrInit <==> s.sharing == sharing && heir < s.num && !s.procs[heir].prereg)
      && (code == ErrNoComp || code == ErrInit ==> t == s)
      && (s.sharing == sharing && heir == s.num ==>
            && (code == ErrNoMem <==> forall q :: 0 <= q < |s.procs| ==> s.procs[q].pid != NOBODY)
            && (code == Success <==> code != ErrNoMem && mask <= s.free)
            && (code == ErrPerm <==> code != ErrNoMem && !(mask <= s.free))
            && (code == Success ==> Started(s, t, spot, Proc(pid, false, false, mask, mask, {}), mask)))
      && (s.sharing == sharing && heir < s.num && s.procs[heir].prereg ==>
            var (u, inherited, slot) := Inherit(s, heir, spot, pid, mask);
            && code == inherited && t == u.(num := if code == Noted then Max(s.num, slot + 1) else s.num))
  {
    assert s.num <= |s.procs| && !s.sharing && TailFree(s);
    NewcomerScan(s.procs, s.num, pid, prePid, 0, s.num, s.num);
    var spot, heir := FirstWith(s.procs, s.num, NOBODY), Heir(s.procs, s.num, prePid);
    if s.sharing == sharing && heir == s.num && spot < |s.procs| {
      FreshInitKeeps(s, spot, pid, mask);
    }
    hide SlotsOk, Partition, FreshInit, InitScan;
  }

  /** A new process in slot p; nobody else changes. */
  ghost predicate Started(s: Shared, t: Shared, p: nat, proc: Proc, mask: Mask) {
    && p < |s.procs| == |t.procs| && t.procs == s.procs[p := proc] && t.free == s.free - mask && t.num == Max(s.num, p + 1)
  }
}
