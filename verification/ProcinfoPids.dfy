/** When registration leaves a process in two slots of the table (src/LB_comm/shmem_procinfo.c): the scan for the
    own pid stops as soon as it has everything else it needs. */
module ProcinfoPids {
  import opened Codes
  import opened ProcinfoSpec
  import opened ProcinfoInvariant
  import opened ProcinfoSetMask
  import opened ProcinfoOps
  import R = ProcinfoRuns

  /** Every process has one slot. */
  ghost predicate Distinct(procs: seq<Proc>) {
    forall i, j :: 0 <= i < j < |procs| && procs[i].pid != NOBODY ==> procs[i].pid != procs[j].pid
  }

  ghost predicate HoleIn(procs: seq<Proc>, from: nat, to: nat) {
    exists j :: from <= j < to && j < |procs| && procs[j].pid == NOBODY
  }

  ghost predicate PreregisteredIn(procs: seq<Proc>, prePid: nat, from: nat, to: nat) {
    exists j :: from <= j < to && j < |procs| && procs[j].pid == prePid && procs[j].prereg
  }

  /** The scan has what it needs before slot k: a hole, and the pre-registered process if one is named. */
  ghost predicate Unseen(procs: seq<Proc>, prePid: nat, k: nat) {
    HoleIn(procs, 0, k) && (prePid == NOBODY || PreregisteredIn(procs, prePid, 0, k))
  }

  /** What the scan finds on the way to the slot k of pid. */
  lemma {:induction false} ScanMeets(procs: seq<Proc>, num: nat, pid: nat, prePid: nat, p: nat, spot: nat, pre: nat, k: nat)
    requires p <= k < num <= |procs| && SpotOk(procs, num, spot) && PreOk(procs, num, prePid, pre)
    requires Distinct(procs) && procs[k].pid == pid && pid != NOBODY && prePid != pid && (pre < num ==> pre < p)
    requires !(spot < num && (prePid == NOBODY || pre < num))
    ensures var f := InitScan(procs, num, pid, prePid, p, spot, pre);
      && (f.Found? <==>
            ((spot < num || HoleIn(procs, p, k)) && (prePid == NOBODY || pre < num || PreregisteredIn(procs, prePid, p, k))))
      && (f.Found? ==> f.spot < num && (prePid != NOBODY ==> f.pre < num))
    decreases k - p
  {
    if p < k {
      var q := procs[p];
      assert HoleIn(procs, p, k) <==> q.pid == NOBODY || HoleIn(procs, p + 1, k);
      assert PreregisteredIn(procs, prePid, p, k) <==> (q.pid == prePid && q.prereg) || PreregisteredIn(procs, prePid, p + 1, k);
      if spot == num && q.pid == NOBODY {
        if !(prePid == NOBODY || pre < num) {
          ScanMeets(procs, num, pid, prePid, p + 1, p, pre, k);
        }
      } else if prePid != NOBODY && pre == num && q.pid == prePid {
        if q.prereg && spot == num {
          ScanMeets(procs, num, pid, prePid, p + 1, spot, p, k);
        } else if !q.prereg {
          assert !PreregisteredIn(procs, prePid, p + 1, k);
        }
      } else {
        ScanMeets(procs, num, pid, prePid, p + 1, spot, pre, k);
      }
    }
  }

  /** The new process is admitted on its own, or as the heir of the process in slot i. */
  predicate Admits(s: Shared, alone: bool, i: nat, mask: Mask)
    requires alone || i < |s.procs|
  {
    if alone then mask == {} || s.sharing || mask <= s.free
    else
      var p := s.procs[i];
      mask == {} || mask == PreMask(p) || (!p.dirty && (s.sharing || mask - PreMask(p) <= s.free))
  }

  predicate Entered(code: Code) {
    code == Success || code == Noted
  }

  lemma FreshSlots(s: Shared, e: nat, pid: nat, mask: Mask)
    requires e < |s.procs|
    ensures var (t, code) := FreshInit(s, e, pid, mask);
      && (Entered(code) <==> Admits(s, true, 0, mask)) && code != ErrInit
      && t.procs[e].pid == (if Entered(code) then pid else NOBODY)
      && forall q :: 0 <= q < |s.procs| && q != e ==> t.procs[q] == s.procs[q]
  {
  }

  lemma HeirSlots(s: Shared, i: nat, e: nat, pid: nat, mask: Mask)
    requires i < |s.procs| && e <= |s.procs| && i != e
    ensures var (t, code, slot) := Inherit(s, i, e, pid, mask);
      && code != ErrInit
      && (Entered(code) <==> Admits(s, false, i, mask) && (mask == {} || PreMask(s.procs[i]) <= mask || e < |s.procs|))
      && (!Entered(code) ==> t == s)
      && (Entered(code) ==> slot == (if mask == {} || PreMask(s.procs[i]) <= mask then i else e))
      && (Entered(code) ==> t.procs[slot].pid == pid && (slot == e ==> t.procs[i].pid == s.procs[i].pid))
      && forall q :: 0 <= q < |s.procs| && q != i && q != slot ==> t.procs[q] == s.procs[q]
  {
    var had := PreMask(s.procs[i]);
    assert mask < had ==> mask - had == {};
    assert had <= mask <==> had == mask || had < mask;
  }

  /** A process that is already in slot k and registers again, possibly as the heir of another in slot i. It is
      refused as registered unless the scan stops before k, so always when the other is not in the table; otherwise it
      is admitted like anybody else, and then it is in two slots. */
  lemma RegisteredTwice(s: Shared, pid: nat, prePid: nat, mask: Mask, k: nat, i: nat)
    requires s.num <= |s.procs| && Distinct(s.procs) && k < s.num && s.procs[k].pid == pid
    requires pid != NOBODY && prePid != pid
    requires forall j :: 0 <= j < |s.procs| && prePid != NOBODY && s.procs[j].pid == prePid ==> j == i
    ensures var (t, code) := Init(s, pid, prePid, mask, s.sharing);
      && (code == ErrInit <==> !Unseen(s.procs, prePid, k))
      && (code == ErrInit ==> t == s)
      && (Entered(code) <==>
            Unseen(s.procs, prePid, k) && (prePid == NOBODY || i < |s.procs|) && Admits(s, prePid == NOBODY, i, mask))
      && (Distinct(t.procs) <==> !Entered(code))
  {
    ScanMeets(s.procs, s.num, pid, prePid, 0, s.num, s.num, k);
    var f := InitScan(s.procs, s.num, pid, prePid, 0, s.num, s.num);
    var t := Init(s, pid, prePid, mask, s.sharing).0;
    hide InitScan, FreshInit, Inherit, HoleIn, PreregisteredIn;
    if f.Found? {
      if prePid == NOBODY {
        FreshSlots(s, f.spot, pid, mask);
        assert t.procs == FreshInit(s, f.spot, pid, mask).0.procs;
      } else {
        assert f.pre == i;
        HeirSlots(s, i, f.spot, pid, mask);
        assert t.procs == Inherit(s, i, f.spot, pid, mask).0.procs;
      }
      assert t.procs[k] == s.procs[k];
    }
  }

  lemma {:induction false} ScanOwn(procs: seq<Proc>, num: nat, pid: nat, p: nat, spot: nat, k: nat)
    requires p <= num <= |procs| && k < num && SpotOk(procs, num, spot) && Distinct(procs)
    requires procs[k].pid == pid && pid != NOBODY && (p > k ==> procs[k].prereg && spot == num)
    ensures InitScan(procs, num, pid, pid, p, spot, if p <= k then num else k) ==
      if procs[k].prereg then Found(if spot < num then spot else FirstHole(procs, num, p), k) else Clash
    decreases num - p
  {
    if p < num {
      var next := if spot == num && procs[p].pid == NOBODY then p else spot;
      if p < k {
        ScanOwn(procs, num, pid, p + 1, next, k);
      } else if p == k && procs[k].prereg && spot == num {
        ScanOwn(procs, num, pid, p + 1, num, k);
      } else if p > k && procs[p].pid != NOBODY {
        ScanOwn(procs, num, pid, p + 1, num, k);
      }
    }
  }

  function FirstHole(procs: seq<Proc>, num: nat, p: nat): (r: nat)
    requires p <= num <= |procs|
    ensures p <= r <= num && (r < num ==> procs[r].pid == NOBODY) && (forall j :: p <= j < r ==> procs[j].pid != NOBODY)
    decreases num - p
  {
    if p == num || procs[p].pid == NOBODY then p else FirstHole(procs, num, p + 1)
  }

  /** A process pre-registered under its own pid, in slot k, comes to inherit. It ends in two slots exactly when
      it gives up CPUs of its pre-registration: it then takes a new slot, and the old one keeps its pid. */
  lemma InheritsFromItself(s: Shared, pid: nat, mask: Mask, k: nat)
    requires s.num <= |s.procs| && Distinct(s.procs) && k < s.num && s.procs[k].pid == pid && pid != NOBODY
    ensures var (t, code) := Init(s, pid, pid, mask, s.sharing);
      var leaves := mask != {} && !(PreMask(s.procs[k]) <= mask);
      && (code == ErrInit <==> !s.procs[k].prereg)
      && (Entered(code) <==>
            (s.procs[k].prereg && Admits(s, false, k, mask) && (!leaves || s.num < |s.procs| || HoleIn(s.procs, 0, s.num))))
      && (Distinct(t.procs) <==> !(Entered(code) && leaves))
  {
    ScanOwn(s.procs, s.num, pid, 0, s.num, k);
    var e := FirstHole(s.procs, s.num, 0);
    var (t, code) := Init(s, pid, pid, mask, s.sharing);
    if s.procs[k].prereg {
      HeirSlots(s, k, e, pid, mask);
      assert t.procs == Inherit(s, k, e, pid, mask).0.procs;
    }
    hide Init, InitScan, Inherit;
  }

  /** A process that is not in the table never ends in two slots. */
  lemma NewcomerIsAlone(s: Shared, pid: nat, prePid: nat, mask: Mask, sharing: bool)
    requires s.num <= |s.procs| && Distinct(s.procs) && pid != NOBODY
    requires forall j :: 0 <= j < |s.procs| ==> s.procs[j].pid != pid
    ensures Distinct(Init(s, pid, prePid, mask, sharing).0.procs)
  {
    var f := InitScan(s.procs, s.num, pid, prePid, 0, s.num, s.num);
    var t := Init(s, pid, prePid, mask, sharing).0;
    hide InitScan, FreshInit, Inherit;
    if f.Found? && s.sharing == sharing {
      if f.pre < s.num {
        HeirSlots(s, f.pre, f.spot, pid, mask);
        assert t.procs == Inherit(s, f.pre, f.spot, pid, mask).0.procs;
      } else if f.spot < |s.procs| {
        FreshSlots(s, f.spot, pid, mask);
        assert t.procs == FreshInit(s, f.spot, pid, mask).0.procs;
      }
    }
  }

  // ---------------------------------------------------------------- pre-registration

  lemma {:induction false} GiveBackFromPids(s: Shared, owner: nat, mask: Mask, c: nat)
    requires owner < |s.procs| && s.num <= |s.procs|
    ensures SamePids(s.procs, GiveBackFrom(s, owner, mask, c).procs)
    decreases s.size - c
  {
    hide GiveBack;
    if c < s.size {
      GiveBackLive(s, owner, c);
      GiveBackFromPids(if c in mask then GiveBack(s, owner, c) else s, owner, mask, c + 1);
    }
  }

  lemma ClaimPids(s: Shared, p: nat, mask: Mask, steal: bool, returnStolen: bool)
    requires p < |s.procs| && s.num <= |s.procs|
    ensures SamePids(s.procs, Claim(s, p, mask, steal, returnStolen).0.procs)
    ensures Claim(s, p, mask, steal, returnStolen).1 != ErrInit
  {
    if steal && !s.sharing {
      SetNewMaskCases(s, p, mask, returnStolen);
      StealNeverRollsBack(s, p, ToSteal(s, p, mask));
      hide SetNewMask, Steal, ToSteal;
      if SetNewMask(s, p, mask, returnStolen).1 == Success {
        GainedPids(s, p, mask);
        GiveBackFromPids(Gained(s, p, mask), p, ToFree(s, p, mask), 0);
      }
    }
  }

  lemma {:induction false} PreinitMeets(procs: seq<Proc>, pid: nat, p: nat, k: nat)
    requires p <= k < |procs| && procs[k].pid == pid && pid != NOBODY && Distinct(procs)
    ensures if HoleIn(procs, p, k) then PreinitSlot(procs, pid, p) < k && procs[PreinitSlot(procs, pid, p)].pid == NOBODY
            else PreinitSlot(procs, pid, p) == k
    decreases k - p
  {
    if p < k && procs[p].pid != NOBODY {
      PreinitMeets(procs, pid, p + 1, k);
      assert HoleIn(procs, p, k) <==> HoleIn(procs, p + 1, k);
    }
  }

  lemma {:induction false} PreinitMisses(procs: seq<Proc>, pid: nat, p: nat)
    requires p <= |procs| && forall j :: p <= j < |procs| ==> procs[j].pid != pid
    ensures var r := PreinitSlot(procs, pid, p); r < |procs| ==> procs[r].pid == NOBODY
    decreases |procs| - p
  {
  }

  /** The table after pre-registering pid in the free slot p: the other slots keep their pids. */
  lemma PreinitSlots(s: Shared, pid: nat, mask: Mask, steal: bool, returnStolen: bool)
    requires s.num <= |s.procs| && pid != NOBODY
    requires var p := PreinitSlot(s.procs, pid); p < |s.procs| && s.procs[p].pid == NOBODY
    ensures var p := PreinitSlot(s.procs, pid);
      var (t, code) := Preinit(s, pid, mask, steal, returnStolen);
      && code != ErrInit && |t.procs| == |s.procs|
      && t.procs[p].pid == (if code == Success then pid else NOBODY)
      && (forall q :: 0 <= q < |s.procs| && q != p ==> t.procs[q].pid == s.procs[q].pid)
      && (!steal ==> (code == Success <==> Admits(s, true, 0, mask)))
  {
    var p := PreinitSlot(s.procs, pid);
    var s1 := s.(procs := s.procs[p := EMPTY.(pid := pid, prereg := true)]);
    ClaimPids(s1, p, mask, steal, returnStolen);
    hide PreinitSlot, SetNewMask;
  }

  /** A process in slot k is refused by preinit exactly when no hole precedes k; otherwise, if it gets its mask, it is
      in two slots. */
  lemma PreregisteredTwice(s: Shared, pid: nat, mask: Mask, steal: bool, returnStolen: bool, k: nat)
    requires s.num <= |s.procs| && Distinct(s.procs) && k < |s.procs| && s.procs[k].pid == pid && pid != NOBODY
    ensures var (t, code) := Preinit(s, pid, mask, steal, returnStolen);
      && (code == ErrInit <==> !HoleIn(s.procs, 0, k))
      && (!steal ==> (code == Success <==> HoleIn(s.procs, 0, k) && Admits(s, true, 0, mask)))
      && (Distinct(t.procs) <==> code != Success)
  {
    PreinitMeets(s.procs, pid, 0, k);
    if HoleIn(s.procs, 0, k) {
      PreinitSlots(s, pid, mask, steal, returnStolen);
    }
    hide PreinitSlot, Claim, HoleIn;
  }

  /** A process that is not in the table is pre-registered in one slot. */
  lemma PreregisteredOnce(s: Shared, pid: nat, mask: Mask, steal: bool, returnStolen: bool)
    requires s.num <= |s.procs| && Distinct(s.procs) && pid != NOBODY
    requires forall j :: 0 <= j < |s.procs| ==> s.procs[j].pid != pid
    ensures Distinct(Preinit(s, pid, mask, steal, returnStolen).0.procs)
  {
    PreinitMisses(s.procs, pid, 0);
    if PreinitSlot(s.procs, pid) < |s.procs| {
      PreinitSlots(s, pid, mask, steal, returnStolen);
    }
    hide PreinitSlot, Claim;
  }

  // ---------------------------------------------------------------- runs

  /** A registration of a process that is in the table either meets its slot, or inherits in place. */
  ghost predicate Sees(s: Shared, step: R.Step) {
    match step
    case Init(pid, prePid, mask, _) =>
      forall k :: 0 <= k < |s.procs| && s.procs[k].pid == pid ==>
        if prePid == pid then mask == {} || PreMask(s.procs[k]) <= mask else !Unseen(s.procs, prePid, k)
    case Preinit(pid, _, _, _) => forall k :: 0 <= k < |s.procs| && s.procs[k].pid == pid ==> !HoleIn(s.procs, 0, k)
    case _ => true
  }

  lemma RefusedByMode(s: Shared, pid: nat, prePid: nat, mask: Mask)
    requires s.num <= |s.procs|
    ensures Init(s, pid, prePid, mask, !s.sharing).0 == s
  {
  }

  lemma InitKeepsDistinct(s: Shared, pid: nat, prePid: nat, mask: Mask, sharing: bool)
    requires Valid(s) && Distinct(s.procs) && pid != NOBODY && Sees(s, R.Init(pid, prePid, mask, sharing))
    ensures Distinct(Init(s, pid, prePid, mask, sharing).0.procs)
  {
    RefusedByMode(s, pid, prePid, mask);
    SoundIs(s);
    hide Init, Sound, Unseen;
    if k :| 0 <= k < |s.procs| && s.procs[k].pid == pid {
      if prePid == pid {
        InheritsFromItself(s, pid, mask, k);
      } else {
        var i := |s.procs|;
        if j :| 0 <= j < |s.procs| && s.procs[j].pid == prePid {
          i := j;
        }
        RegisteredTwice(s, pid, prePid, mask, k, i);
      }
    } else {
      NewcomerIsAlone(s, pid, prePid, mask, sharing);
    }
  }

  lemma PreinitKeepsDistinct(s: Shared, pid: nat, mask: Mask, steal: bool, returnStolen: bool)
    requires Valid(s) && Distinct(s.procs) && pid != NOBODY && Sees(s, R.Preinit(pid, mask, steal, returnStolen))
    ensures Distinct(Preinit(s, pid, mask, steal, returnStolen).0.procs)
  {
    SoundIs(s);
    hide Preinit, Sound, HoleIn;
    if k :| 0 <= k < |s.procs| && s.procs[k].pid == pid {
      PreregisteredTwice(s, pid, mask, steal, returnStolen, k);
      assert !HoleIn(s.procs, 0, k);
    } else {
      PreregisteredOnce(s, pid, mask, steal, returnStolen);
    }
  }

  lemma SetPids(s: Shared, i: nat, mask: Mask, returnStolen: bool, noSync: bool)
    requires i < |s.procs| && s.num <= |s.procs|
    ensures SamePids(s.procs, SetMask(s, i, mask, returnStolen).0.procs)
    ensures SamePids(s.procs, SetMaskSelf(s, i, mask, returnStolen, noSync).0.procs)
  {
    ClaimPids(s, i, mask, true, returnStolen);
    hide SetNewMask;
  }

  lemma SamePidsDistinct(a: seq<Proc>, b: seq<Proc>)
    requires SamePids(a, b) && Distinct(a)
    ensures Distinct(b)
  {
  }

  lemma LeaveDistinct(s: Shared, i: nat, returnStolen: bool)
    requires i < |s.procs| && s.num <= |s.procs| && Distinct(s.procs)
    ensures Distinct(Finalize(s, i, returnStolen).0.procs)
  {
    var mask := if s.procs[i].dirty then s.procs[i].future else s.procs[i].current;
    GiveBackFromPids(s, i, mask, 0);
    hide GiveBackFrom;
  }

  lemma StepKeepsDistinct(s: Shared, step: R.Step)
    requires Valid(s) && Distinct(s.procs) && R.Enabled(s, step) && Sees(s, step)
    ensures Distinct(R.Apply(s, step).procs)
  {
    SoundIs(s);
    hide Init, Preinit, SetMask, SetMaskSelf, Finalize, InitScan, Sound, TailFree;
    match step
    case Init(pid, prePid, mask, sharing) => InitKeepsDistinct(s, pid, prePid, mask, sharing);
    case Preinit(pid, mask, steal, returnStolen) => PreinitKeepsDistinct(s, pid, mask, steal, returnStolen);
    case SetMask(i, mask, returnStolen) =>
      if i < |s.procs| {
        SetPids(s, i, mask, returnStolen, false);
        SamePidsDistinct(s.procs, SetMask(s, i, mask, returnStolen).0.procs);
      }
    case SetMaskSelf(i, mask, returnStolen, noSync) =>
      if i < |s.procs| {
        SetPids(s, i, mask, returnStolen, noSync);
        SamePidsDistinct(s.procs, SetMaskSelf(s, i, mask, returnStolen, noSync).0.procs);
      }
    case Finalize(i, returnStolen) =>
      if i < |s.procs| {
        LeaveDistinct(s, i, returnStolen);
      }
    case _ =>
  }

  ghost predicate AllSee(s: Shared, steps: seq<R.Step>)
    requires s.num <= |s.procs|
    decreases |steps|
  {
    steps == [] || (Sees(s, steps[0]) && AllSee(R.Apply(s, steps[0]), steps[1..]))
  }

  /** Over every run in which registrations see the slot of their process, every process has one slot. */
  lemma {:induction false} RunKeepsDistinct(s: Shared, steps: seq<R.Step>)
    requires Valid(s) && Distinct(s.procs) && R.Legal(s, steps) && AllSee(s, steps)
    ensures Distinct(R.Run(s, steps).procs)
    decreases |steps|
  {
    SoundIs(s);
    if steps != [] {
      hide R.Apply, R.Enabled, Sound, TailFree, Sees, Distinct;
      R.StepKeeps(s, steps[0]);
      StepKeepsDistinct(s, steps[0]);
      RunKeepsDistinct(R.Apply(s, steps[0]), steps[1..]);
    }
  }

  lemma ReachableIsDistinct(system: Mask, size: nat, maxProcesses: nat, steps: seq<R.Step>)
    requires (forall c :: c in system ==> c < size)
    requires R.Legal(R.Start(system, size, maxProcesses), steps) && AllSee(R.Start(system, size, maxProcesses), steps)
    ensures Distinct(R.Run(R.Start(system, size, maxProcesses), steps).procs)
  {
    R.StartIsValid(system, size, maxProcesses);
    RunKeepsDistinct(R.Start(system, size, maxProcesses), steps);
  }

  // ---------------------------------------------------------------- inputs that break the promise

  /** A process that registers on its own takes the slot that the scan finds. */
  lemma Registers(s: Shared, pid: nat, mask: Mask, spot: nat)
    requires s.num <= |s.procs| && spot < |s.procs| && !s.sharing && mask <= s.free && mask != {}
    requires InitScan(s.procs, s.num, pid, NOBODY, 0, s.num, s.num) == Found(spot, s.num)
    ensures R.Apply(s, R.Init(pid, NOBODY, mask, false)) ==
      s.(free := s.free - mask, procs := s.procs[spot := Proc(pid, false, false, mask, mask, {})],
         num := if spot == s.num then s.num + 1 else s.num)
  {
    hide InitScan;
    assert {} - mask == {} && {} + mask == mask;
    var t := FreshInit(s, spot, pid, mask).0;
    assert t.procs == s.procs[spot := Proc(pid, false, false, mask, mask, {})];
  }

  lemma RunStep(s: Shared, step: R.Step, rest: seq<R.Step>)
    requires s.num <= |s.procs|
    ensures R.Run(s, [step] + rest) == R.Run(R.Apply(s, step), rest)
  {
    hide R.Apply;
    assert ([step] + rest)[1..] == rest;
  }

  /** 1 and 2 register and 1 leaves, before any further steps. */
  lemma TwoAndOneLeaves(rest: seq<R.Step>) returns (s: Shared)
    ensures s == Shared({0, 1}, 2, false, {0}, 2, [EMPTY, Proc(2, false, false, {1}, {1}, {})])
    ensures R.Run(R.Start({0, 1}, 2, 2),
        [R.Init(1, NOBODY, {0}, false), R.Init(2, NOBODY, {1}, false), R.Finalize(0, false)] + rest) == R.Run(s, rest)
  {
    var e1, e2, e3 := R.Init(1, NOBODY, {0}, false), R.Init(2, NOBODY, {1}, false), R.Finalize(0, false);
    var one, two := Proc(1, false, false, {0}, {0}, {}), Proc(2, false, false, {1}, {1}, {});
    var s0 := R.Start({0, 1}, 2, 2);
    assert s0.procs == [EMPTY, EMPTY];
    Registers(s0, 1, {0}, 0);
    var s1 := R.Apply(s0, e1);
    assert s1 == Shared({0, 1}, 2, false, {1}, 1, [one, EMPTY]);
    assert InitScan(s1.procs, 1, 2, 0, 1, 1, 1) == Found(1, 1);
    Registers(s1, 2, {1}, 1);
    var s2 := R.Apply(s1, e2);
    assert s2 == Shared({0, 1}, 2, false, {}, 2, [one, two]);
    s := R.Apply(s2, e3);
    assert s == Shared({0, 1}, 2, false, {0}, 2, [EMPTY, two]);
    hide R.Apply, R.Run;
    assert [e1, e2, e3] + rest == [e1] + ([e2] + ([e3] + rest));
    RunStep(s0, e1, [e2] + ([e3] + rest));
    RunStep(s1, e2, [e3] + rest);
    RunStep(s2, e3, rest);
  }

  /** Then 2 registers again: the scan stops at the hole that 1 left, and 2 is in both slots. */
  lemma TwiceInTheTable()
    ensures var s := R.Run(R.Start({0, 1}, 2, 2), [R.Init(1, NOBODY, {0}, false), R.Init(2, NOBODY, {1}, false),
        R.Finalize(0, false), R.Init(2, NOBODY, {0}, false)]);
      s.procs == [Proc(2, false, false, {0}, {0}, {}), Proc(2, false, false, {1}, {1}, {})]
  {
    var e4 := R.Init(2, NOBODY, {0}, false);
    var s3 := TwoAndOneLeaves([e4]);
    Registers(s3, 2, {0}, 0);
    var s4 := R.Apply(s3, e4);
    assert s4.procs == [Proc(2, false, false, {0}, {0}, {}), Proc(2, false, false, {1}, {1}, {})];
    hide R.Apply, R.Run;
    RunStep(s3, e4, []);
    RunNone(s4);
    assert [e4] + [] == [e4];
    assert [R.Init(1, NOBODY, {0}, false), R.Init(2, NOBODY, {1}, false), R.Finalize(0, false)] + [e4] ==
      [R.Init(1, NOBODY, {0}, false), R.Init(2, NOBODY, {1}, false), R.Finalize(0, false), e4];
  }

  /** 5 is pre-registered on two CPUs under its own pid and starts with one of them: it is in both slots. */
  lemma OwnHeirTwice()
    ensures var s := R.Run(R.Start({0, 1}, 2, 2), [R.Preinit(5, {0, 1}, false, false), R.Init(5, 5, {0}, false)]);
      s.procs == [Proc(5, false, true, {1}, {1}, {}), Proc(5, false, false, {0}, {0}, {})]
  {
    var e1, e2 := R.Preinit(5, {0, 1}, false, false), R.Init(5, 5, {0}, false);
    var s0 := R.Start({0, 1}, 2, 2);
    assert s0.procs == [EMPTY, EMPTY];
    var s1 := R.Apply(s0, e1);
    assert PreinitSlot(s0.procs, 5) == 0;
    assert {0, 1} - {0, 1} == {} && {} + {0, 1} == {0, 1} && {} - {0, 1} == {};
    var sa := s0.(procs := s0.procs[0 := EMPTY.(pid := 5, prereg := true)]);
    var sb := Claim(sa, 0, {0, 1}, false, false).0;
    assert sb.procs == [Proc(5, true, true, {}, {0, 1}, {}), EMPTY] && sb.free == {};
    assert s1 == Shared({0, 1}, 2, false, {}, 1, [Proc(5, false, true, {0, 1}, {0, 1}, {}), EMPTY]);
    assert InitScan(s1.procs, 1, 5, 5, 0, 1, 1) == Found(1, 0);
    assert {0} < {0, 1} && {0, 1} - {0} == {1};
    var s2 := R.Apply(s1, e2);
    assert s2.procs == [Proc(5, false, true, {1}, {1}, {}), Proc(5, false, false, {0}, {0}, {})];
    hide R.Apply, R.Run;
    assert [e1, e2] == [e1] + ([e2] + []);
    RunStep(s0, e1, [e2] + []);
    RunStep(s1, e2, []);
    RunNone(s2);
  }

  /** 1 and 2 register, 1 leaves, and 2 is pre-registered: preinit stops at the hole as well. */
  lemma PreinitTwice()
    ensures var s := R.Run(R.Start({0, 1}, 2, 2), [R.Init(1, NOBODY, {0}, false), R.Init(2, NOBODY, {1}, false),
        R.Finalize(0, false), R.Preinit(2, {0}, false, false)]);
      s.procs == [Proc(2, false, true, {0}, {0}, {}), Proc(2, false, false, {1}, {1}, {})]
  {
    var e4 := R.Preinit(2, {0}, false, false);
    var s3 := TwoAndOneLeaves([e4]);
    assert PreinitSlot(s3.procs, 2) == 0;
    var sa := s3.(procs := s3.procs[0 := EMPTY.(pid := 2, prereg := true)]);
    var sb := Claim(sa, 0, {0}, false, false).0;
    assert {} - {0} == {} && {} + {0} == {0};
    assert sb.procs == [Proc(2, true, true, {}, {0}, {}), Proc(2, false, false, {1}, {1}, {})];
    var s4 := R.Apply(s3, e4);
    assert s4.procs == [Proc(2, false, true, {0}, {0}, {}), Proc(2, false, false, {1}, {1}, {})];
    hide R.Apply, R.Run;
    RunStep(s3, e4, []);
    RunNone(s4);
    assert [e4] + [] == [e4];
    assert [R.Init(1, NOBODY, {0}, false), R.Init(2, NOBODY, {1}, false), R.Finalize(0, false)] + [e4] ==
      [R.Init(1, NOBODY, {0}, false), R.Init(2, NOBODY, {1}, false), R.Finalize(0, false), e4];
  }

  lemma RunNone(s: Shared)
    requires s.num <= |s.procs|
    ensures R.Run(s, []) == s
  {
  }
}
