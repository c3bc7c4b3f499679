/** Every run of the DROM operations on one shared table, one atomic step per locked call
    (src/LB_comm/shmem_procinfo.c). */
module ProcinfoRuns {
  import opened Codes
  import opened ProcinfoSpec
  import opened ProcinfoInvariant
  import opened ProcinfoSetMask
  import opened ProcinfoOps

  /** Operations on an existing process name its slot, whatever lookup led to it. */
  datatype Step =
    | Init(pid: nat, prePid: nat, mask: Mask, sharing: bool)
    | Preinit(pid: nat, mask: Mask, steal: bool, returnStolen: bool)
    | SetMask(slot: nat, mask: Mask, returnStolen: bool)
    | SetMaskSelf(slot: nat, mask: Mask, returnStolen: bool, noSync: bool)
    | Poll(slot: nat)
    | Recover(slot: nat)
    | Finalize(slot: nat, returnStolen: bool)

  function Apply(s: Shared, step: Step): (t: Shared)
    requires s.num <= |s.procs|
    ensures t.num <= |t.procs|
  {
    match step
    case Init(pid, prePid, mask, sharing) => ProcinfoSpec.Init(s, pid, prePid, mask, sharing).0
    case Preinit(pid, mask, steal, returnStolen) => ProcinfoSpec.Preinit(s, pid, mask, steal, returnStolen).0
    case SetMask(i, mask, returnStolen) =>
      if i >= |s.procs| then s else ProcinfoSpec.SetMask(s, i, mask, returnStolen).0
    case SetMaskSelf(i, mask, returnStolen, noSync) =>
      if i >= |s.procs| then s else ProcinfoSpec.SetMaskSelf(s, i, mask, returnStolen, noSync).0
    case Poll(i) => if i >= |s.procs| then s else ProcinfoSpec.Poll(s, i, Success, NoUpdt).0
    case Recover(i) => if i >= |s.procs| then s else ProcinfoSpec.Recover(s, i).0
    case Finalize(i, returnStolen) => if i >= |s.procs| then s else ProcinfoSpec.Finalize(s, i, returnStolen).0
  }

  /** Calls outside these break the partition; see ResubmitKeeps, PreinitOutOfRange, InheritSlots and ExpansionLeaks. */
  ghost predicate Enabled(s: Shared, step: Step)
    requires s.num <= |s.procs|
  {
    match step
    case Init(pid, prePid, mask, _) =>
      pid != NOBODY &&
      var f := InitScan(s.procs, s.num, pid, prePid, 0, s.num, s.num);
      f.Found? && f.pre < s.num ==> ExpandsApart(s.procs[f.pre], mask)
    case Preinit(pid, mask, steal, _) => pid != NOBODY && (steal ==> InRange(mask, s.size) == mask)
    case SetMaskSelf(i, mask, _, _) => i < |s.procs| && s.procs[i].dirty ==> mask != s.procs[i].future
    case _ => true
  }

  ghost predicate Legal(s: Shared, steps: seq<Step>)
    requires s.num <= |s.procs|
    decreases |steps|
  {
    steps == [] || (Enabled(s, steps[0]) && Legal(Apply(s, steps[0]), steps[1..]))
  }

  function Run(s: Shared, steps: seq<Step>): Shared
    requires s.num <= |s.procs|
    decreases |steps|
  {
    if steps == [] then s else Run(Apply(s, steps[0]), steps[1..])
  }

  /** The memory the first process finds. */
  function Start(system: Mask, size: nat, maxProcesses: nat): Shared {
    Shared(system, size, false, system, 0, seq(maxProcesses, _ => EMPTY))
  }

  lemma StartIsValid(system: Mask, size: nat, maxProcesses: nat)
    requires forall c :: c in system ==> c < size
    ensures Valid(Start(system, size, maxProcesses))
  {
    var s := Start(system, size, maxProcesses);
    forall c: nat ensures Placed(s, c) {
      var h := if c in system then FREE else OUTSIDE;
      assert At(s, c, h);
    }
  }

  lemma SetKeeps(s: Shared, i: nat, mask: Mask, returnStolen: bool, noSync: bool)
    requires Valid(s) && i < |s.procs|
    requires s.procs[i].dirty ==> mask != s.procs[i].future
    ensures Valid(ProcinfoSpec.SetMask(s, i, mask, returnStolen).0)
    ensures Valid(ProcinfoSpec.SetMaskSelf(s, i, mask, returnStolen, noSync).0)
  {
    hide SetNewMask, Sound;
    SoundIs(s);
    if s.procs[i].pid != NOBODY && !s.procs[i].dirty {
      SetNewMaskAllOrNothing(s, i, mask, returnStolen);
      var (t, code) := SetNewMask(s, i, mask, returnStolen);
      assert Valid(t);
      CommitKeeps(t, i);
    }
  }

  lemma InitKeeps(s: Shared, pid: nat, prePid: nat, mask: Mask, sharing: bool)
    requires Valid(s) && Enabled(s, Step.Init(pid, prePid, mask, sharing))
    ensures Valid(ProcinfoSpec.Init(s, pid, prePid, mask, sharing).0)
  {
    hide InitScan, Sound, Inherit, FreshInit;
    SoundIs(s);
    var f := InitScan(s.procs, s.num, pid, prePid, 0, s.num, s.num);
    if f.Found? && s.sharing == sharing {
      if f.pre == s.num {
        if f.spot < |s.procs| {
          FreshInitKeeps(s, f.spot, pid, mask);
          RaiseNum(FreshInit(s, f.spot, pid, mask).0, f.spot);
        }
      } else {
        InheritKeeps(s, f.pre, f.spot, pid, mask);
        var (t, code, slot) := Inherit(s, f.pre, f.spot, pid, mask);
        if code == Noted {
          RaiseNum(t, slot);
        }
      }
    }
  }

  /** Every locked operation keeps the partition and the rest of the invariant. */
  lemma StepKeeps(s: Shared, step: Step)
    requires Valid(s) && Enabled(s, step)
    ensures Valid(Apply(s, step))
  {
    hide ProcinfoSpec.Init, ProcinfoSpec.Preinit, ProcinfoSpec.SetMask, ProcinfoSpec.SetMaskSelf;
    hide ProcinfoSpec.Recover, ProcinfoSpec.Finalize, InitScan, Sound, TailFree;
    SoundIs(s);
    match step
    case Init(pid, prePid, mask, sharing) => InitKeeps(s, pid, prePid, mask, sharing);
    case Preinit(pid, mask, steal, returnStolen) => PreinitKeeps(s, pid, mask, steal, returnStolen);
    case SetMask(i, mask, returnStolen) =>
      if i < |s.procs| {
        SetMaskKeeps(s, i, mask, returnStolen);
      }
    case SetMaskSelf(i, mask, returnStolen, noSync) =>
      if i < |s.procs| {
        SetKeeps(s, i, mask, returnStolen, noSync);
      }
    case Poll(i) =>
      if i < |s.procs| && s.procs[i].pid != NOBODY {
        CommitKeeps(s, i);
      }
    case Recover(i) =>
      if i < |s.procs| {
        RecoverKeeps(s, i);
      }
    case Finalize(i, returnStolen) =>
      if i < |s.procs| {
        FinalizeKeeps(s, i, returnStolen);
      }
  }

  lemma SetMaskKeeps(s: Shared, i: nat, mask: Mask, returnStolen: bool)
    requires Valid(s) && i < |s.procs|
    ensures Valid(ProcinfoSpec.SetMask(s, i, mask, returnStolen).0)
  {
    hide SetNewMask;
    if !s.procs[i].dirty {
      SetKeeps(s, i, mask, returnStolen, true);
    }
  }

  /** In every reachable state the free mask and the future masks partition the system CPUs, and a
      process that is not dirty has equal current and future masks. */
  lemma {:induction false} RunKeeps(s: Shared, steps: seq<Step>)
    requires Valid(s) && Legal(s, steps)
    ensures Valid(Run(s, steps))
    decreases |steps|
  {
    hide Apply, Enabled, Sound, TailFree;
    SoundIs(s);
    if steps != [] {
      StepKeeps(s, steps[0]);
      RunKeeps(Apply(s, steps[0]), steps[1..]);
    }
  }

  lemma ReachableIsValid(system: Mask, size: nat, maxProcesses: nat, steps: seq<Step>)
    requires (forall c :: c in system ==> c < size) && Legal(Start(system, size, maxProcesses), steps)
    ensures Valid(Run(Start(system, size, maxProcesses), steps))
  {
    StartIsValid(system, size, maxProcesses);
    RunKeeps(Start(system, size, maxProcesses), steps);
  }

  /** When nobody is dirty, the masks in use are disjoint, and with the free mask they are the system. */
  lemma QuietMasksPartition(s: Shared)
    requires Valid(s) && forall i :: 0 <= i < |s.procs| ==> !s.procs[i].dirty
    ensures forall i, j :: 0 <= i < j < |s.procs| ==> s.procs[i].current !! s.procs[j].current
    ensures forall i :: 0 <= i < |s.procs| ==> s.procs[i].current !! s.free
    ensures forall c :: c in s.system <==> c in s.free || exists i :: 0 <= i < |s.procs| && c in s.procs[i].current
  {
    assert forall i :: 0 <= i < |s.procs| ==> s.procs[i].current == s.procs[i].future by {
      assert forall i :: 0 <= i < |s.procs| ==> SlotOk(s.procs[i], s.system);
    }
    forall c: nat ensures c in s.system <==> c in s.free || exists i :: 0 <= i < |s.procs| && c in s.procs[i].current {
      var h := PlaceOf(s, c);
      assert 0 <= h ==> c in s.procs[h].current;
    }
    forall i | 0 <= i < |s.procs| ensures s.procs[i].current !! s.free {
      forall c | c in s.procs[i].current ensures c !in s.free {
        var h := PlaceOf(s, c);
      }
    }
    forall i, j | 0 <= i < j < |s.procs| ensures s.procs[i].current !! s.procs[j].current {
      forall c | c in s.procs[i].current ensures c !in s.procs[j].current {
        var h := PlaceOf(s, c);
      }
    }
  }
}
