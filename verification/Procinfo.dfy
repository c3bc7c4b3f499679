/** The DROM process table, updated in place under its lock (src/LB_comm/shmem_procinfo.c). */
module Procinfo {
  import opened Codes
  import opened ProcinfoSpec

  class DromTable {
    const systemMask: Mask
    const maxCpus: nat
    const allowCpuSharing: bool
    var freeMask: Mask
    var numProcesses: nat
    var processInfo: seq<Proc>

    function View(): Shared
      reads this
    {
      Shared(systemMask, maxCpus, allowCpuSharing, freeMask, numProcesses, processInfo)
    }

    constructor (system: Mask, size: nat, maxProcesses: nat, sharing: bool)
      ensures View() == Shared(system, size, sharing, system, 0, seq(maxProcesses, _ => EMPTY))
    {
      systemMask, maxCpus, allowCpuSharing := system, size, sharing;
      freeMask, numProcesses, processInfo := system, 0, seq(maxProcesses, _ => EMPTY);
    }

    /** The loop of get_process; the number of processes stands for the null pointer. */
    method GetProcess(pid: nat) returns (p: nat)
      requires numProcesses <= |processInfo|
      ensures p <= numProcesses && (p < numProcesses ==> processInfo[p].pid == pid)
      ensures forall k :: 0 <= k < p ==> processInfo[k].pid != pid
    {
      p := 0;
      while p < numProcesses && processInfo[p].pid != pid
        invariant p <= numProcesses
        invariant forall k :: 0 <= k < p ==> processInfo[k].pid != pid
      {
        p := p + 1;
      }
    }

    method RegisterMask(owner: nat, mask: Mask) returns (code: Code)
      requires owner < |processInfo|
      modifies `freeMask, `processInfo
      ensures (View(), code) == Register(old(View()), owner, mask)
    {
      if mask == {} || allowCpuSharing { return Success; }
      if mask <= freeMask {
        freeMask := freeMask - mask;
        var p := processInfo[owner];
        processInfo := processInfo[owner := p.(future := p.future + mask, stolen := p.stolen - mask, dirty := true)];
        code := Success;
      } else {
        code := ErrPerm;
      }
    }

    method StealMask(owner: nat, mask: Mask, dryRun: bool) returns (code: Code)
      requires owner < |processInfo| && numProcesses <= |processInfo|
      modifies `processInfo
      ensures (View(), code) == Steal(old(View()), owner, mask, dryRun)
    {
      if mask == {} { return Success; }
      ghost var before := processInfo;
      var left;
      left, code := RobVictims(owner, mask, dryRun);
      if code == Success && left != {} {
        code := ErrPerm;
      }
      if dryRun {
        DryScanKeeps(before, numProcesses, owner, mask, 0, mask);
      } else if code == Success {
        var p := processInfo[owner];
        processInfo := processInfo[owner := p.(future := p.future + mask, stolen := p.stolen - mask, dirty := true)];
      } else {
        RollBack(owner, mask);
      }
    }

    /** Take the mask from the other processes, one by one. */
    method RobVictims(owner: nat, mask: Mask, dryRun: bool) returns (left: Mask, code: Code)
      requires owner < |processInfo| && numProcesses <= |processInfo|
      modifies `processInfo
      ensures StealScan(old(processInfo), numProcesses, owner, mask, dryRun, 0, mask) == Scan(processInfo, left, code)
    {
      left, code := mask, Success;
      var p := 0;
      while p < numProcesses
        invariant p <= numProcesses <= |processInfo|
        invariant StealScan(old(processInfo), numProcesses, owner, mask, dryRun, 0, mask) ==
          StealScan(processInfo, numProcesses, owner, mask, dryRun, p, left)
      {
        var victim := processInfo[p];
        if p != owner && victim.pid != NOBODY {
          var target := victim.current * mask;
          if target != {} {
            if victim.dirty {
              return left, ErrPerm;
            }
            if !dryRun {
              processInfo := processInfo[p := victim.(dirty := true, future := victim.current - target,
                                                      stolen := victim.stolen + target)];
            }
            left := left - target;
            if left == {} {
              return;
            }
          }
        }
        p := p + 1;
      }
    }

    method RollBack(owner: nat, mask: Mask)
      requires numProcesses <= |processInfo|
      modifies `processInfo
      ensures processInfo == RolledBack(old(processInfo), numProcesses, owner, mask)
    {
      var p := 0;
      while p < numProcesses
        invariant p <= numProcesses && |processInfo| == |old(processInfo)|
        invariant forall i :: 0 <= i < |processInfo| ==>
          processInfo[i] == if i < p && i != owner then Restored(old(processInfo)[i], mask) else old(processInfo)[i]
      {
        var victim := processInfo[p];
        if p != owner && victim.pid != NOBODY {
          var back := victim.stolen * mask;
          if back != {} {
            var future := victim.future + back;
            processInfo := processInfo[p := victim.(future := future, stolen := victim.stolen - back,
                                                    dirty := victim.current != future)];
          }
        }
        p := p + 1;
      }
    }

    method UnregisterMask(owner: nat, mask: Mask, returnStolen: bool)
      requires owner < |processInfo| && numProcesses <= |processInfo|
      modifies `freeMask, `processInfo
      ensures View() == Unregister(old(View()), owner, mask, returnStolen)
    {
      if mask == {} || allowCpuSharing { return; }
      if returnStolen {
        var c := 0;
        while c < maxCpus
          invariant c <= maxCpus && |processInfo| == |old(processInfo)|
          invariant GiveBackFrom(old(View()), owner, mask, 0) == GiveBackFrom(View(), owner, mask, c)
        {
          if c in mask {
            GiveBackCpu(owner, c);
          }
          c := c + 1;
        }
      } else {
        freeMask := freeMask + mask;
        var p := processInfo[owner];
        processInfo := processInfo[owner := p.(future := p.future - mask, dirty := true)];
      }
    }

    method GiveBackCpu(owner: nat, c: nat)
      requires owner < |processInfo| && numProcesses <= |processInfo|
      modifies `freeMask, `processInfo
      ensures View() == GiveBack(old(View()), owner, c)
    {
      var p := 0;
      while p < numProcesses && (processInfo[p].pid == NOBODY || c !in processInfo[p].stolen)
        invariant p <= numProcesses
        invariant Receiver(processInfo, numProcesses, c) == Receiver(processInfo, numProcesses, c, p)
      {
        p := p + 1;
      }
      if p == numProcesses {
        freeMask := freeMask + {c};
      } else {
        var process := processInfo[p];
        processInfo := processInfo[p := process.(future := process.future + {c}, stolen := process.stolen - {c}, dirty := true)];
      }
      var q := processInfo[owner];
      processInfo := processInfo[owner := q.(future := q.future - {c}, dirty := true)];
    }

    /** Split a requested mask by what has to be done for each CPU. */
    method Classify(i: nat, mask: Mask) returns (toAcquire: Mask, toSteal: Mask, toFree: Mask)
      requires i < |processInfo|
      ensures toAcquire == ToAcquire(View(), mask)
      ensures toSteal == ToSteal(View(), i, mask) && toFree == ToFree(View(), i, mask)
    {
      toAcquire, toSteal, toFree := {}, {}, {};
      var current := processInfo[i].current;
      var c := 0;
      while c < maxCpus
        invariant c <= maxCpus
        invariant toAcquire == InRange(mask * freeMask, c)
        invariant toSteal == InRange(mask - freeMask - current, c)
        invariant toFree == InRange(current - mask, c)
      {
        if c in mask {
          if c in freeMask {
            toAcquire := toAcquire + {c};
          } else if c !in current {
            toSteal := toSteal + {c};
          }
        } else if c in current {
          toFree := toFree + {c};
        }
        c := c + 1;
      }
    }

    method SetNewMask(i: nat, mask: Mask, returnStolen: bool) returns (code: Code, freed: Mask)
      requires i < |processInfo| && numProcesses <= |processInfo|
      modifies `freeMask, `processInfo
      ensures (View(), code) == ProcinfoSpec.SetNewMask(old(View()), i, mask, returnStolen)
      ensures freed == if code == Success then ToFree(old(View()), i, mask) else {}
    {
      hide Steal, Register, Unregister, ToSteal, ToAcquire, ToFree;
      if allowCpuSharing { return ErrNoComp, {}; }
      freed := {};
      var toAcquire, toSteal, toFree := Classify(i, mask);
      code := StealMask(i, toSteal, true);
      StealDry(old(View()), i, toSteal);
      if code == Success {
        code := StealMask(i, toSteal, false);
        if code == Success {
          code := RegisterMask(i, toAcquire);
          if code == Success {
            UnregisterMask(i, toFree, returnStolen);
            freed := toFree;
          }
        }
      }
    }

    /** shmem_procinfo__setprocessmask on the process found in slot i, and on the caller's own slot. */
    method SetProcessMask(i: nat, mask: Mask, returnStolen: bool) returns (code: Code)
      requires i < |processInfo| && numProcesses <= |processInfo|
      modifies `freeMask, `processInfo
      ensures (View(), code) == SetMask(old(View()), i, mask, returnStolen)
    {
      hide ProcinfoSpec.SetNewMask;
      if processInfo[i].pid == NOBODY { return ErrNoProc; }
      if processInfo[i].dirty { return ErrPDirty; }
      var freed;
      code, freed := SetNewMask(i, mask, returnStolen);
    }

    method SetProcessMaskSelf(i: nat, mask: Mask, returnStolen: bool, noSync: bool) returns (code: Code)
      requires i < |processInfo| && numProcesses <= |processInfo|
      modifies `freeMask, `processInfo
      ensures (View(), code) == SetMaskSelf(old(View()), i, mask, returnStolen, noSync)
    {
      hide ProcinfoSpec.SetNewMask;
      if processInfo[i].pid == NOBODY { return ErrNoProc; }
      if !processInfo[i].dirty || mask == processInfo[i].future {
        var freed;
        code, freed := SetNewMask(i, mask, returnStolen);
      } else {
        code := ErrPDirty;
      }
      if code == Success && !noSync {
        processInfo := processInfo[i := processInfo[i].(current := processInfo[i].future, dirty := false)];
      }
    }

    /** shmem_procinfo__polldrom */
    method PollDrom(i: nat) returns (code: Code, mask: Mask)
      requires i < |processInfo|
      modifies `processInfo
      ensures (View(), code) == (Poll(old(View()), i, Success, NoUpdt).0, Poll(old(View()), i, Success, NoUpdt).1)
      ensures code == Success ==> mask == processInfo[i].current == old(processInfo[i].future)
    {
      mask := {};
      if processInfo[i].pid == NOBODY { return ErrNoProc, mask; }
      if !processInfo[i].dirty { return NoUpdt, mask; }
      mask := processInfo[i].future;
      processInfo := processInfo[i := processInfo[i].(current := mask, dirty := false)];
      code := Success;
    }

    /** shmem_procinfo__getprocessmask_self */
    method GetProcessMaskSelf(i: nat) returns (code: Code, mask: Mask)
      requires i < |processInfo|
      modifies `processInfo
      ensures (View(), code, mask) == Poll(old(View()), i, Noted, Success)
    {
      if processInfo[i].pid == NOBODY { return ErrNoProc, {}; }
      if processInfo[i].dirty {
        mask, code := processInfo[i].future, Noted;
        processInfo := processInfo[i := processInfo[i].(current := mask, dirty := false)];
      } else {
        mask, code := processInfo[i].current, Success;
      }
    }

    method RecoverStolenCpus(i: nat) returns (code: Code)
      requires i < |processInfo|
      modifies `freeMask, `processInfo
      ensures (View(), code) == Recover(old(View()), i)
    {
      if processInfo[i].pid == NOBODY { return ErrNoProc; }
      if processInfo[i].stolen == {} { return NoUpdt; }
      var recovered := processInfo[i].stolen * freeMask;
      code := RegisterMask(i, recovered);
      if code == Success {
        processInfo := processInfo[i := processInfo[i].(stolen := processInfo[i].stolen - recovered)];
      }
    }

    method FinalizeProcess(i: nat, returnStolen: bool) returns (code: Code)
      requires i < |processInfo| && numProcesses <= |processInfo|
      modifies `freeMask, `processInfo
      ensures (View(), code) == Finalize(old(View()), i, returnStolen)
    {
      hide Unregister;
      if processInfo[i].pid == NOBODY { return ErrNoProc; }
      UnregisterMask(i, if processInfo[i].dirty then processInfo[i].future else processInfo[i].current, returnStolen);
      processInfo := processInfo[i := EMPTY];
      code := Success;
    }

    method PreinitProcess(pid: nat, mask: Mask, steal: bool, returnStolen: bool) returns (code: Code)
      requires numProcesses <= |processInfo|
      modifies `freeMask, `processInfo, `numProcesses
      ensures (View(), code) == Preinit(old(View()), pid, mask, steal, returnStolen)
    {
      hide ProcinfoSpec.SetNewMask, Register;
      var p := 0;
      while p < |processInfo| && processInfo[p].pid != pid && processInfo[p].pid != NOBODY
        invariant p <= |processInfo|
        invariant PreinitSlot(processInfo, pid) == PreinitSlot(processInfo, pid, p)
      {
        p := p + 1;
      }
      if p == |processInfo| { return ErrNoMem; }
      if processInfo[p].pid == pid { return ErrInit; }
      processInfo := processInfo[p := EMPTY.(pid := pid, prereg := true)];
      if steal {
        var freed;
        code, freed := SetNewMask(p, mask, returnStolen);
      } else {
        code := RegisterMask(p, mask);
      }
      if code != Success {
        processInfo := processInfo[p := processInfo[p].(pid := NOBODY)];
        return;
      }
      processInfo := processInfo[p := processInfo[p].(current := mask, future := mask, dirty := false)];
      if p == numProcesses {
        numProcesses := numProcesses + 1;
      }
    }

    /** The scan of shmem_procinfo__init_ over the registered processes. */
    method FindSpots(pid: nat, preinitPid: nat) returns (spot: nat, pre: nat, clash: bool)
      requires numProcesses <= |processInfo|
      ensures InitScan(processInfo, numProcesses, pid, preinitPid, 0, numProcesses, numProcesses) ==
        if clash then Clash else Found(spot, pre)
    {
      spot, pre, clash := numProcesses, numProcesses, false;
      var p := 0;
      while p < numProcesses
        invariant p <= numProcesses && !clash
        invariant SpotOk(processInfo, numProcesses, spot) && PreOk(processInfo, numProcesses, preinitPid, pre)
        invariant p < numProcesses ==> spot == numProcesses || (preinitPid != NOBODY && pre == numProcesses)
        invariant InitScan(processInfo, numProcesses, pid, preinitPid, 0, numProcesses, numProcesses) ==
          InitScan(processInfo, numProcesses, pid, preinitPid, p, spot, pre)
      {
        if spot == numProcesses && processInfo[p].pid == NOBODY {
          spot := p;
        } else if preinitPid != NOBODY && pre == numProcesses && processInfo[p].pid == preinitPid {
          pre := p;
          if !processInfo[p].prereg {
            clash := true;
            return;
          }
        } else if processInfo[p].pid == pid {
          clash := true;
          return;
        }
        if spot < numProcesses && (preinitPid == NOBODY || pre < numProcesses) {
          return;
        }
        p := p + 1;
      }
    }

    method InitProcess(pid: nat, preinitPid: nat, mask: Mask, sharing: bool) returns (code: Code)
      requires numProcesses <= |processInfo|
      modifies `freeMask, `processInfo, `numProcesses
      ensures (View(), code) == Init(old(View()), pid, preinitPid, mask, sharing)
    {
      hide InitScan, Inherit, FreshInit;
      if allowCpuSharing != sharing { return ErrNoComp; }
      var spot, pre, clash := FindSpots(pid, preinitPid);
      if clash { return ErrInit; }
      if pre == numProcesses {
        if spot == |processInfo| { return ErrNoMem; }
        code := InitFresh(spot, pid, mask);
        if spot == numProcesses {
          numProcesses := numProcesses + 1;
        }
      } else {
        var slot;
        code, slot := InheritSlot(pre, spot, pid, mask);
        if code == Noted && slot == numProcesses {
          numProcesses := numProcesses + 1;
        }
      }
    }

    method InitFresh(e: nat, pid: nat, mask: Mask) returns (code: Code)
      requires e < |processInfo|
      modifies `freeMask, `processInfo
      ensures (View(), code) == FreshInit(old(View()), e, pid, mask)
    {
      processInfo := processInfo[e := EMPTY.(pid := pid)];
      code := RegisterMask(e, mask);
      if code == Success {
        processInfo := processInfo[e := processInfo[e].(current := mask, future := mask, dirty := false)];
      } else {
        processInfo := processInfo[e := processInfo[e].(pid := NOBODY)];
      }
    }

    method InheritSlot(i: nat, e: nat, pid: nat, mask: Mask) returns (code: Code, slot: nat)
      requires i < |processInfo| && e <= |processInfo| && i != e
      modifies `freeMask, `processInfo
      ensures (View(), code, slot) == Inherit(old(View()), i, e, pid, mask)
    {
      var pre := processInfo[i];
      var preMask := if pre.dirty then pre.future else pre.current;
      if mask == {} || mask == preMask {
        processInfo := processInfo[i := pre.(pid := pid, prereg := false)];
        return Noted, i;
      }
      if preMask < mask {
        if pre.dirty { return ErrPDirty, i; }
        code := TakeFree(mask - preMask);
        if code != Success { return ErrPerm, i; }
        processInfo := processInfo[i := pre.(pid := pid, prereg := false, current := mask, future := mask)];
        return Noted, i;
      }
      if pre.dirty { return ErrPDirty, e; }
      if e == |processInfo| { return ErrNoMem, e; }
      if mask < preMask {
        processInfo := processInfo[e := EMPTY.(pid := pid, current := mask, future := mask)];
      } else {
        code := TakeFree(mask - preMask);
        if code != Success { return ErrPerm, e; }
        processInfo := processInfo[e := processInfo[e].(pid := pid, prereg := false, current := mask, future := mask)];
      }
      processInfo := processInfo[i := pre.(current := pre.current - mask, future := pre.future - mask)];
      return Noted, e;
    }

    /** register_mask for a placeholder process */
    method TakeFree(mask: Mask) returns (code: Code)
      modifies `freeMask
      ensures (View(), code) == Placeholder(old(View()), mask)
    {
      if mask == {} || allowCpuSharing { return Success; }
      if !(mask <= freeMask) { return ErrPerm; }
      freeMask := freeMask - mask;
      code := Success;
    }
  }

  lemma {:induction false} DryScanKeeps(procs: seq<Proc>, num: nat, owner: nat, mask: Mask, p: nat, left: Mask)
    requires p <= num <= |procs|
    ensures StealScan(procs, num, owner, mask, true, p, left).procs == procs
    decreases num - p
  {
    if p < num {
      DryScanKeeps(procs, num, owner, mask, p + 1, left);
      DryScanKeeps(procs, num, owner, mask, p + 1, left - procs[p].current * mask);
    }
  }

  lemma StealDry(s: Shared, owner: nat, mask: Mask)
    requires owner < |s.procs| && s.num <= |s.procs|
    ensures Steal(s, owner, mask, true).0 == s
  {
  }
}
