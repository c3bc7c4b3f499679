/** The MNGO shared memory, updated in place (src/LB_comm/shmem_mngo.c). Each method is what a manager runs
    between two barriers. */
module Mngo {
  import opened MngoCores
  import R = MngoRedistribute

  class MngoTable {
    const core: seq<nat>
    const attached: seq<bool>
    var availableCpus: Mask
    var coreChange: seq<int>

    constructor (topology: seq<nat>, managers: seq<bool>)
      ensures core == topology && attached == managers
      ensures availableCpus == {} && |coreChange| == |managers|
    {
      core, attached := topology, managers;
      availableCpus, coreChange := {}, seq(|managers|, _ => 0);
    }

    /** mu_get_last_cpu; the size of the node stands for -1. */
    method LastCpu(mask: Mask) returns (c: nat)
      ensures c == LastBelow(mask, |core|)
    {
      var n: nat := |core|;
      while n > 0 && n - 1 !in mask
        invariant n <= |core| && forall d: nat :: n <= d < |core| ==> d !in mask
      {
        n := n - 1;
      }
      c := if n == 0 then |core| else n - 1;
    }

    /** The loop shared by givers and receivers: move k cores from one mask to another, last CPU first. */
    method MoveCores(from: Mask, to: Mask, k: nat) returns (left: Mask, taken: Mask, missing: nat)
      ensures Peeled(taken, left, missing) == Peel(core, from, to, k)
    {
      left, taken, missing := from, to, k;
      while missing > 0
        invariant Peel(core, from, to, k) == Peel(core, left, taken, missing)
      {
        var c := LastCpu(left);
        if c == |core| { return; }
        var group := InCore(core, left, c);
        left := left - group;
        taken := taken + group;
        missing := missing - 1;
      }
    }

    /** shmem_mngo_drom__redistribute before its barrier, for manager i of a node; fatal aborts the process. */
    method Release(selfMask: Mask, delta: int, ghost n: R.Node, ghost i: nat) returns (mask: Mask, fatal: bool)
      requires n.core == core && n.pool == availableCpus && i < |n.managers|
      requires n.managers[i].mask == selfMask && n.managers[i].delta == delta
      modifies `availableCpus
      ensures !fatal ==> R.Release(n, i).pool == availableCpus && R.Release(n, i).managers[i].mask == mask
      ensures fatal <==> delta < 0 && Peel(core, selfMask, {}, -delta).missing > 0
    {
      mask, fatal := selfMask, false;
      if delta < 0 {
        var freed, missing;
        mask, freed, missing := MoveCores(selfMask, {}, -delta);
        if missing > 0 { return mask, true; }
        availableCpus := availableCpus + freed;
      }
    }

    /** shmem_mngo_drom__redistribute after its barrier. */
    method Receive(selfMask: Mask, delta: int, ghost n: R.Node, ghost i: nat) returns (mask: Mask)
      requires n.core == core && n.pool == availableCpus && i < |n.managers|
      requires n.managers[i].mask == selfMask && n.managers[i].delta == delta
      modifies `availableCpus
      ensures R.Receive(n, i).pool == availableCpus && R.Receive(n, i).managers[i].mask == mask
    {
      mask := selfMask;
      if delta > 0 {
        var missing;
        availableCpus, mask, missing := MoveCores(availableCpus, selfMask, delta);
      }
    }

    /** alltoall_deltas_start before its barrier. */
    method Publish(mid: nat, delta: int)
      requires mid < |coreChange|
      modifies `coreChange
      ensures coreChange == old(coreChange)[mid := delta]
    {
      coreChange := coreChange[mid := delta];
    }

    /** alltoall_deltas_finish before its first barrier: the vector that MngoExchange.AllReadTheRound is about. */
    method Collect() returns (deltas: seq<int>)
      requires |coreChange| == |attached|
      ensures |deltas| == |attached|
      ensures forall i :: 0 <= i < |deltas| ==> deltas[i] == if attached[i] then coreChange[i] else 0
    {
      deltas := [];
      var i := 0;
      while i < |attached|
        invariant i <= |attached| && |deltas| == i
        invariant forall k :: 0 <= k < i ==> deltas[k] == if attached[k] then coreChange[k] else 0
      {
        deltas := deltas + [if attached[i] then coreChange[i] else 0];
        i := i + 1;
      }
    }

    /** alltoall_deltas_finish between its barriers. */
    method CleanUp(mid: nat)
      modifies `coreChange
      ensures |coreChange| == |old(coreChange)|
      ensures if mid == 0 then forall i :: 0 <= i < |coreChange| ==> coreChange[i] == 0 else coreChange == old(coreChange)
    {
      if mid == 0 {
        var id := 0;
        while id < |coreChange|
          invariant id <= |coreChange| == |old(coreChange)|
          invariant forall k :: 0 <= k < id ==> coreChange[k] == 0
        {
          coreChange := coreChange[id := 0];
          id := id + 1;
        }
      }
    }
  }
}
