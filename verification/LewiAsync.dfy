/** The shared table of asynchronous LeWI, updated in place under its lock
    (src/LB_comm/shmem_lewi_async.c), and the per-process policy that drives it
    (src/LB_policies/lewi_async.c). */
module LewiAsync {
  import opened Codes
  import opened LewiQueue
  import opened LewiPop
  import opened LewiAsyncSpec
  import opened LewiAsyncRuns

  class SharedTable {
    var idleCpus: nat
    var attachedNprocs: nat
    var requests: seq<Request>
    var procListHead: nat
    var processes: seq<Process>

    function View(): Shared
      reads this
    {
      Shared(idleCpus, attachedNprocs, requests, procListHead, processes)
    }

    constructor (capacity: nat)
      ensures View() == Start(capacity)
    {
      idleCpus, attachedNprocs, requests, procListHead := 0, 0, [], 0;
      processes := seq(capacity, _ => FREE_SLOT);
    }

    /** get_process; the length of the list stands for the null pointer. */
    method GetProcess(pid: nat) returns (p: nat)
      requires HeadBounds(processes, procListHead) && pid != NOBODY
      ensures p == Slot(processes, pid)
    {
      p := 0;
      while p < procListHead
        invariant 0 <= p <= procListHead
        invariant forall k :: 0 <= k < p ==> processes[k].pid != pid
      {
        if processes[p].pid == pid { return; }
        p := p + 1;
      }
      p := |processes|;
    }

    method Init(pid: nat, ncpus: nat, sameSize: bool) returns (code: Code)
      requires Valid(View())
      modifies this
      ensures (View(), code) == LewiAsyncRuns.Init(old(View()), pid, ncpus, sameSize)
    {
      code := Success;
      attachedNprocs := attachedNprocs + 1;
      if attachedNprocs == 1 {
        idleCpus := 0;
        requests := [];
      } else if !sameSize {
        code := ErrInit;
      }
      if code == Success {
        var p := 0;
        while p < |processes| && processes[p].pid != NOBODY
          invariant 0 <= p <= |processes|
          invariant forall k :: 0 <= k < p ==> processes[k].pid != NOBODY
        {
          p := p + 1;
        }
        if p < |processes| {
          procListHead := Max(procListHead, p + 1);
          processes := processes[p := Process(pid, ncpus, ncpus)];
        } else {
          code := ErrNoMem;
        }
      }
      if code != Success {
        attachedNprocs := attachedNprocs - 1;
      }
    }

    method LendNcpusToShmem(ncpus: nat, max: nat) returns (out: seq<Request>)
      requires Valid(View())
      modifies this
      ensures (View(), out) == LendNcpus(old(View()), ncpus, max)
    {
      if |requests| == 0 {
        idleCpus := idleCpus + ncpus;
        return [];
      }
      hide Pop, Grant, Announce, UniquePids, HeadBounds, FreeSlotsClear, AllRegistered, Occupied;
      PopMeetsContract(requests, ncpus, max);
      SubsetRegistered(processes, requests, Pop(requests, ncpus, max).out);
      var rest;
      requests, out, rest := PopNcpus(requests, ncpus, max);
      idleCpus := idleCpus + rest;
      out := GrantAll(out);
    }

    /** Add every resolved request to its process, and announce the new totals. */
    method GrantAll(resolved: seq<Request>) returns (out: seq<Request>)
      requires UniquePids(processes) && HeadBounds(processes, procListHead)
      requires Keyed(resolved) && AllRegistered(processes, resolved)
      modifies `processes
      ensures processes == Grant(old(processes), resolved) && out == Announce(processes, resolved)
    {
      hide Grant, UniquePids, HeadBounds, CurrentOf;
      out := resolved;
      var i := 0;
      GrantNone(processes);
      while i < |out|
        invariant 0 <= i <= |out| == |resolved|
        invariant processes == Grant(old(processes), resolved[..i])
        invariant forall k :: 0 <= k < i ==>
          out[k] == Request(resolved[k].pid, CurrentOf(processes, resolved[k].pid))
        invariant forall k :: i <= k < |out| ==> out[k] == resolved[k]
      {
        var pid := out[i].pid;
        ghost var was := processes;
        GrantedSlots(old(processes), resolved[..i], procListHead, pid);
        var target := GetProcess(pid);
        var total := processes[target].current + out[i].howmany;
        GrantSnoc(old(processes), resolved[..i], resolved[i]);
        assert resolved[..i + 1] == resolved[..i] + [resolved[i]];
        processes := processes[target := processes[target].(current := total)];
        OthersKept(was, target, total);
        out := out[i := Request(pid, total)];
        i := i + 1;
      }
      assert resolved[..i] == resolved;
    }

    method ReclaimFromShmem(process: nat, ncpus: nat, max: nat) returns (out: seq<Request>, code: Code)
      requires Valid(View()) && process < |processes|
      modifies this
      ensures (View(), out, code) == ReclaimFrom(old(View()), process, ncpus, max)
    {
      hide Pop, Surplus, Take, Requeue, Announce, FreeSlotsClear, Occupied, Covers, AllRegistered;
      var surplus := CollectSurplus();
      VictimsTotal(View(), ncpus, max);
      VictimsAreCovered(View(), ncpus, max);
      var left, rest;
      left, out, rest := PopNcpus(surplus, ncpus, max);
      if rest != 0 { return out, ErrReqst; }
      code := Success;
      out := TakeAll(out);
      processes := processes[process := processes[process].(current := processes[process].current + ncpus)];
    }

    /** Subtract every share from its victim, queue the victim again, announce the totals. */
    method TakeAll(shares: seq<Request>) returns (out: seq<Request>)
      requires UniquePids(processes) && HeadBounds(processes, procListHead) && Packed(requests)
      requires Keyed(shares) && Positive(shares) && AllRegistered(processes, shares)
      requires Covers(processes, shares)
      modifies `processes, `requests
      ensures processes == Take(old(processes), shares) && requests == Requeue(old(requests), shares)
      ensures out == Announce(processes, shares)
    {
      hide Take, UniquePids, HeadBounds, CurrentOf, Covers, Push, Packed;
      out := shares;
      var i := 0;
      TakeNone(processes);
      while i < |out|
        invariant 0 <= i <= |out| == |shares|
        invariant processes == Take(old(processes), shares[..i])
        invariant requests == Requeue(old(requests), shares[..i]) && Packed(requests)
        invariant forall k :: 0 <= k < i ==>
          out[k] == Request(shares[k].pid, CurrentOf(processes, shares[k].pid))
        invariant forall k :: i <= k < |out| ==> out[k] == shares[k]
      {
        var pid, howmany := out[i].pid, out[i].howmany;
        ghost var was := processes;
        TakenSlots(old(processes), shares, i, procListHead);
        var target := GetProcess(pid);
        var total := processes[target].current - howmany;
        processes := processes[target := processes[target].(current := total)];
        OthersKept(was, target, total);
        assert shares[..i + 1][..i] == shares[..i];
        PushAdds(requests, pid, howmany);
        var ignored;
        requests, ignored := QueuePush(requests, pid, howmany);
        out := out[i := Request(pid, total)];
        i := i + 1;
      }
      assert shares[..i] == shares;
    }

    method CollectSurplus() returns (surplus: seq<Request>)
      requires Valid(View())
      ensures surplus == Surplus(processes, |processes|)
    {
      hide Push, UniquePids, FreeSlotsClear, Occupied, AllRegistered, SurplusCount, SurplusSum, Total;
      surplus := [];
      var p := 0;
      while p < procListHead
        invariant 0 <= p <= procListHead
        invariant surplus == Surplus(processes, p) && Packed(surplus)
      {
        var target := processes[p];
        if target.pid != NOBODY && target.current > target.initial {
          SurplusIsListed(processes, p + 1);
          var ignored;
          surplus, ignored := QueuePush(surplus, target.pid, target.current - target.initial);
        }
        p := p + 1;
      }
      NoSurplusBeyond(processes, procListHead, |processes|);
    }

    method ResetProcess(process: nat, max: nat) returns (reply: Reply)
      requires Valid(View()) && process < |processes| && processes[process].pid != NOBODY
      modifies this
      ensures (View(), reply) == LewiAsyncRuns.ResetProcess(old(View()), process, max)
    {
      hide Remove, LendNcpus, ReclaimFrom, Amount;
      hide UniquePids, FreeSlotsClear, HeadBounds, AllRegistered, Occupied;
      var p := processes[process];
      RemoveKeeps(View(), p.pid);
      var prevRequested, out, code := 0, [], NoUpdt;
      requests, prevRequested := QueueRemove(requests, p.pid);
      if p.current > p.initial {
        var ncpusToLend := p.current - p.initial;
        SetCurrentKeeps(View(), process, p.initial);
        processes := processes[process := p.(current := p.initial)];
        prevRequested := prevRequested + ncpusToLend;
        out := LendNcpusToShmem(ncpusToLend, max);
        code := Success;
      } else if p.current < p.initial {
        out, code := BorrowOrReclaim(process, p.initial - p.current, max);
      }
      reply := Reply(code, 0, out, prevRequested);
    }

    /** The sequence "borrow first, reclaim later" of reset_process and reclaim. */
    method BorrowOrReclaim(process: nat, wanted: nat, max: nat) returns (out: seq<Request>, code: Code)
      requires Valid(View()) && process < |processes| && processes[process].pid != NOBODY
      modifies this
      ensures (View(), out, code) == BorrowThenReclaim(old(View()), process, wanted, max)
    {
      hide ReclaimFrom, Valid;
      out, code := [], NoUpdt;
      BorrowKeeps(View(), process, wanted);
      var toBorrow := Min(idleCpus, wanted);
      BorrowNothing(View(), process, wanted);
      if toBorrow > 0 {
        idleCpus := idleCpus - toBorrow;
        processes := processes[process := processes[process].(current := processes[process].current + toBorrow)];
        code := Success;
      }
      ValidOf(old(View()), View());
      if wanted - toBorrow > 0 {
        out, code := ReclaimFromShmem(process, wanted - toBorrow, max);
      }
    }

    method Finalize(pid: nat, max: nat) returns (reply: Reply)
      requires Valid(View()) && pid != NOBODY
      modifies this
      ensures (View(), reply) == LewiAsyncRuns.Finalize(old(View()), pid, max)
    {
      hide LewiAsyncRuns.ResetProcess, UniquePids, FreeSlotsClear, AllRegistered, Slot;
      reply := NoReply(NoUpdt);
      var process := GetProcess(pid);
      if process < |processes| {
        ResetKeeps(View(), process, max);
        AttachedPositive(processes, process);
        var newNcpus := processes[process].initial;
        var r := ResetProcess(process, max);
        AttachedPositive(processes, process);
        processes := processes[process := FREE_SLOT];
        attachedNprocs := attachedNprocs - 1;
        reply := Reply(r.code, newNcpus, r.out, 0);
      }
    }

    /** The lending branch common to lend_cpus and lend_keep_cpus. */
    method LendOwn(process: nat, ncpus: nat, max: nat) returns (reply: Reply)
      requires Valid(View()) && process < |processes| && processes[process].pid != NOBODY
      requires ncpus <= processes[process].current
      modifies this
      ensures (View(), reply) == Lend(old(View()), process, ncpus, max)
    {
      hide Remove, LendNcpus, Valid, Amount;
      var p := processes[process];
      var notOwned := if p.current > p.initial then Min(p.current - p.initial, ncpus) else 0;
      RemoveKeeps(View(), p.pid);
      ValidQueue(View());
      var queued;
      requests, queued := QueueRemove(requests, p.pid);
      ValidOf(old(View()), View());
      SetCurrentKeeps(View(), process, p.current - ncpus);
      processes := processes[process := p.(current := p.current - ncpus)];
      var out := LendNcpusToShmem(ncpus, max);
      reply := Reply(Success, p.current - ncpus, out, notOwned + queued);
    }

    method LendCpus(pid: nat, ncpus: nat, max: nat) returns (reply: Reply)
      requires Valid(View()) && pid != NOBODY
      modifies this
      ensures (View(), reply) == LewiAsyncRuns.LendCpus(old(View()), pid, ncpus, max)
    {
      var process := GetProcess(pid);
      if process == |processes| { return NoReply(ErrNoProc); }
      if ncpus == 0 { return NoReply(NoUpdt); }
      if ncpus > processes[process].current { return NoReply(ErrPerm); }
      reply := LendOwn(process, ncpus, max);
    }

    method LendKeepCpus(pid: nat, newNcpus: nat, max: nat) returns (reply: Reply)
      requires Valid(View()) && pid != NOBODY
      modifies this
      ensures (View(), reply) == LewiAsyncRuns.LendKeepCpus(old(View()), pid, newNcpus, max)
    {
      var process := GetProcess(pid);
      if process == |processes| { return NoReply(ErrNoProc); }
      if newNcpus > processes[process].current { return NoReply(ErrPerm); }
      if newNcpus == processes[process].current { return NoReply(NoUpdt); }
      reply := LendOwn(process, processes[process].current - newNcpus, max);
    }

    method Reclaim(pid: nat, max: nat, prevRequested: nat) returns (reply: Reply)
      requires Valid(View()) && pid != NOBODY
      modifies this
      ensures (View(), reply) == LewiAsyncRuns.Reclaim(old(View()), pid, max, prevRequested)
    {
      hide BorrowThenReclaim, UniquePids, FreeSlotsClear, AllRegistered, Occupied, Push, Slot;
      var process := GetProcess(pid);
      if process == |processes| { return NoReply(ErrNoProc); }
      var p := processes[process];
      if p.current >= p.initial { return Reply(NoUpdt, p.current, [], 0); }
      BorrowThenReclaimKeeps(View(), process, p.initial - p.current, max);
      SameProcs(View(), process, p.initial - p.current, max);
      var out, code := BorrowOrReclaim(process, p.initial - p.current, max);
      var previous := prevRequested;
      BorrowNothing(View(), process, previous);
      if previous > 0 {
        var available := Min(idleCpus, previous);
        if available > 0 {
          idleCpus := idleCpus - available;
          processes := processes[process := processes[process].(current := processes[process].current + available)];
          previous := previous - available;
        }
        if previous > 0 {
          var ignored;
          requests, ignored := QueuePush(requests, pid, previous);
        }
      }
      reply := Reply(code, CurrentOf(processes, pid), out, 0);
    }

    method AcquireCpus(pid: nat, ncpus: nat, max: nat) returns (reply: Reply)
      requires Valid(View()) && pid != NOBODY
      modifies this
      ensures (View(), reply) == LewiAsyncRuns.AcquireCpus(old(View()), pid, ncpus, max)
    {
      hide ReclaimFrom, UniquePids, FreeSlotsClear, AllRegistered, Occupied, Push, Slot;
      if ncpus == 0 { return NoReply(NoUpdt); }
      var process := GetProcess(pid);
      if process == |processes| { return NoReply(ErrNoProc); }
      var wanted, code, out := ncpus, NoUpdt, [];
      BorrowKeeps(View(), process, wanted);
      BorrowNothing(View(), process, wanted);
      var toBorrow := Min(idleCpus, wanted);
      if toBorrow > 0 {
        idleCpus := idleCpus - toBorrow;
        processes := processes[process := processes[process].(current := processes[process].current + toBorrow)];
        wanted := wanted - toBorrow;
        code := Success;
      }
      var p := processes[process];
      var toReclaim := Min(wanted, if p.initial > p.current then p.initial - p.current else 0);
      if toReclaim > 0 {
        ReclaimKeeps(View(), process, toReclaim, max);
        out, code := ReclaimFromShmem(process, toReclaim, max);
        if code == Success {
          wanted := wanted - toReclaim;
        }
      }
      if wanted > 0 {
        var ignored;
        requests, ignored := QueuePush(requests, pid, wanted);
        code := Noted;
      }
      reply := Reply(code, CurrentOf(processes, pid), out, 0);
    }

    method BorrowCpus(pid: nat, ncpus: nat) returns (reply: Reply)
      requires Valid(View()) && pid != NOBODY
      modifies this
      ensures (View(), reply) == LewiAsyncRuns.BorrowCpus(old(View()), pid, ncpus)
    {
      var process := GetProcess(pid);
      if process == |processes| { return NoReply(ErrNoProc); }
      BorrowNothing(View(), process, ncpus);
      var toBorrow := Min(idleCpus, ncpus);
      var code := NoUpdt;
      if toBorrow > 0 {
        idleCpus := idleCpus - toBorrow;
        processes := processes[process := processes[process].(current := processes[process].current + toBorrow)];
        code := Success;
      }
      reply := Reply(code, processes[process].current, [], 0);
    }

    method Reset(pid: nat, max: nat) returns (reply: Reply)
      requires Valid(View()) && pid != NOBODY
      modifies this
      ensures (View(), reply) == LewiAsyncRuns.Reset(old(View()), pid, max)
    {
      hide LewiAsyncRuns.ResetProcess, UniquePids, FreeSlotsClear, AllRegistered, Occupied;
      var process := GetProcess(pid);
      if process == |processes| { return NoReply(ErrNoProc); }
      if processes[process].initial == processes[process].current {
        return Reply(NoUpdt, processes[process].current, [], 0);
      }
      reply := ResetProcess(process, max);
      reply := reply.(newCpus := CurrentOf(processes, pid));
    }

    method RemoveRequests(pid: nat)
      requires Valid(View()) && pid != NOBODY
      modifies this
      ensures View() == LewiAsyncRuns.RemoveRequests(old(View()), pid)
    {
      var ignored;
      requests, ignored := QueueRemove(requests, pid);
    }
  }

  /** The private data of a process: the CPUs it had requested before it lent everything. */
  class Policy {
    var prevRequested: nat
    const id: nat
    const nodeSize: nat
    const shared: SharedTable

    constructor (id: nat, nodeSize: nat, shared: SharedTable)
      ensures this.id == id && this.nodeSize == nodeSize && this.shared == shared && prevRequested == 0
    {
      this.id, this.nodeSize, this.shared, prevRequested := id, nodeSize, shared, 0;
    }

    /** lewi_async_Lend_keep_cpus: a positive prev_requested is kept for the next reclaim. */
    method LendKeepCpus(newNcpus: nat) returns (reply: Reply)
      requires Valid(shared.View()) && id != NOBODY
      modifies this, shared
      ensures (shared.View(), reply) == LewiAsyncRuns.LendKeepCpus(old(shared.View()), id, newNcpus, nodeSize)
      ensures prevRequested == if reply.code == Success && reply.prev > 0 then reply.prev else old(prevRequested)
    {
      reply := shared.LendKeepCpus(id, newNcpus, nodeSize);
      if reply.code == Success {
        if reply.prev > 0 {
          prevRequested := reply.prev;
        }
      }
    }

    /** lewi_async_Reclaim */
    method Reclaim() returns (reply: Reply)
      requires Valid(shared.View()) && id != NOBODY
      modifies this, shared
      ensures (shared.View(), reply) == LewiAsyncRuns.Reclaim(old(shared.View()), id, nodeSize, old(prevRequested))
      ensures prevRequested == if reply.code == Success then 0 else old(prevRequested)
    {
      reply := shared.Reclaim(id, nodeSize, prevRequested);
      if reply.code == Success {
        prevRequested := 0;
      }
    }

    /** Into and out of a blocking call: the table and the saved petition are as before. */
    method BlockAndResume(keep: nat)
      requires Valid(shared.View()) && NoIdleWhilePending(shared.View())
      requires id != NOBODY && Registered(shared.processes, id) && Pids(shared.requests) <= {id}
      requires var p := shared.processes[Slot(shared.processes, id)]; p.current >= p.initial > keep
      requires prevRequested == 0
      modifies this, shared
      ensures shared.View() == old(shared.View()) && prevRequested == 0
    {
      hide LewiAsyncRuns.LendKeepCpus, LewiAsyncRuns.Reclaim;
      LendThenReclaim(shared.View(), id, keep, nodeSize, nodeSize);
      LendStepKeeps(shared.View(), id, keep, nodeSize);
      var lent := LendKeepCpus(keep);
      var back := Reclaim();
    }
  }

  lemma BorrowNothing(s: Shared, i: nat, n: nat)
    requires i < |s.procs|
    ensures Min(s.idle, n) == 0 ==> BorrowIdle(s, i, n) == s
  {
  }

  lemma AttachedPositive(procs: seq<Process>, i: nat)
    requires i < |procs| && procs[i].pid != NOBODY
    ensures Occupied(procs) > 0
  {
    if i < |procs| - 1 { AttachedPositive(procs[..|procs| - 1], i); }
  }

  lemma GrantNone(procs: seq<Process>)
    ensures Grant(procs, []) == procs
  {
  }

  lemma TakeNone(procs: seq<Process>)
    ensures Take(procs, []) == procs
  {
  }

  lemma GrantedSlots(procs: seq<Process>, out: seq<Request>, head: nat, pid: nat)
    requires UniquePids(procs) && HeadBounds(procs, head) && Registered(procs, pid) && pid != NOBODY
    ensures HeadBounds(Grant(procs, out), head) && Slot(Grant(procs, out), pid) == Slot(procs, pid)
  {
    LayoutKeepsSlots(procs, Grant(procs, out), pid);
  }

  ghost predicate SameBut(procs: seq<Process>, r: seq<Process>, pid: nat) {
    forall other :: other != pid ==> CurrentOf(r, other) == CurrentOf(procs, other)
  }

  /** Changing one slot leaves what every other process holds. */
  lemma OthersKept(procs: seq<Process>, i: nat, c: nat)
    requires i < |procs|
    ensures SameBut(procs, procs[i := procs[i].(current := c)], procs[i].pid)
    ensures Slot(procs, procs[i].pid) == i ==> CurrentOf(procs[i := procs[i].(current := c)], procs[i].pid) == c
  {
    var r := procs[i := procs[i].(current := c)];
    forall pid: nat ensures Slot(r, pid) == Slot(procs, pid) {
      LayoutKeepsSlots(procs, r, pid);
    }
  }

  lemma TakenSlots(procs: seq<Process>, out: seq<Request>, i: nat, head: nat)
    requires UniquePids(procs) && HeadBounds(procs, head) && Covers(procs, out)
    requires i < |out| && Keyed(out) && out[i].pid != NOBODY && Registered(procs, out[i].pid)
    ensures var t := Take(procs, out[..i]);
            var k := Slot(procs, out[i].pid);
            && HeadBounds(t, head) && Slot(t, out[i].pid) == k
            && t[k] == procs[k] && out[i].howmany <= procs[k].current
            && Take(procs, out[..i + 1]) == t[k := t[k].(current := t[k].current - out[i].howmany)]
  {
    var t, k, x := Take(procs, out[..i]), Slot(procs, out[i].pid), out[i];
    LayoutKeepsSlots(procs, t, x.pid);
    AmountAt(out, i);
    assert out[..i + 1] == out[..i] + [x];
    assert x.pid !in Pids(out[..i]);
    AmountAbsent(out[..i], x.pid);
    var u, r := Take(procs, out[..i + 1]), t[k := t[k].(current := t[k].current - x.howmany)];
    forall j | 0 <= j < |procs| ensures u[j] == r[j] {
      AmountConcat(out[..i], [x], procs[j].pid);
      AmountSingle(x, procs[j].pid);
    }
  }

  lemma {:induction false} NoSurplusBeyond(procs: seq<Process>, head: nat, n: nat)
    requires HeadBounds(procs, head) && head <= n <= |procs|
    ensures Surplus(procs, n) == Surplus(procs, head)
    decreases n - head
  {
    if n > head { NoSurplusBeyond(procs, head, n - 1); }
  }
}
