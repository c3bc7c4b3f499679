/** A reclaimed CPU stays reclaimed whatever the other processes do (src/LB_comm/shmem_cpuinfo.c). */
module CpuinfoReclaimed {
  import opened Codes
  import opened CpuinfoSpec
  import opened CpuinfoActs

  ghost predicate ReclaimedBy(s: State, c: nat, p: Pid) {
    Has(s, c) && s.cpus[c].state == Busy && s.cpus[c].owner == p
  }

  /** From a to b, the CPU is still reclaimed by p, and its guest is the same or p itself. */
  ghost predicate StaysWith(a: Cpu, b: Cpu, p: Pid) {
    b.state == Busy && b.owner == p && (b.guest == a.guest || b.guest == p)
  }

  /** What a process other than p may do: the LeWI operations, and a registration that does not steal
      nor inherit from p. The direct deregistration and the transfer of ownership are not among them. */
  ghost predicate ByOther(s: State, pid: Pid, act: Act, p: Pid) {
    pid != p &&
    match act
    case Register(c, pre) => c < |s.cpus| ==> s.cpus[c].owner in {NOBODY, pid, pre} && pre != p
    case Forget(_, _) => false
    case Own(_, _) => false
    case _ => true
  }

  lemma FillOneStays(s: State, c: nat, d: nat, e: nat, p: Pid)
    requires Has(s, c) && d < |s.cpus| && ReclaimedBy(s, e, p)
    ensures StaysWith(s.cpus[e], FillOne(s, c, d).cpus[e], p)
  {
    if d != c && SameCore(s.core, c, d) && s.cpus[d].guest == NOBODY {
      var guest := RefillEffect(s, d);
      hide Refill, CoreIsEligible;
    }
  }

  lemma {:induction false} FillCoreStays(s: State, c: nat, d: nat, e: nat, p: Pid)
    requires Has(s, c) && ReclaimedBy(s, e, p)
    ensures StaysWith(s.cpus[e], FillCore(s, c, d).cpus[e], p)
    decreases |s.cpus| - d
  {
    hide FillOne;
    if d < |s.cpus| {
      FillOneStays(s, c, d, e, p);
      FillCoreStays(FillOne(s, c, d), c, d + 1, e, p);
    }
  }

  lemma RehostStays(s: State, c: nat, e: nat, p: Pid)
    requires Has(s, c) && ReclaimedBy(s, e, p)
    ensures StaysWith(s.cpus[e], Rehost(s, c).cpus[e], p)
    ensures e == c && s.cpus[c].guest == NOBODY ==> Rehost(s, c).cpus[c].guest == p
  {
    if s.cpus[c].guest == NOBODY {
      var guest := RefillEffect(s, c);
      hide Refill, CoreIsEligible, FillCore;
      if guest != NOBODY {
        FillCoreStays(Refill(s, c), c, 0, e, p);
      }
    }
  }

  lemma LendStays(s: State, pid: Pid, c: nat, e: nat, p: Pid)
    requires Has(s, c) && ReclaimedBy(s, e, p) && pid != p
    ensures StaysWith(s.cpus[e], LendCpu(s, pid, c).cpus[e], p)
  {
    if s.cpus[c].state != Disabled {
      hide Rehost, Without, UpdatedOccupied;
      RehostStays(Put(s, c, LetGo(s.cpus[c], pid, s.queues)), c, e, p);
    }
  }

  lemma LeaveStays(s: State, pid: Pid, public: bool, c: nat, e: nat, p: Pid)
    requires Has(s, c) && ReclaimedBy(s, e, p) && pid != p
    ensures StaysWith(s.cpus[e], LeaveCpu(s, pid, public, c).cpus[e], p)
  {
    LendStays(s, pid, c, e, p);
    hide LendCpu;
  }

  lemma OthersStay(s: State, pid: Pid, c: nat, e: nat, p: Pid)
    requires Has(s, c) && ReclaimedBy(s, e, p) && pid != p
    ensures StaysWith(s.cpus[e], ReclaimCpu(s, pid, c).0.cpus[e], p)
    ensures StaysWith(s.cpus[e], AcquireCpu(s, pid, c).0.cpus[e], p)
    ensures StaysWith(s.cpus[e], BorrowCpu(s, pid, c).0.cpus[e], p)
  {
    hide UpdatedOccupied, CoreIsEligible;
  }

  lemma ReturnsStay(s: State, pid: Pid, c: nat, e: nat, p: Pid)
    requires Has(s, c) && ReclaimedBy(s, e, p) && pid != p
    ensures StaysWith(s.cpus[e], ReturnCpu(s, pid, c).0.cpus[e], p)
    ensures StaysWith(s.cpus[e], CpuinfoSpec.ReturnAsync(s, pid, c).cpus[e], p)
    ensures StaysWith(s.cpus[e], CheckCpu(s, pid, c).0.cpus[e], p)
  {
    hide UpdatedOccupied, Keeps;
  }

  lemma ActStays(s: State, pid: Pid, act: Act, e: nat, p: Pid)
    requires ReclaimedBy(s, e, p) && ByOther(s, pid, act, p)
    ensures StaysWith(s.cpus[e], Do(s, pid, act).cpus[e], p)
  {
    hide LendCpu, ReclaimCpu, AcquireCpu, BorrowCpu, ReturnCpu, CpuinfoSpec.ReturnAsync, LeaveCpu, ForgetCpu,
      OwnCpu, CheckCpu;
    hide UpdatedOccupied;
    if !act.Repost? && act.c < |s.cpus| {
      match act
      case Lend(c) => LendStays(s, pid, c, e, p);
      case Reclaim(c) => OthersStay(s, pid, c, e, p);
      case Acquire(c) => OthersStay(s, pid, c, e, p);
      case Borrow(c) => OthersStay(s, pid, c, e, p);
      case Return(c) => ReturnsStay(s, pid, c, e, p);
      case ReturnAsync(c) => ReturnsStay(s, pid, c, e, p);
      case Check(c) => ReturnsStay(s, pid, c, e, p);
      case Leave(c, public) => LeaveStays(s, pid, public, c, e, p);
      case _ =>
    }
  }

  ghost predicate AllByOthers(s: State, steps: seq<Step>, p: Pid)
    requires |s.core| == |s.cpus|
    decreases |steps|
  {
    steps == [] ||
    (ByOther(s, steps[0].pid, steps[0].act, p) && AllByOthers(Do(s, steps[0].pid, steps[0].act), steps[1..], p))
  }

  /** Once p has reclaimed a CPU, no run of the other processes undoes it: the CPU stays busy and owned
      by p, and from the moment p is its guest it stays so. */
  lemma {:induction false} ReclaimIsStable(s: State, steps: seq<Step>, e: nat, p: Pid)
    requires ReclaimedBy(s, e, p) && AllByOthers(s, steps, p)
    ensures StaysWith(s.cpus[e], Run(s, steps).cpus[e], p)
    ensures s.cpus[e].guest == p ==> Run(s, steps).cpus[e].guest == p
    decreases |steps|
  {
    if steps != [] {
      ActStays(s, steps[0].pid, steps[0].act, e, p);
      hide Do;
      ReclaimIsStable(Do(s, steps[0].pid, steps[0].act), steps[1..], e, p);
    }
  }

  /** Reclaiming an owned CPU makes it so, and a reclaimed CPU leaves its guest at the next return. */
  lemma ReclaimThenReturn(s: State, p: Pid, c: nat)
    requires Has(s, c) && s.cpus[c].owner == p
    ensures ReclaimedBy(ReclaimCpu(s, p, c).0, c, p)
    ensures var t := ReclaimCpu(s, p, c).0; var guest := t.cpus[c].guest;
      guest != NOBODY && ReturnCpu(t, guest, c).0.cpus[c].guest == p
  {
    hide UpdatedOccupied, CoreIsEligible;
  }
}
