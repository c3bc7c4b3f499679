/** When the calls on CPUs and on masks succeed and what they leave (src/LB_comm/shmem_cpuinfo.c). */
module CpuinfoOutcomes {
  import opened Codes
  import opened CpuinfoSpec
  import opened CpuinfoActs
  import opened CpuinfoOps
  import CpuinfoSmtRuns

  /** Only CPU c, the index sets and the tasks may differ. */
  ghost predicate OnlyAt(s: State, t: State, c: nat) {
    && SameTopology(s, t) && t.petitions == s.petitions
    && (forall d :: 0 <= d < |s.cpus| && d != c ==> t.cpus[d] == s.cpus[d])
    && (forall d :: d != c ==> (d in t.free <==> d in s.free))
  }

  /** CPU c has a new state and guest, and is in free_cpus as said; nothing else about it changes. */
  ghost predicate Becomes(s: State, t: State, c: nat, state: CpuState, guest: nat, free: bool) {
    && OnlyAt(s, t, c) && c < |s.cpus| == |t.cpus|
    && t.cpus[c] == s.cpus[c].(state := state, guest := guest) && (c in t.free <==> free)
  }

  // ---------------------------------------------------------------- one CPU

  /** Borrowing a CPU succeeds exactly when it is enabled and idle, its core takes pid in, and it is lent or its own. */
  lemma BorrowOutcome(s: State, pid: Pid, c: nat)
    requires Has(s, c)
    ensures var (t, code) := BorrowCpu(s, pid, c); var cpu := s.cpus[c];
      && (code == Success <==> cpu.state != CpuState.Disabled && cpu.guest == NOBODY && CoreIsEligible(s, pid, c)
                               && (cpu.owner == pid || cpu.state == Lent))
      && (code == ErrPerm <==> cpu.state == CpuState.Disabled) && (code != Success ==> t == s)
      && (code == Success ==>
            && Becomes(s, t, c, if cpu.owner == pid then Busy else Lent, pid, false)
            && t.tasks == s.tasks + [Task(Enable, pid, c)])
  {
    hide CoreIsEligible, UpdatedOccupied;
  }

  /** Reclaiming is for owners only; the CPU is busy from then on, and answers Noted exactly while another uses it. */
  lemma ReclaimOutcome(s: State, pid: Pid, c: nat)
    requires Has(s, c)
    ensures var (t, code) := ReclaimCpu(s, pid, c); var cpu := s.cpus[c];
      && (code == ErrPerm <==> cpu.owner != pid) && (code == ErrPerm ==> t == s)
      && (code == NoUpdt <==> cpu.owner == pid && cpu.guest == pid)
      && (code == Success <==> cpu.owner == pid && cpu.guest == NOBODY)
      && (code == Noted <==> cpu.owner == pid && cpu.guest != pid && cpu.guest != NOBODY)
      && (code != ErrPerm ==>
            Becomes(s, t, c, Busy, if code == Success then pid else cpu.guest, code != Success && c in s.free))
      && t.tasks == s.tasks + (if code == Success then [Task(Enable, pid, c)]
                               else if code == Noted then [Task(Disable, cpu.guest, c), Task(Enable, pid, c)] else [])
  {
    assert s.tasks + [] == s.tasks;
  }

  /** A guest gives a CPU back exactly when it has to: it was reclaimed or disabled, or its core no longer takes pid in. */
  lemma ReturnOutcome(s: State, pid: Pid, c: nat)
    requires Has(s, c)
    ensures var (t, code) := ReturnCpu(s, pid, c); var cpu := s.cpus[c];
      && (code == Success <==> cpu.guest == pid && cpu.owner != pid && (cpu.state == Lent ==> !CoreIsEligible(s, pid, c)))
      && (code == NoUpdt <==> code != Success) && (code != Success ==> t == s)
      && (code == Success ==>
            && Becomes(s, t, c, cpu.state, if cpu.state == Busy then cpu.owner else NOBODY, c in s.free || cpu.state != Busy)
            && t.tasks == s.tasks + [Task(Disable, pid, c)])
  {
    hide CoreIsEligible, UpdatedOccupied;
  }

  /** Giving a CPU back by itself: to its owner if reclaimed, else idle; and the process waits for it as the last one, if its
      queue has room. Nobody is told. */
  lemma ReturnAsyncOutcome(s: State, pid: Pid, c: nat)
    requires Has(s, c)
    ensures var t := CpuinfoSpec.ReturnAsync(s, pid, c); var cpu := s.cpus[c]; var q := cpu.requests;
      && OnlyAt(s, t, c) && t.tasks == s.tasks
      && t.cpus[c] == Cpu(cpu.owner, if cpu.state == Busy then cpu.owner else NOBODY, cpu.state, t.cpus[c].requests)
      && (|q| < REQUESTS_CAPACITY ==> t.cpus[c].requests == q + [pid])
      && (|q| >= REQUESTS_CAPACITY ==> t.cpus[c].requests == q)
      && (c in t.free <==> c in s.free || cpu.state != Busy)
  {
    hide UpdatedOccupied;
  }

  /** The availability check says yes exactly when pid then is the guest: it was already, or the CPU was idle and is its
      own or lent. It is refused for a CPU of another that is not lent, and nothing else changes. */
  lemma CheckOutcome(s: State, pid: Pid, c: nat)
    requires Has(s, c)
    ensures var (t, code) := CheckCpu(s, pid, c); var cpu := s.cpus[c];
      && (code == ErrPerm <==> cpu.owner != pid && cpu.state != Lent)
      && (code == Success <==> code != ErrPerm && t.cpus[c].guest == pid)
      && (code == NoUpdt <==> cpu.owner == pid && cpu.state == Lent && cpu.guest != pid && cpu.guest != NOBODY)
      && (code != Success || cpu.guest == pid ==> t == s)
      && (code == Success && cpu.guest != pid ==> cpu.guest == NOBODY && Becomes(s, t, c, cpu.state, pid, false))
      && t.tasks == s.tasks
  {
  }

  // ---------------------------------------------------------------- lending a mask, polling mode

  /** Busy CPUs are in use. */
  ghost predicate BusyInUse(s: State) {
    |s.core| == |s.cpus| && forall c :: 0 <= c < |s.cpus| && s.cpus[c].state == Busy ==> s.cpus[c].guest != NOBODY && s.cpus[c].owner != NOBODY
  }

  lemma {:induction false} FillCoreIdle(s: State, c: nat, d: nat)
    requires Has(s, c) && BusyInUse(s) && !s.queues
    ensures FillCore(s, c, d) == s
    decreases |s.cpus| - d
  {
    if d < |s.cpus| {
      FillCoreIdle(s, c, d + 1);
    }
  }

  /** The guest of an enabled CPU after pid lent it: a reclaimed one passes to its owner. */
  function GuestAfterLend(cpu: Cpu, pid: Pid): nat {
    if cpu.guest != pid then cpu.guest
    else if cpu.state == Busy && cpu.owner != pid then cpu.owner
    else NOBODY
  }

  /** In polling mode a lent CPU is idle unless it was reclaimed or somebody else uses it, and is listed as free if idle. */
  lemma LendOutcome(s: State, pid: Pid, c: nat)
    requires Has(s, c) && BusyInUse(s) && !s.queues && s.cpus[c].state != CpuState.Disabled
    ensures var t := LendCpu(s, pid, c); var cpu := s.cpus[c];
      && BusyInUse(t)
      && Becomes(s, t, c, if cpu.owner == pid then Lent else cpu.state, GuestAfterLend(cpu, pid),
                 c in s.free || GuestAfterLend(cpu, pid) == NOBODY)
  {
    var s1 := Put(s, c, LetGo(s.cpus[c], pid, s.queues));
    hide UpdatedOccupied, FillCore;
    if s1.cpus[c].guest == NOBODY {
      var t := Refill(s1, c);
      if t.cpus[c].guest != NOBODY {
        FillCoreIdle(t, c, 0);
      }
    }
  }

  /** CPU d of a mask that was lent. */
  predicate MaskLent(a: Cpu, b: Cpu, pid: Pid, lent: bool) {
    if lent && a.state != CpuState.Disabled
    then b == a.(state := if a.owner == pid then Lent else a.state, guest := GuestAfterLend(a, pid), requests := b.requests)
    else b == a
  }

  /** Lending a mask in polling mode lends exactly its enabled CPUs: pid guests none of them afterwards, its own ones are
      lent, the idle ones are listed as free, and no other CPU changes. */
  lemma {:induction false} LendMaskOutcome(s: State, pid: Pid, mask: set<nat>, c: nat, d: nat)
    requires BusyInUse(s) && !s.queues && d < |s.cpus|
    ensures var t := LendMask(s, pid, mask, c);
      && MaskLent(s.cpus[d], t.cpus[d], pid, d in mask && c <= d)
      && (t.cpus[d].guest == NOBODY && d in mask && c <= d && s.cpus[d].state != CpuState.Disabled ==> d in t.free)
      && (d in s.free ==> d in t.free)
    decreases |s.cpus| - c
  {
    if c < |s.cpus| {
      if c in mask && s.cpus[c].state != CpuState.Disabled {
        LendOutcome(s, pid, c);
      }
      hide LendCpu;
      LendMaskOutcome(if c in mask && s.cpus[c].state != CpuState.Disabled then LendCpu(s, pid, c) else s, pid, mask, c + 1, d);
    }
  }

  // ---------------------------------------------------------------- ownership

  /** CPU d after its owner mask was updated: those of the mask belong to pid and are busy, with pid as guest unless
      another uses them; those it gives up are disabled and without owner, and a reclaimed one that it borrowed returns. */
  ghost predicate Transferred(a: Cpu, b: Cpu, pid: Pid, mine: bool) {
    && b.requests == a.requests && (b.owner == pid <==> mine)
    && (mine ==> (a.owner == pid ==> b == a)
                 && (a.owner != pid ==> b.state == Busy && b.guest == if a.guest == NOBODY then pid else a.guest))
    && (!mine && a.owner == pid ==> b.owner == NOBODY && b.state == CpuState.Disabled
                                    && b.guest == if a.guest == pid then NOBODY else a.guest)
    && (!mine && a.owner != pid ==> b.owner == a.owner && b.state == a.state
                                    && b.guest == if a.guest == pid && a.state == Busy then a.owner else a.guest)
  }

  /** Who is told of a transfer: pid to use a CPU that it gets, after the guest that has to leave, or to stop using one. */
  function TransferTasks(a: Cpu, b: Cpu, pid: Pid, mine: bool, c: nat): seq<Task> {
    if mine && a.owner != pid then
      (if a.guest == NOBODY || a.guest == pid then [] else [Task(Disable, a.guest, c)]) + [Task(Enable, pid, c)]
    else if a.guest == pid && b.guest != pid then [Task(Disable, pid, c)]
    else []
  }

  lemma OwnCpuOutcome(s: State, pid: Pid, mine: bool, c: nat)
    requires Has(s, c)
    ensures var t := OwnCpu(s, pid, mine, c);
      && OnlyAt(s, t, c) && Transferred(s.cpus[c], t.cpus[c], pid, mine)
      && t.tasks == s.tasks + TransferTasks(s.cpus[c], t.cpus[c], pid, mine, c)
  {
    assert s.tasks + [] == s.tasks;
    hide UpdatedOccupied, CoreIsEligible;
  }

  /** After an update of the owner mask, pid owns exactly the CPUs of the mask. */
  lemma {:induction false} OwnershipOutcome(s: State, pid: Pid, mask: set<nat>, c: nat, d: nat)
    requires |s.core| == |s.cpus| && d < |s.cpus|
    ensures var t := OwnFrom(s, pid, mask, c);
      if c <= d then Transferred(s.cpus[d], t.cpus[d], pid, d in mask) else t.cpus[d] == s.cpus[d]
    decreases |s.cpus| - c
  {
    if c < |s.cpus| {
      OwnCpuOutcome(s, pid, c in mask, c);
      hide OwnCpu, Transferred;
      OwnershipOutcome(OwnCpu(s, pid, c in mask, c), pid, mask, c + 1, d);
    }
  }

  // ---------------------------------------------------------------- registering and direct deregistration

  /** A process is registered unless another one owns a CPU of its mask; it then owns those CPUs, busy, and uses the ones
      that were idle or preregistered for it. */
  lemma RegisterOutcome(s: State, pid: Pid, pre: nat, mask: set<nat>, d: nat)
    requires |s.core| == |s.cpus| && d < |s.cpus|
    ensures var (t, code) := RegisterProcess(s, pid, pre, mask); var a, b := s.cpus[d], t.cpus[d];
      && (code == ErrPerm <==> exists c :: 0 <= c < |s.cpus| && c in mask && s.cpus[c].owner !in {NOBODY, pid, pre})
      && (code == ErrPerm ==> t == s) && (code == Success <==> code != ErrPerm)
      && (code == Success && d !in mask ==> b == a)
      && (code == Success && d in mask ==>
            && b.owner == pid && b.state == Busy && b.requests == a.requests && (b.guest == pid || b.guest == a.guest)
            && (b.guest == pid <==> a.guest in {NOBODY, pid, pre}))
  {
    CpuinfoSmtRuns.RegisterMaskCpus(s, pid, pre, mask, 0, d);
    hide RegisterMask;
  }

  /** CPU d after its process was deregistered directly: pid owns it and uses it no more, and its CPUs are lent if they
      outlive it and disabled if not. */
  ghost predicate Forgotten(a: Cpu, b: Cpu, pid: Pid, public: bool) {
    && b.guest == (if a.guest == pid then NOBODY else a.guest)
    && (a.owner == pid ==> b.owner == NOBODY && b.state == if public then Lent else CpuState.Disabled)
    && (a.owner != pid ==> b.owner == a.owner && b.state == a.state)
  }

  lemma {:induction false} ForgetOutcome(s: State, pid: Pid, public: bool, c: nat, d: nat)
    requires |s.core| == |s.cpus| && d < |s.cpus|
    ensures var t := ForgetFrom(s, pid, public, c);
      && (if c <= d then Forgotten(s.cpus[d], t.cpus[d], pid, public) else t.cpus[d] == s.cpus[d])
      && t.tasks == s.tasks && t.petitions == s.petitions
    decreases |s.cpus| - c
  {
    if c < |s.cpus| {
      hide Without;
      ForgetOutcome(ForgetCpu(s, pid, public, c), pid, public, c + 1, d);
    }
  }

  /** After a direct deregistration pid owns and uses nothing. */
  lemma ForgetProcessOutcome(s: State, pid: Pid, public: bool, d: nat)
    requires |s.core| == |s.cpus| && d < |s.cpus|
    ensures var t := ForgetProcess(s, pid, public);
      && Forgotten(s.cpus[d], t.cpus[d], pid, public) && t.cpus[d].owner != pid && t.cpus[d].guest != pid && t.tasks == s.tasks
  {
    ForgetOutcome(s, pid, public, 0, d);
  }
}