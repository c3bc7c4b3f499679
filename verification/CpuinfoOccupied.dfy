/** On one-CPU cores occupied_cores is exactly the set of owned CPUs used by somebody else, so the
    queries that it speeds up answer what a scan of the whole table would
    (src/LB_comm/shmem_cpuinfo.c). */
module CpuinfoOccupied {
  import opened Codes
  import opened CpuinfoSpec
  import opened CpuinfoActs
  import opened CpuinfoOps
  import opened CpuinfoReaches
  import CpuinfoCalls

  ghost predicate OneCpuCores(s: State) {
    && !s.smt && |s.core| == |s.cpus|
    && forall c, d :: 0 <= c < |s.core| && 0 <= d < |s.core| && s.core[c] == s.core[d] ==> c == d
  }

  /** A CPU and its bit in occupied_cores. A disabled CPU has no owner; and, while no request queue can
      hand a CPU over, an owner only uses its own CPU when it is busy. */
  ghost predicate Indexed(cpu: Cpu, occupied: bool, queues: bool) {
    && (occupied <==> Occupied(cpu, cpu.owner))
    && (cpu.state == Disabled ==> cpu.owner == NOBODY)
    && (!queues && cpu.owner != NOBODY && cpu.guest == cpu.owner ==> cpu.state == Busy)
  }

  ghost predicate IndexExact(s: State) {
    OneCpuCores(s) && forall c :: 0 <= c < |s.cpus| ==> Indexed(s.cpus[c], c in s.occupied, s.queues)
  }

  /** The acts that keep the index: not the transfer of ownership, not the availability check, and the
      direct deregistration only on CPUs that pid does not borrow from a live owner. */
  ghost predicate KeepsIndex(s: State, pid: Pid, act: Act) {
    match act
    case Own(_, _) => false
    case Check(_) => false
    case Forget(c, _) => c < |s.cpus| ==> s.cpus[c].owner in {NOBODY, pid} || s.cpus[c].guest != pid
    case _ => true
  }

  lemma {:induction false} AloneInCore(s: State, c: nat, d: nat)
    requires OneCpuCores(s) && Has(s, c)
    ensures FillCore(s, c, d) == s
    decreases |s.cpus| - d
  {
    if d < |s.cpus| {
      assert FillOne(s, c, d) == s;
      AloneInCore(s, c, d + 1);
    }
  }

  /** On one-CPU cores, lending touches one CPU and its own bits. */
  lemma LendAlone(s: State, pid: Pid, c: nat)
    requires OneCpuCores(s) && Has(s, c) && s.cpus[c].state != Disabled
    ensures var t := LendCpu(s, pid, c);
      && (forall d :: 0 <= d < |s.cpus| && d != c ==> t.cpus[d] == s.cpus[d])
      && (forall d :: d != c ==> (d in t.occupied <==> d in s.occupied))
      && (c in t.occupied <==> Occupied(t.cpus[c], t.cpus[c].owner))
      && t.cpus[c].owner == s.cpus[c].owner
      && t.cpus[c].state == (if s.cpus[c].owner == pid then Lent else s.cpus[c].state)
      && (!s.queues && t.cpus[c].guest == t.cpus[c].owner != NOBODY ==> t.cpus[c].state == Busy || s.cpus[c].guest == s.cpus[c].owner != pid)
  {
    var s1 := Put(s, c, LetGo(s.cpus[c], pid, s.queues));
    hide Without;
    RefillAlone(s1, c);
    if s1.cpus[c].guest == NOBODY {
      AloneInCore(Refill(s1, c), c, 0);
    }
    hide Refill, FillCore;
  }

  lemma RefillAlone(s: State, c: nat)
    requires Has(s, c)
    ensures var t := Refill(s, c);
      && SameTopology(s, t) && t.occupied == s.occupied
      && (forall d :: 0 <= d < |s.cpus| && d != c ==> t.cpus[d] == s.cpus[d])
      && t.cpus[c].owner == s.cpus[c].owner && t.cpus[c].state == s.cpus[c].state
      && (!s.queues ==> t.cpus[c].guest == if s.cpus[c].state == Busy && s.cpus[c].owner != NOBODY then s.cpus[c].owner else s.cpus[c].guest)
  {
    hide CoreIsEligible;
  }

  lemma LendIndexed(s: State, pid: Pid, c: nat)
    requires IndexExact(s) && Has(s, c)
    ensures IndexExact(LendCpu(s, pid, c))
  {
    if s.cpus[c].state != Disabled {
      LendAlone(s, pid, c);
      hide LendCpu;
    }
  }

  lemma LeaveIndexed(s: State, pid: Pid, public: bool, c: nat)
    requires IndexExact(s) && Has(s, c)
    ensures IndexExact(LeaveCpu(s, pid, public, c))
  {
    LendIndexed(s, pid, c);
    hide LendCpu;
  }

  lemma HostedIndexed(s: State, pid: Pid, c: nat)
    requires IndexExact(s) && Has(s, c) && s.cpus[c].guest == NOBODY && s.cpus[c].state == Lent && s.cpus[c].owner != pid
    ensures IndexExact(Hosted(s, pid, c))
  {
  }

  lemma ReclaimIndexed(s: State, pid: Pid, c: nat)
    requires IndexExact(s) && Has(s, c)
    ensures IndexExact(ReclaimCpu(s, pid, c).0)
  {
  }

  lemma TakeIndexed(s: State, pid: Pid, c: nat)
    requires IndexExact(s) && Has(s, c)
    ensures IndexExact(AcquireCpu(s, pid, c).0)
    ensures IndexExact(BorrowCpu(s, pid, c).0)
  {
    if s.cpus[c].guest == NOBODY && s.cpus[c].state == Lent && s.cpus[c].owner != pid {
      HostedIndexed(s, pid, c);
    }
    hide Hosted, CoreIsEligible;
  }

  lemma GiveIndexed(s: State, pid: Pid, c: nat)
    requires IndexExact(s) && Has(s, c)
    ensures IndexExact(ReturnCpu(s, pid, c).0)
    ensures IndexExact(CpuinfoSpec.ReturnAsync(s, pid, c))
  {
    hide Keeps;
  }

  lemma RegisterIndexed(s: State, pid: Pid, pre: nat, c: nat)
    requires IndexExact(s) && Has(s, c)
    ensures IndexExact(RegisterCpu(s, pid, pre, c))
  {
  }

  lemma ForgetIndexed(s: State, pid: Pid, public: bool, c: nat)
    requires IndexExact(s) && Has(s, c)
    ensures IndexExact(ForgetCpu(s, pid, public, c)) <==> KeepsIndex(s, pid, Forget(c, public))
  {
    hide Without;
    var t := ForgetCpu(s, pid, public, c);
    if !KeepsIndex(s, pid, Forget(c, public)) {
      assert !Indexed(t.cpus[c], c in t.occupied, t.queues);
    }
  }

  lemma ActKeepsIndex(s: State, pid: Pid, act: Act)
    requires IndexExact(s) && KeepsIndex(s, pid, act)
    ensures IndexExact(Do(s, pid, act))
  {
    hide LendCpu, ReclaimCpu, AcquireCpu, BorrowCpu, ReturnCpu, CpuinfoSpec.ReturnAsync, RegisterCpu, LeaveCpu,
      ForgetCpu;
    if !act.Repost? && act.c < |s.cpus| && !act.Requeue? && !act.Notify? {
      match act
      case Lend(c) => LendIndexed(s, pid, c);
      case Reclaim(c) => ReclaimIndexed(s, pid, c);
      case Acquire(c) => TakeIndexed(s, pid, c);
      case Borrow(c) => TakeIndexed(s, pid, c);
      case Return(c) => GiveIndexed(s, pid, c);
      case ReturnAsync(c) => GiveIndexed(s, pid, c);
      case Register(c, pre) => RegisterIndexed(s, pid, pre, c);
      case Leave(c, public) => LeaveIndexed(s, pid, public, c);
      case Forget(c, public) => ForgetIndexed(s, pid, public, c);
    }
  }

  ghost predicate AllKeepIndex(s: State, steps: seq<Step>)
    requires |s.core| == |s.cpus|
    decreases |steps|
  {
    steps == [] ||
    (KeepsIndex(s, steps[0].pid, steps[0].act) && AllKeepIndex(Do(s, steps[0].pid, steps[0].act), steps[1..]))
  }

  /** In every run, with the request queues on or off. */
  lemma {:induction false} RunKeepsIndex(s: State, steps: seq<Step>)
    requires IndexExact(s) && AllKeepIndex(s, steps)
    ensures IndexExact(Run(s, steps))
    decreases |steps|
  {
    if steps != [] {
      ActKeepsIndex(s, steps[0].pid, steps[0].act);
      hide Do, IndexExact;
      RunKeepsIndex(Do(s, steps[0].pid, steps[0].act), steps[1..]);
    }
  }

  lemma StartIsIndexed(core: seq<nat>, respectCpuset: bool)
    requires forall c, d :: 0 <= c < |core| && 0 <= d < |core| && core[c] == core[d] ==> c == d
    ensures IndexExact(Start(core, false, respectCpuset))
  {
  }

  // ---------------------------------------------------------------- reclaim

  /** Every CPU from c on that pid has to get back is in the set. */
  ghost predicate Covers(s: State, pid: Pid, todo: set<nat>, c: nat) {
    forall d :: c <= d < |s.cpus| && s.cpus[d].owner == pid && s.cpus[d].guest != pid ==> d in todo
  }

  lemma IndexCovers(s: State, pid: Pid)
    requires IndexExact(s) && IdleAreFree(s)
    ensures Covers(s, pid, s.free + s.occupied, 0)
  {
  }

  lemma ReclaimCpuAlone(s: State, pid: Pid, c: nat)
    requires Has(s, c)
    ensures var t := ReclaimCpu(s, pid, c).0;
      SameTopology(s, t) && forall d :: 0 <= d < |s.cpus| && d != c ==> t.cpus[d] == s.cpus[d]
  {
  }

  lemma {:induction false} ReclaimOwnedScans(s: State, pid: Pid, todo: set<nat>, code: Code, c: nat)
    requires |s.core| == |s.cpus| && Covers(s, pid, todo, c)
    ensures ReclaimOwned(s, pid, todo, code, c) == ReclaimOwned(s, pid, AllCpus(|s.cpus|), code, c)
    decreases |s.cpus| - c
  {
    hide ReclaimCpu, AllCpus;
    if c < |s.cpus| {
      ReclaimCpuAlone(s, pid, c);
      if c in todo && s.cpus[c].owner == pid && s.cpus[c].guest != pid {
        var (t, local) := ReclaimCpu(s, pid, c);
        ReclaimOwnedScans(t, pid, todo, Best(code, local), c + 1);
      } else {
        ReclaimOwnedScans(s, pid, todo, code, c + 1);
      }
    }
  }

  /** reclaim_all, which only visits free_cpus and occupied_cores, does what visiting every CPU does:
      same table, same tasks, same code. */
  lemma ReclaimAllIsScan(s: State, pid: Pid)
    requires IndexExact(s) && IdleAreFree(s)
    ensures ReclaimAll(s, pid) == ReclaimOwned(s, pid, AllCpus(|s.cpus|), NoUpdt, 0)
  {
    IndexCovers(s, pid);
    ReclaimOwnedScans(s, pid, s.free + s.occupied, NoUpdt, 0);
  }

  /** Every CPU of the mask from c on that is left out needs nothing: it is not of pid, or already in use. */
  ghost predicate Skippable(s: State, pid: Pid, todo: set<nat>, mask: set<nat>, c: nat) {
    forall d :: c <= d < |s.cpus| && d in mask && d !in todo ==>
      s.cpus[d].owner != pid || (s.cpus[d].guest == pid && s.cpus[d].state == Busy)
  }

  lemma SkipsOn(s: State, t: State, pid: Pid, todo: set<nat>, mask: set<nat>, c: nat)
    requires Skippable(s, pid, todo, mask, c) && |t.cpus| == |s.cpus|
    requires forall d :: c < d < |s.cpus| ==> t.cpus[d] == s.cpus[d]
    ensures Skippable(t, pid, todo, mask, c + 1)
    ensures c < |s.cpus| && c in mask && c !in todo ==>
      s.cpus[c].owner != pid || (s.cpus[c].guest == pid && s.cpus[c].state == Busy)
  {
  }

  lemma {:induction false} ReclaimEachScans(s: State, pid: Pid, todo: set<nat>, mask: set<nat>, code: Code,
      code2: Code, c: nat)
    requires |s.core| == |s.cpus| && todo <= mask && Skippable(s, pid, todo, mask, c)
    ensures ReclaimEach(s, pid, todo, code, c).0 == ReclaimEach(s, pid, mask, code2, c).0
    decreases |s.cpus| - c
  {
    hide ReclaimCpu, Skippable, Worst;
    if c < |s.cpus| {
      ReclaimCpuAlone(s, pid, c);
      var (t, local) := ReclaimCpu(s, pid, c);
      if c in todo {
        SkipsOn(s, t, pid, todo, mask, c);
        ReclaimEachScans(t, pid, todo, mask, Worst(code, local), Worst(code2, local), c + 1);
      } else if c in mask {
        SkipsOn(s, s, pid, todo, mask, c);
        NothingToReclaim(s, pid, c);
        ReclaimEachScans(s, pid, todo, mask, code, Worst(code2, local), c + 1);
      } else {
        SkipsOn(s, s, pid, todo, mask, c);
        ReclaimEachScans(s, pid, todo, mask, code, code2, c + 1);
      }
    }
  }

  lemma {:induction false} ReclaimEachCodes(s: State, pid: Pid, todo: set<nat>, mask: set<nat>, code: Code, c: nat)
    requires |s.core| == |s.cpus| && todo <= mask && Skippable(s, pid, todo, mask, c) && OwnsAll(s, pid, mask)
    ensures ReclaimEach(s, pid, todo, code, c) == ReclaimEach(s, pid, mask, code, c)
    decreases |s.cpus| - c
  {
    if c < |s.cpus| {
      assert c in mask ==> s.cpus[c].owner == pid;
      hide ReclaimCpu, Skippable, OwnsAll;
      ReclaimCpuAlone(s, pid, c);
      ReclaimKeepsOwner(s, pid, mask, c);
      var (t, local) := ReclaimCpu(s, pid, c);
      if c in todo {
        SkipsOn(s, t, pid, todo, mask, c);
        ReclaimEachCodes(t, pid, todo, mask, Worst(code, local), c + 1);
      } else {
        SkipsOn(s, s, pid, todo, mask, c);
        if c in mask {
          NothingToReclaim(s, pid, c);
        }
        ReclaimEachCodes(s, pid, todo, mask, code, c + 1);
      }
    }
  }

  ghost predicate OwnsAll(s: State, pid: Pid, mask: set<nat>) {
    forall d :: 0 <= d < |s.cpus| && d in mask ==> s.cpus[d].owner == pid
  }

  lemma ReclaimKeepsOwner(s: State, pid: Pid, mask: set<nat>, c: nat)
    requires Has(s, c)
    ensures OwnsAll(ReclaimCpu(s, pid, c).0, pid, mask) <==> OwnsAll(s, pid, mask)
  {
    var t := ReclaimCpu(s, pid, c).0;
    assert forall d :: 0 <= d < |s.cpus| ==> t.cpus[d].owner == s.cpus[d].owner;
    hide ReclaimCpu;
  }

  lemma NothingToReclaim(s: State, pid: Pid, c: nat)
    requires Has(s, c) && (s.cpus[c].owner != pid || (s.cpus[c].guest == pid && s.cpus[c].state == Busy))
    ensures ReclaimCpu(s, pid, c) == (s, if s.cpus[c].owner == pid then NoUpdt else ErrPerm)
  {
    assert s.cpus[c := s.cpus[c]] == s.cpus;
  }

  /** The CPUs of the mask that pid owns and uses are reclaimed, or in free_cpus. Always so in polling mode; with
      queues a lent CPU can come back to its owner by its own request, and then it stays lent. */
  ghost predicate OwnAreBusy(s: State, pid: Pid, mask: set<nat>) {
    forall d :: 0 <= d < |s.cpus| && d in mask && s.cpus[d].owner == pid && s.cpus[d].guest == pid ==>
      s.cpus[d].state == Busy || d in s.free
  }

  lemma {:induction false} ReclaimEachAt(s: State, pid: Pid, todo: set<nat>, code: Code, c: nat, d: nat)
    requires |s.core| == |s.cpus| && d < |s.cpus|
    ensures var t := ReclaimEach(s, pid, todo, code, c).0;
      && (d !in todo ==> t.cpus[d] == s.cpus[d]) && t.cpus[d].owner == s.cpus[d].owner
      && (s.cpus[d].owner == pid && (s.cpus[d].state == Busy || (c <= d && d in todo)) ==> t.cpus[d].state == Busy)
    decreases |s.cpus| - c
  {
    if c < |s.cpus| {
      ReclaimCpuAlone(s, pid, c);
      ReclaimCpuBusy(s, pid, c);
      var (t, local) := ReclaimCpu(s, pid, c);
      hide ReclaimCpu, Worst;
      if c in todo {
        ReclaimEachAt(t, pid, todo, Worst(code, local), c + 1, d);
      } else {
        ReclaimEachAt(s, pid, todo, code, c + 1, d);
      }
    }
  }

  lemma ReclaimCpuBusy(s: State, pid: Pid, c: nat)
    requires Has(s, c)
    ensures var a, b := s.cpus[c], ReclaimCpu(s, pid, c).0.cpus[c];
      b.owner == a.owner && (a.owner == pid ==> b.state == Busy)
  {
  }

  /** reclaim_cpu_mask does what reclaiming every CPU of the mask does, same table and tasks, exactly when the
      CPUs of the mask that the caller owns and uses are busy or in free_cpus; and then, if the mask only names
      CPUs of the caller, with the same code. */
  lemma ReclaimMaskIsScan(s: State, pid: Pid, mask: set<nat>)
    requires IndexExact(s) && IdleAreFree(s)
    ensures ReclaimMask(s, pid, mask).0 == ReclaimEach(s, pid, mask, NoUpdt, 0).0 <==> OwnAreBusy(s, pid, mask)
    ensures OwnAreBusy(s, pid, mask) && OwnsAll(s, pid, mask) ==>
      ReclaimMask(s, pid, mask) == ReclaimEach(s, pid, mask, NoUpdt, 0)
    ensures !s.queues ==> OwnAreBusy(s, pid, mask)
  {
    var todo := (s.free + s.occupied) * mask;
    if OwnAreBusy(s, pid, mask) {
      assert Skippable(s, pid, todo, mask, 0);
      hide IndexExact, IdleAreFree;
      ReclaimEachScans(s, pid, todo, mask, NoUpdt, NoUpdt, 0);
      if OwnsAll(s, pid, mask) {
        ReclaimEachCodes(s, pid, todo, mask, NoUpdt, 0);
      }
    } else {
      var d :| 0 <= d < |s.cpus| && d in mask && s.cpus[d].owner == pid && s.cpus[d].guest == pid &&
        s.cpus[d].state != Busy && d !in s.free;
      ReclaimEachAt(s, pid, mask, NoUpdt, 0, d);
      ReclaimEachAt(s, pid, todo, NoUpdt, 0, d);
      assert Indexed(s.cpus[d], d in s.occupied, s.queues);
    }
  }

  // ---------------------------------------------------------------- return

  /** The scan that return_all stands for: return_cpu on every CPU that has an owner. */
  function ReturnScan(s: State, pid: Pid, code: Code, c: nat): (r: (State, Code))
    requires |s.core| == |s.cpus|
    ensures SameTopology(s, r.0)
    decreases |s.cpus| - c
  {
    if c >= |s.cpus| then (s, code)
    else if s.cpus[c].owner != NOBODY then
      var (t, local) := ReturnCpu(s, pid, c);
      ReturnScan(t, pid, if local == Success && code == NoUpdt then Success else code, c + 1)
    else ReturnScan(s, pid, code, c + 1)
  }

  /** return_all visits the set that it edits, and still does what visiting every owned CPU does. */
  lemma {:induction false} ReturnAllIsScan(s: State, pid: Pid, code: Code, c: nat)
    requires IndexExact(s)
    ensures ReturnAll(s, pid, code, c) == ReturnScan(s, pid, code, c)
    decreases |s.cpus| - c
  {
    if c < |s.cpus| {
      assert Indexed(s.cpus[c], c in s.occupied, s.queues);
      GiveIndexed(s, pid, c);
      hide IndexExact, CoreIsEligible, Vacated;
      var (t, local) := ReturnCpu(s, pid, c);
      ReturnAllIsScan(t, pid, if local == Success && code == NoUpdt then Success else code, c + 1);
      ReturnAllIsScan(s, pid, code, c + 1);
    }
  }

  // ---------------------------------------------------------------- runs of operations

  lemma {:induction false} LewiKeepsIndex(s: State, steps: seq<Step>, pid: Pid)
    requires |s.core| == |s.cpus| && LewiBy(steps, pid, true)
    ensures AllKeepIndex(s, steps)
    decreases |steps|
  {
    hide Do;
    if steps != [] {
      LewiKeepsIndex(Do(s, steps[0].pid, steps[0].act), steps[1..], pid);
    }
  }

  lemma CallKeepsIndex(s: State, pid: Pid, call: CpuinfoCalls.Call)
    requires IndexExact(s)
    ensures IndexExact(CpuinfoCalls.Invoke(s, pid, call))
  {
    CpuinfoCalls.CallReaches(s, pid, call);
    if !call.Deregister? {
      AlsoLeaving(s, CpuinfoCalls.Invoke(s, pid, call), pid);
    }
    hide CpuinfoCalls.Invoke, Run, IndexExact;
    SameSizes(s);
    var steps :| LewiBy(steps, pid, true) && Run(s, steps) == CpuinfoCalls.Invoke(s, pid, call);
    LewiKeepsIndex(s, steps, pid);
    RunKeepsIndex(s, steps);
  }

  lemma SameSizes(s: State)
    requires IndexExact(s)
    ensures |s.core| == |s.cpus|
  {
  }

  lemma {:induction false} RegisterMaskIndexed(s: State, pid: Pid, pre: nat, mask: set<nat>, c: nat)
    requires IndexExact(s)
    ensures IndexExact(RegisterMask(s, pid, pre, mask, c))
    decreases |s.cpus| - c
  {
    if c < |s.cpus| {
      RegisterIndexed(s, pid, pre, c);
      hide RegisterCpu, IndexExact;
      RegisterMaskIndexed(if c in mask then RegisterCpu(s, pid, pre, c) else s, pid, pre, mask, c + 1);
    }
  }

  /** pid uses no CPU of another live process. */
  ghost predicate BorrowsNothing(s: State, pid: Pid) {
    forall c :: 0 <= c < |s.cpus| && s.cpus[c].owner != NOBODY && s.cpus[c].owner != pid ==> s.cpus[c].guest != pid
  }

  lemma ForgetCpuAlone(s: State, pid: Pid, public: bool, c: nat)
    requires OneCpuCores(s) && Has(s, c)
    ensures var t := ForgetCpu(s, pid, public, c);
      forall d :: 0 <= d < |s.cpus| && d != c ==> t.cpus[d] == s.cpus[d] && (d in t.occupied <==> d in s.occupied)
  {
    hide Without;
  }

  lemma ForgetCpuLocal(s: State, t: State, pid: Pid, public: bool, c: nat)
    requires OneCpuCores(s) && Has(s, c) && SameTopology(s, t)
    requires t.cpus[c] == s.cpus[c] && (c in t.occupied <==> c in s.occupied)
    ensures var u, v := ForgetCpu(s, pid, public, c), ForgetCpu(t, pid, public, c);
      v.cpus[c] == u.cpus[c] && (c in v.occupied <==> c in u.occupied)
  {
    hide Without;
  }

  /** On one-CPU cores the direct deregistration treats every CPU by itself. */
  lemma {:induction false} ForgetFromAt(s: State, pid: Pid, public: bool, c: nat, d: nat)
    requires OneCpuCores(s) && d < |s.cpus|
    ensures var t, u := ForgetFrom(s, pid, public, c), if c <= d then ForgetCpu(s, pid, public, d) else s;
      t.cpus[d] == u.cpus[d] && (d in t.occupied <==> d in u.occupied)
    decreases |s.cpus| - c
  {
    if c < |s.cpus| {
      ForgetCpuAlone(s, pid, public, c);
      var t := ForgetCpu(s, pid, public, c);
      ForgetFromAt(t, pid, public, c + 1, d);
      hide ForgetFrom;
      if c < d {
        ForgetCpuLocal(s, t, pid, public, d);
      }
      hide ForgetCpu, OneCpuCores;
    }
  }

  lemma ForgetCpuIndexed(s: State, pid: Pid, public: bool, c: nat)
    requires IndexExact(s) && Has(s, c)
    ensures var t := ForgetCpu(s, pid, public, c);
      Indexed(t.cpus[c], c in t.occupied, t.queues) <==> s.cpus[c].owner in {NOBODY, pid} || s.cpus[c].guest != pid
  {
    hide Without;
  }

  /** After deregister_process, the direct route, occupied_cores is exact if and only if pid was using no CPU
      of another live process. */
  lemma ForgetProcessIndexed(s: State, pid: Pid, public: bool)
    requires IndexExact(s)
    ensures IndexExact(ForgetProcess(s, pid, public)) <==> BorrowsNothing(s, pid)
  {
    var t := ForgetProcess(s, pid, public);
    forall d | 0 <= d < |s.cpus|
      ensures Indexed(t.cpus[d], d in t.occupied, t.queues) <==> s.cpus[d].owner in {NOBODY, pid} || s.cpus[d].guest != pid
    {
      ForgetFromAt(s, pid, public, 0, d);
      ForgetCpuIndexed(s, pid, public, d);
      hide ForgetFrom, ForgetCpu, IndexExact, Indexed;
    }
    hide ForgetProcess, Indexed;
  }

  ghost predicate Indexable(s: State, e: CpuinfoCalls.Event) {
    !e.Own? && !e.Check? && (e.Forget? ==> BorrowsNothing(s, e.pid))
  }

  lemma QueuesIndexed(s: State)
    requires IndexExact(s)
    ensures IndexExact(s.(queues := true))
  {
    forall c | 0 <= c < |s.cpus| ensures Indexed(s.cpus[c], c in s.occupied, true) {
      assert Indexed(s.cpus[c], c in s.occupied, s.queues);
    }
  }

  lemma EventKeepsIndex(s: State, e: CpuinfoCalls.Event)
    requires IndexExact(s) && Indexable(s, e)
    ensures IndexExact(CpuinfoCalls.Happen(s, e))
  {
    hide CpuinfoCalls.Invoke, RegisterMask, ForgetProcess, OwnFrom, CheckCpu, Registrable;
    match e
    case Lewi(pid, call) => CallKeepsIndex(s, pid, call);
    case Register(pid, pre, mask, steal) => RegisterMaskIndexed(s, pid, pre, mask, 0);
    case Forget(pid, public) => ForgetProcessIndexed(s, pid, public);
    case EnableQueues(_) => QueuesIndexed(s);
  }

  ghost predicate AllIndexable(s: State, events: seq<CpuinfoCalls.Event>)
    requires |s.core| == |s.cpus|
    decreases |events|
  {
    events == [] || (Indexable(s, events[0]) && AllIndexable(CpuinfoCalls.Happen(s, events[0]), events[1..]))
  }

  /** In every run of operations, polling or asynchronous, occupied_cores stays exact. */
  lemma {:induction false} HistoryKeepsIndex(s: State, events: seq<CpuinfoCalls.Event>)
    requires IndexExact(s) && AllIndexable(s, events)
    ensures IndexExact(CpuinfoCalls.History(s, events))
    decreases |events|
  {
    if events != [] {
      EventKeepsIndex(s, events[0]);
      hide CpuinfoCalls.Happen, IndexExact;
      HistoryKeepsIndex(CpuinfoCalls.Happen(s, events[0]), events[1..]);
    }
  }

  lemma ReachableIsIndexed(core: seq<nat>, respectCpuset: bool, events: seq<CpuinfoCalls.Event>)
    requires forall c, d :: 0 <= c < |core| && 0 <= d < |core| && core[c] == core[d] ==> c == d
    requires AllIndexable(Start(core, false, respectCpuset), events)
    ensures IndexExact(CpuinfoCalls.History(Start(core, false, respectCpuset), events))
  {
    StartIsIndexed(core, respectCpuset);
    HistoryKeepsIndex(Start(core, false, respectCpuset), events);
  }
}
