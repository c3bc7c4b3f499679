/** The locked LeWI operations, and what every run of them keeps (src/LB_comm/shmem_cpuinfo.c). */
module CpuinfoCalls {
  import opened Codes
  import opened CpuinfoSpec
  import opened CpuinfoActs
  import opened CpuinfoReclaimed
  import opened CpuinfoOps
  import opened CpuinfoReaches

  datatype Call =
    | LendCpu(c: nat) | LendCpuMask(mask: set<nat>)
    | ReclaimCpu(c: nat) | ReclaimCpus(count: int, cores: nat) | ReclaimCpuMask(mask: set<nat>) | ReclaimAll
    | AcquireCpu(c: nat) | AcquireSubset(list: seq<nat>) | AcquireNcpus(counted: bool, wanted: int, list: seq<nat>)
    | BorrowCpu(c: nat) | BorrowSubset(list: seq<nat>)
    | BorrowNcpus(wanted: int, list: seq<nat>, spread: bool, freeNodes: State -> seq<nat>)
    | ReturnCpu(c: nat) | ReturnCpuMask(mask: set<nat>) | ReturnAll | ReturnAsyncMask(mask: set<nat>)
    | UpdateMaxParallelism(max: nat) | Reset | Deregister(public: bool) | RemoveRequests

  const INT_MAX := 0x7fff_ffff

  /** The table after a locked LeWI operation of pid; tasks start empty. Lists name CPUs of the node. */
  function Invoke(s: State, pid: Pid, call: Call): (t: State)
    requires |s.core| == |s.cpus|
    ensures SameTopology(s, t)
  {
    match call
    case LendCpu(c) => if c >= |s.cpus| then s else CpuinfoSpec.LendCpu(s, pid, c)
    case LendCpuMask(mask) => LendMask(s, pid, mask, 0)
    case ReclaimCpu(c) => ReclaimOne(s, pid, c).0
    case ReclaimCpus(count, cores) => CpuinfoOps.ReclaimCpus(s, pid, count, cores, 0, NoUpdt).0
    case ReclaimCpuMask(mask) => ReclaimMask(s, pid, mask).0
    case ReclaimAll => CpuinfoOps.ReclaimAll(s, pid).0
    case AcquireCpu(c) => if c >= |s.cpus| then s else CpuinfoSpec.AcquireCpu(s, pid, c).0
    case AcquireSubset(list) =>
      if !InTable(s, list) then s else TakeArray(s, pid, Acquiring, list, 0, INT_MAX, -1, NoUpdt).state
    case AcquireNcpus(counted, wanted, list) =>
      if !InTable(s, list) then s else CpuinfoOps.AcquireNcpus(s, pid, counted, wanted, list).0
    case BorrowCpu(c) => if c >= |s.cpus| then s else CpuinfoSpec.BorrowCpu(s, pid, c).0
    case BorrowSubset(list) =>
      if !InTable(s, list) then s else TakeArray(s, pid, Borrowing, list, 0, INT_MAX, -1, NoUpdt).state
    case BorrowNcpus(wanted, list, spread, freeNodes) =>
      if !InTable(s, list) then s else CpuinfoOps.BorrowNcpus(s, pid, wanted, list, spread, freeNodes).0
    case ReturnCpu(c) =>
      if c >= |s.cpus| || s.cpus[c].guest != pid then s else CpuinfoSpec.ReturnCpu(s, pid, c).0
    case ReturnCpuMask(mask) => ReturnEach(s, pid, mask * s.occupied, NoUpdt, 0).0
    case ReturnAll => CpuinfoOps.ReturnAll(s, pid, NoUpdt, 0).0
    case ReturnAsyncMask(mask) => CpuinfoOps.ReturnAsyncMask(s, pid, mask, 0)
    case UpdateMaxParallelism(max) => UpdateMax(s, pid, max)
    case Reset => CpuinfoOps.Reset(s, pid)
    case Deregister(public) => CpuinfoOps.Deregister(s, pid, public)
    case RemoveRequests => CpuinfoOps.RemoveRequests(s, pid)
  }

  lemma ProcessReaches(s: State, pid: Pid, public: bool, max: nat)
    requires |s.core| == |s.cpus|
    ensures Reaches(s, CpuinfoOps.Reset(s, pid), pid)
    ensures Reaches(s, CpuinfoOps.Deregister(s, pid, public), pid, true)
    ensures Reaches(s, UpdateMax(s, pid, max), pid)
  {
    hide Reaches, Withdrawn, ResetFrom, LeaveFrom, LendOwned, LendGuested;
    var t := Withdrawn(s, pid);
    WithdrawnReaches(s, pid);
    ResetReaches(t, pid, 0);
    Chain(s, t, ResetFrom(t, pid, 0), pid);
    LeaveReaches(t, pid, public, 0);
    AlsoLeaving(s, t, pid);
    Chain(s, t, LeaveFrom(t, pid, public, 0), pid, true);
    LendOwnedReaches(s, pid, max, 0, 0, []);
    var r := LendOwned(s, pid, max, 0, 0, []);
    LendGuestedReaches(r.state, pid, max, r.owned, r.guested, 0);
    Chain(s, r.state, LendGuested(r.state, pid, max, r.owned, r.guested, 0), pid);
  }

  lemma ReclaimOneReaches(s: State, pid: Pid, c: nat)
    requires |s.core| == |s.cpus|
    ensures Reaches(s, ReclaimOne(s, pid, c).0, pid)
  {
    hide Reaches, CpuinfoSpec.ReclaimCpu, DisableRest;
    Stays(s, pid);
    if c < |s.cpus| {
      OnCpu(s, pid, c);
      var t := CpuinfoSpec.ReclaimCpu(s, pid, c).0;
      DisableRestReaches(t, pid, c, 0);
      Chain(s, t, DisableRest(t, pid, c, 0), pid);
    }
  }

  /** Every LeWI operation is a run of acts of its caller. */
  lemma CallReaches(s: State, pid: Pid, call: Call)
    requires |s.core| == |s.cpus|
    ensures Reaches(s, Invoke(s, pid, call), pid, call.Deregister?)
  {
    hide Reaches, LendMask, CpuinfoSpec.LendCpu, CpuinfoSpec.ReclaimCpu, CpuinfoSpec.AcquireCpu, CpuinfoSpec.BorrowCpu;
    hide CpuinfoSpec.ReturnCpu, ReclaimOne, CpuinfoOps.ReclaimCpus, ReclaimEach, ReclaimOwned, TakeArray, BorrowWanted;
    hide CpuinfoOps.AcquireNcpus, ReturnEach, CpuinfoOps.ReturnAll, CpuinfoOps.ReturnAsyncMask, UpdateMax;
    hide CpuinfoOps.Reset, CpuinfoOps.Deregister, CpuinfoOps.RemoveRequests;
    Stays(s, pid);
    match call
    case LendCpuMask(mask) => LendMaskReaches(s, pid, mask, 0);
    case ReclaimCpu(c) => ReclaimOneReaches(s, pid, c);
    case ReclaimCpus(count, cores) => ReclaimCpusReaches(s, pid, count, cores, 0, NoUpdt);
    case ReclaimCpuMask(mask) => ReclaimEachReaches(s, pid, (s.free + s.occupied) * mask, NoUpdt, 0);
    case ReclaimAll => ReclaimOwnedReaches(s, pid, s.free + s.occupied, NoUpdt, 0);
    case AcquireSubset(list) => if InTable(s, list) { TakeArrayReaches(s, pid, Acquiring, list, 0, INT_MAX, -1, NoUpdt); }
    case AcquireNcpus(counted, wanted, list) => if InTable(s, list) { AcquireReaches(s, pid, counted, wanted, list); }
    case BorrowSubset(list) => if InTable(s, list) { TakeArrayReaches(s, pid, Borrowing, list, 0, INT_MAX, -1, NoUpdt); }
    case BorrowNcpus(wanted, list, spread, freeNodes) =>
      if InTable(s, list) {
        BorrowReaches(s, pid, if s.free == {} then 0 else wanted, list, spread, freeNodes);
      }
    case ReturnCpuMask(mask) => ReturnEachReaches(s, pid, mask * s.occupied, NoUpdt, 0);
    case ReturnAll => ReturnAllReaches(s, pid, NoUpdt, 0);
    case ReturnAsyncMask(mask) => ReturnAsyncReaches(s, pid, mask, 0);
    case UpdateMaxParallelism(max) => ProcessReaches(s, pid, false, max);
    case Reset => ProcessReaches(s, pid, false, 0);
    case Deregister(public) => ProcessReaches(s, pid, public, 0);
    case RemoveRequests => RemoveReaches(s, pid);
    case _ => OneCpuReaches(s, pid, call);
  }

  lemma OneCpuReaches(s: State, pid: Pid, call: Call)
    requires |s.core| == |s.cpus| && (call.LendCpu? || call.AcquireCpu? || call.BorrowCpu? || call.ReturnCpu?)
    ensures Reaches(s, Invoke(s, pid, call), pid)
  {
    hide Reaches, CpuinfoSpec.LendCpu, CpuinfoSpec.AcquireCpu, CpuinfoSpec.BorrowCpu, CpuinfoSpec.ReturnCpu;
    Stays(s, pid);
    if call.c < |s.cpus| {
      OnCpu(s, pid, call.c);
    }
  }

  lemma {:induction false} LewiByOthers(s: State, steps: seq<Step>, pid: Pid, p: Pid)
    requires |s.core| == |s.cpus| && LewiBy(steps, pid, true) && pid != p
    ensures AllByOthers(s, steps, p)
    decreases |steps|
  {
    hide Do;
    if steps != [] {
      LewiByOthers(Do(s, steps[0].pid, steps[0].act), steps[1..], pid, p);
    }
  }

  /** Every locked operation keeps free_cpus complete. */
  lemma CallKeepsFree(s: State, pid: Pid, call: Call)
    requires IdleAreFree(s)
    ensures IdleAreFree(Invoke(s, pid, call))
  {
    CallReaches(s, pid, call);
    if !call.Deregister? {
      AlsoLeaving(s, Invoke(s, pid, call), pid);
    }
    hide Invoke, Run, IdleAreFree;
    var steps :| LewiBy(steps, pid, true) && Run(s, steps) == Invoke(s, pid, call);
    RunKeepsFree(s, steps);
  }

  /** No operation of another process undoes a reclaim. */
  lemma CallKeepsReclaimed(s: State, pid: Pid, call: Call, c: nat, p: Pid)
    requires ReclaimedBy(s, c, p) && pid != p
    ensures StaysWith(s.cpus[c], Invoke(s, pid, call).cpus[c], p)
  {
    CallReaches(s, pid, call);
    if !call.Deregister? {
      AlsoLeaving(s, Invoke(s, pid, call), pid);
    }
    hide Invoke, Run;
    var steps :| LewiBy(steps, pid, true) && Run(s, steps) == Invoke(s, pid, call);
    LewiByOthers(s, steps, pid, p);
    ReclaimIsStable(s, steps, c, p);
  }

  // ---------------------------------------------------------------- runs of operations

  /** Everything a process can do to the table: the LeWI operations, registration with and without
      stealing, the direct deregistration, the transfer of ownership and the availability check, and
      shmem_cpuinfo__enable_request_queues, which a process in asynchronous mode runs when it starts. */
  datatype Event =
    | Lewi(pid: Pid, call: Call)
    | Register(pid: Pid, pre: nat, mask: set<nat>, steal: bool)
    | Forget(pid: Pid, public: bool)
    | Own(pid: Pid, mask: set<nat>)
    | Check(pid: Pid, c: nat)
    | EnableQueues(pid: Pid)

  /** The same CPUs and cores; request queues are never disabled. */
  predicate SameNode(s: State, t: State) {
    t.core == s.core && t.smt == s.smt && |t.cpus| == |s.cpus| && (s.queues ==> t.queues)
  }

  function Happen(s: State, e: Event): (t: State)
    requires |s.core| == |s.cpus|
    ensures SameNode(s, t)
  {
    match e
    case Lewi(pid, call) => Invoke(s, pid, call)
    case Register(pid, pre, mask, steal) =>
      if steal then RegisterMask(s, pid, pre, mask, 0) else RegisterProcess(s, pid, pre, mask).0
    case Forget(pid, public) => ForgetProcess(s, pid, public)
    case Own(pid, mask) => OwnFrom(s, pid, mask, 0)
    case Check(pid, c) => if c < |s.cpus| then CheckCpu(s, pid, c).0 else s
    case EnableQueues(_) => s.(queues := true)
  }

  function History(s: State, events: seq<Event>): (t: State)
    requires |s.core| == |s.cpus|
    ensures SameNode(s, t)
    decreases |events|
  {
    if events == [] then s else History(Happen(s, events[0]), events[1..])
  }

  lemma {:induction false} RegisterMaskFree(s: State, pid: Pid, pre: nat, mask: set<nat>, c: nat)
    requires IdleAreFree(s)
    ensures IdleAreFree(RegisterMask(s, pid, pre, mask, c))
    decreases |s.cpus| - c
  {
    hide RegisterCpu;
    if c < |s.cpus| {
      RegisterFree(s, pid, pre, c);
      RegisterMaskFree(if c in mask then RegisterCpu(s, pid, pre, c) else s, pid, pre, mask, c + 1);
    }
  }

  lemma {:induction false} ForgetFromFree(s: State, pid: Pid, public: bool, c: nat)
    requires IdleAreFree(s)
    ensures IdleAreFree(ForgetFrom(s, pid, public, c))
    decreases |s.cpus| - c
  {
    hide ForgetCpu;
    if c < |s.cpus| {
      ForgetFree(s, pid, public, c);
      ForgetFromFree(ForgetCpu(s, pid, public, c), pid, public, c + 1);
    }
  }

  lemma ForgetProcessFree(s: State, pid: Pid, public: bool)
    requires IdleAreFree(s)
    ensures IdleAreFree(ForgetProcess(s, pid, public))
  {
    hide ForgetFrom, OthersPetitions;
    ForgetFromFree(s, pid, public, 0);
  }

  lemma StartIsFree(core: seq<nat>, smt: bool, respectCpuset: bool)
    ensures IdleAreFree(Start(core, smt, respectCpuset))
  {
  }

  lemma {:induction false} OwnFromFree(s: State, pid: Pid, mask: set<nat>, c: nat)
    requires IdleAreFree(s)
    ensures IdleAreFree(OwnFrom(s, pid, mask, c))
    decreases |s.cpus| - c
  {
    hide OwnCpu;
    if c < |s.cpus| {
      OwnFree(s, pid, c in mask, c);
      OwnFromFree(OwnCpu(s, pid, c in mask, c), pid, mask, c + 1);
    }
  }

  lemma EventKeepsFree(s: State, e: Event)
    requires IdleAreFree(s)
    ensures IdleAreFree(Happen(s, e))
  {
    hide IdleAreFree, Invoke, RegisterMask, ForgetProcess, OwnFrom, CheckCpu, Registrable;
    SameLengths(s);
    match e
    case Lewi(pid, call) => CallKeepsFree(s, pid, call);
    case Register(pid, pre, mask, steal) => RegisterMaskFree(s, pid, pre, mask, 0);
    case Forget(pid, public) => ForgetProcessFree(s, pid, public);
    case Own(pid, mask) => OwnFromFree(s, pid, mask, 0);
    case Check(pid, c) => if c < |s.cpus| { RegisterFree(s, pid, NOBODY, c); }
    case EnableQueues(_) => QueuesFree(s);
  }

  lemma QueuesFree(s: State)
    requires IdleAreFree(s)
    ensures IdleAreFree(s.(queues := true))
  {
  }

  lemma SameLengths(s: State)
    requires IdleAreFree(s)
    ensures |s.core| == |s.cpus|
  {
  }

  /** In every reachable state an enabled CPU without guest is in free_cpus and a busy CPU has an owner. */
  lemma {:induction false} HistoryKeepsFree(s: State, events: seq<Event>)
    requires IdleAreFree(s)
    ensures IdleAreFree(History(s, events))
    decreases |events|
  {
    hide Happen, IdleAreFree;
    SameLengths(s);
    if events != [] {
      EventKeepsFree(s, events[0]);
      HistoryKeepsFree(Happen(s, events[0]), events[1..]);
    }
  }

  /** In particular from the table that the first process finds. */
  lemma ReachableIsFree(core: seq<nat>, smt: bool, respectCpuset: bool, events: seq<Event>)
    ensures IdleAreFree(History(Start(core, smt, respectCpuset), events))
  {
    StartIsFree(core, smt, respectCpuset);
    HistoryKeepsFree(Start(core, smt, respectCpuset), events);
  }

  /** An event of another process that neither steals nor inherits from p, and takes the proper route out. */
  ghost predicate Harmless(e: Event, p: Pid) {
    e.pid != p && !e.Forget? && !e.Own? && (e.Register? ==> !e.steal && e.pre != p)
  }

  lemma {:induction false} RegisterMaskKeeps(s: State, pid: Pid, pre: nat, mask: set<nat>, c: nat, d: nat)
    requires |s.core| == |s.cpus| && d < |s.cpus| && d !in mask
    ensures RegisterMask(s, pid, pre, mask, c).cpus[d] == s.cpus[d]
    decreases |s.cpus| - c
  {
    hide UpdatedOccupied;
    if c < |s.cpus| {
      RegisterMaskKeeps(if c in mask then RegisterCpu(s, pid, pre, c) else s, pid, pre, mask, c + 1, d);
    }
  }

  lemma EventKeepsReclaimed(s: State, e: Event, c: nat, p: Pid)
    requires ReclaimedBy(s, c, p) && Harmless(e, p)
    ensures StaysWith(s.cpus[c], Happen(s, e).cpus[c], p)
  {
    hide Invoke, RegisterMask, ForgetFrom, OwnFrom;
    match e
    case Lewi(pid, call) => CallKeepsReclaimed(s, pid, call, c, p);
    case Register(pid, pre, mask, steal) =>
      if c in mask {
        assert !Registrable(s, pid, pre, mask);
      } else {
        RegisterMaskKeeps(s, pid, pre, mask, 0, c);
      }
    case Check(pid, d) =>
    case EnableQueues(_) =>
  }

  /** Once p has reclaimed a CPU, whatever sequence of operations the others run, the CPU stays busy and
      owned by p, and its guest is still the same or is p. */
  lemma {:induction false} HistoryKeepsReclaimed(s: State, events: seq<Event>, c: nat, p: Pid)
    requires ReclaimedBy(s, c, p) && forall i :: 0 <= i < |events| ==> Harmless(events[i], p)
    ensures StaysWith(s.cpus[c], History(s, events).cpus[c], p)
    decreases |events|
  {
    hide Happen;
    if events != [] {
      EventKeepsReclaimed(s, events[0], c, p);
      HistoryKeepsReclaimed(Happen(s, events[0]), events[1..], c, p);
    }
  }

  // ---------------------------------------------------------------- the early exit of borrow

  lemma NothingToBorrow(s: State, pid: Pid, c: nat)
    requires IdleAreFree(s) && s.free == {} && Has(s, c)
    ensures var (t, code) := CpuinfoSpec.BorrowCpu(s, pid, c); t == s && !Got(code)
  {
    hide CoreIsEligible;
  }

  lemma {:induction false} NoCoreToBorrow(s: State, pid: Pid, core: nat, c: nat, code: Code, count: int)
    requires IdleAreFree(s) && s.free == {}
    ensures TakeCore(s, pid, Borrowing, core, c, code, count) == Batch(s, code, count)
    decreases |s.cpus| - c
  {
    hide CpuinfoSpec.BorrowCpu, IdleAreFree;
    SameLengths(s);
    if c < |s.cpus| {
      NothingToBorrow(s, pid, c);
      NoCoreToBorrow(s, pid, core, c + 1, code, count);
    }
  }

  lemma {:induction false} NoArrayToBorrow(s: State, pid: Pid, list: seq<nat>, i: nat, count: int, prev: int,
      code: Code)
    requires IdleAreFree(s) && s.free == {} && InTable(s, list)
    ensures TakeArray(s, pid, Borrowing, list, i, count, prev, code) == Batch(s, code, count)
    decreases |list| - i
  {
    hide CpuinfoSpec.BorrowCpu, IdleAreFree, TakeCore;
    SameLengths(s);
    if count > 0 && i < |list| {
      var c := list[i];
      NothingToBorrow(s, pid, c);
      NoCoreToBorrow(s, pid, s.core[c], 0, NoUpdt, 0);
      NoArrayToBorrow(s, pid, list, i + 1, count, prev, code);
      NoArrayToBorrow(s, pid, list, i + 1, count, s.core[c], code);
    }
  }

  /** Skipping the borrow when free_cpus is empty gives what trying every CPU would: the same table, no
      task and the same code, with and without SMT. */
  lemma EarlyExitIsExact(s: State, pid: Pid, wanted: int, list: seq<nat>, spread: bool, freeNodes: State -> seq<nat>)
    requires IdleAreFree(s) && InTable(s, list)
    ensures CpuinfoOps.BorrowNcpus(s, pid, wanted, list, spread, freeNodes) ==
      BorrowWanted(s, pid, wanted, list, spread, freeNodes)
    ensures s.free == {} ==> CpuinfoOps.BorrowNcpus(s, pid, wanted, list, spread, freeNodes) == (s, NoUpdt)
  {
    hide IdleAreFree, TakeArray;
    SameLengths(s);
    if s.free == {} {
      NoArrayToBorrow(s, pid, list, 0, wanted, -1, NoUpdt);
      NoArrayToBorrow(s, pid, list, 0, 0, -1, NoUpdt);
      if InTable(s, freeNodes(s)) {
        NoArrayToBorrow(s, pid, freeNodes(s), 0, wanted, -1, NoUpdt);
      }
    }
  }
}
